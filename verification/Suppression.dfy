/** Where every writer of a field ends up, and what suppressors cannot reach. */
module SuppressionTheorems {
  import opened Common
  import opened Values
  import opened Engine
  import opened Rules
  import opened Policy
  import opened Resolver
  import opened Pipeline
  import opened OutcomeTheorems

  // --------------------------------------------------------------- accounting

  /** The writers still standing when a field is settled. */
  function Survivors(field: string, ws: seq<Rule>): seq<Rule> {
    var effective := Suppress(field, ws).0;
    if |effective| > 1 && !Agree(field, effective) && OneGroup(effective)
    then [effective[ArgBest(effective, GroupBeats)]] else effective
  }

  /** The writers that the suppressor pass takes out. */
  function TakenOut(ws: seq<Rule>): seq<Rule> {
    if !HasSuppressor(ws) then []
    else if HasShield(ws) then Filter(Suppressor(), ws)
    else Without(ws, ArgBest(ws, SuppressorBeats))
  }

  /** The writers that lose to the winner of their conflict group. */
  function Outdone(field: string, effective: seq<Rule>): seq<Rule> {
    if |effective| > 1 && !Agree(field, effective) && OneGroup(effective)
    then Without(effective, ArgBest(effective, GroupBeats)) else []
  }

  /** The writers the passes put in the log, in logging order. */
  function Logged(field: string, ws: seq<Rule>): seq<Rule> { TakenOut(ws) + Outdone(field, Suppress(field, ws).0) }

  lemma OrdinaryOrSuppressor(ws: seq<Rule>)
    ensures multiset(Filter(Ordinary(), ws)) + multiset(Filter(Suppressor(), ws)) == multiset(ws)
  {
    forall r ensures multiset(Filter(Ordinary(), ws))[r] + multiset(Filter(Suppressor(), ws))[r] == multiset(ws)[r] {
      FilterCount(Ordinary(), ws, r);
      FilterCount(Suppressor(), ws, r);
    }
  }

  lemma SuppressCounts(field: string, ws: seq<Rule>)
    ensures multiset(Suppress(field, ws).0) + multiset(TakenOut(ws)) == multiset(ws)
  {
    hide Filter, Without;
    OrdinaryOrSuppressor(ws);
    if HasSuppressor(ws) { WithoutCounts(ws, ArgBest(ws, SuppressorBeats)); }
  }

  lemma GroupCounts(field: string, effective: seq<Rule>)
    requires |effective| > 1 && !Agree(field, effective) && OneGroup(effective)
    ensures multiset([effective[ArgBest(effective, GroupBeats)]]) + multiset(Outdone(field, effective)) ==
            multiset(effective)
  {
    hide Without, Agree, OneGroup;
    WithoutCounts(effective, ArgBest(effective, GroupBeats));
  }

  /** Conservation: survivors and logged writers together are the writers, each counted once. */
  lemma EveryWriterAccounted(field: string, ws: seq<Rule>)
    ensures multiset(Survivors(field, ws)) + multiset(Logged(field, ws)) == multiset(ws)
  {
    hide Suppress, GroupBeats, Agree, OneGroup, TakenOut, Without;
    SuppressCounts(field, ws);
    var effective := Suppress(field, ws).0;
    if |effective| > 1 && !Agree(field, effective) && OneGroup(effective) { GroupCounts(field, effective); }
  }

  /** `log` has one entry per rule of `rs`, in order, under the rule's code and the field. */
  ghost predicate Records(log: seq<Suppression>, rs: seq<Rule>, field: string) {
    |log| == |rs| && forall i :: 0 <= i < |log| ==> log[i].code == rs[i].code && log[i].field == field
  }

  lemma EntriesRecord(field: string, reason: Reason, rs: seq<Rule>)
    ensures Records(Map(Entry(field, reason), rs), rs, field)
  {
  }

  lemma RecordsAppend(a: seq<Suppression>, rs: seq<Rule>, b: seq<Suppression>, ss: seq<Rule>, field: string)
    requires Records(a, rs, field) && Records(b, ss, field)
    ensures Records(a + b, rs + ss, field)
  {
  }

  lemma SuppressRecords(field: string, ws: seq<Rule>)
    ensures Records(Suppress(field, ws).1, TakenOut(ws), field)
  {
    hide SuppressorBeats, HasShield, Without, Records, Entry, Filter;
    NothingRecords(field);
    EntriesRecord(field, Overridden, TakenOut(ws));
    if HasSuppressor(ws) { EntriesRecord(field, SuppressedBy(ws[ArgBest(ws, SuppressorBeats)].code), TakenOut(ws)); }
  }

  lemma SettleRecords(field: string, ws: seq<Rule>)
    requires Settle(field, ws).Done?
    ensures Records(Settle(field, ws).value.log, Outdone(field, ws), field)
  {
    hide GroupFails, MergeField, GroupBeats, OneGroup, Without, Records, Entry, PyEq;
    NothingRecords(field);
    if |ws| > 1 { EntriesRecord(field, LostTo(ws[ArgBest(ws, GroupBeats)].code), Outdone(field, ws)); }
  }

  /** The log has one entry per logged writer, under that writer's code and this field. */
  lemma LogIsLogged(field: string, ws: seq<Rule>)
    requires ResolveField(field, ws).Done?
    ensures Records(ResolveField(field, ws).value.log, Logged(field, ws), field)
  {
    hide Suppress, Settle, TakenOut, Outdone, Records;
    var effective := Suppress(field, ws).0;
    SuppressRecords(field, ws);
    SettleRecords(field, effective);
    RecordsAppend(Suppress(field, ws).1, TakenOut(ws), Settle(field, effective).value.log, Outdone(field, effective),
                  field);
  }

  /** What an entry says happened did: overridden by a shield, suppressed by the surviving suppressor, or outdone by the
      surviving winner of the conflict group. */
  ghost predicate Warranted(e: Suppression, field: string, ws: seq<Rule>) {
    match e.reason
    case Overridden => HasShield(ws) && exists r :: r in ws && r.isSuppressor && r.code == e.code
    case SuppressedBy(code) =>
      !HasShield(ws) && exists w :: w in Survivors(field, ws) && w.isSuppressor && w.code == code
    case LostTo(code) =>
      exists w :: w in Survivors(field, ws) && w.conflictGroup.Some? && w.code == code
  }

  lemma ReasonsAreWarranted(field: string, ws: seq<Rule>)
    requires ResolveField(field, ws).Done?
    ensures forall e :: e in ResolveField(field, ws).value.log ==> Warranted(e, field, ws)
  {
    hide Settle, Suppress, Warranted;
    SuppressWarranted(field, ws);
    SettleWarranted(field, ws);
  }

  lemma SuppressWarranted(field: string, ws: seq<Rule>)
    ensures forall e :: e in Suppress(field, ws).1 ==> Warranted(e, field, ws)
  {
    hide GroupBeats, SuppressorBeats, Without, Agree, OneGroup, Filter;
    FilterMembers(Suppressor(), ws);
    if HasSuppressor(ws) && !HasShield(ws) {
      var w := ws[ArgBest(ws, SuppressorBeats)];
      SuppressorIsBest(ws);
      assert Survivors(field, ws) == [w] && w in [w];
    }
    if HasSuppressor(ws) && HasShield(ws) {
      var rs, log := Filter(Suppressor(), ws), Suppress(field, ws).1;
      forall e | e in log ensures Warranted(e, field, ws) {
        var i :| 0 <= i < |log| && log[i] == e;
        assert rs[i] in rs && e == Entry(field, Overridden)(rs[i]);
      }
    }
  }

  lemma SuppressorIsBest(ws: seq<Rule>)
    requires HasSuppressor(ws)
    ensures ws[ArgBest(ws, SuppressorBeats)].isSuppressor
  {
    OrdersAreWeak("");
    ArgBestIsFirst(ws, SuppressorBeats);
    var r :| r in ws && r.isSuppressor;
    var k :| 0 <= k < |ws| && ws[k] == r;
    assert !SuppressorBeats(ws[k], ws[ArgBest(ws, SuppressorBeats)]);
  }

  lemma SettleWarranted(field: string, ws: seq<Rule>)
    requires Settle(field, Suppress(field, ws).0).Done?
    ensures forall e :: e in Settle(field, Suppress(field, ws).0).value.log ==> Warranted(e, field, ws)
  {
    hide Suppress, GroupFails, MergeField, GroupBeats, Without, Agree;
    var effective := Suppress(field, ws).0;
    if |effective| > 1 && !Agree(field, effective) && OneGroup(effective) {
      var w := effective[ArgBest(effective, GroupBeats)];
      assert w in effective;
      assert Survivors(field, ws) == [w] && w in [w];
    }
  }

  lemma NothingRecords(field: string)
    ensures Records([], [], field)
  {
  }

  /** The settled value is some survivor's value. */
  lemma ValueIsSurvivors(field: string, ws: seq<Rule>)
    requires ResolveField(field, ws).Done? && ResolveField(field, ws).value.value.Some?
    ensures exists s :: s in Survivors(field, ws) && Get(s.actions, field) == ResolveField(field, ws).value.value.value
  {
    hide Suppress, GroupFails, GroupBeats, SuppressorBeats, Agree, OneGroup, SeverityBeats, ShorterBeats,
         DurationMinutes;
    var effective := Suppress(field, ws).0;
    var v := ResolveField(field, ws).value.value.value;
    assert effective != [];
    var survivors := Survivors(field, ws);
    if Get(survivors[0].actions, field) == v {
      assert survivors[0] in survivors;
    } else {
      assert MergeField(field, effective) == Done(v);
      MergedFromOne(field, effective);
    }
  }

  lemma MergedFromOne(field: string, ws: seq<Rule>)
    requires ws != [] && MergeField(field, ws).Done?
    ensures exists s :: s in ws && Get(s.actions, field) == MergeField(field, ws).value
  {
    hide SeverityBeats, ShorterBeats, WeightBeats, DurationMinutes;
    var v := MergeField(field, ws).value;
    if field != PRIORITY && field != TARGET_SLA && field != "slaTarget"
      && (forall r :: r in ws ==> Get(r.actions, field).Bool?) {
      if v == Bool(false) {
        assert ws[0] in ws;
        assert Get(ws[0].actions, field) == Bool(false);
      }
    } else {
      var w := if field == PRIORITY then ArgBest(ws, SeverityBeats(field))
               else if field == TARGET_SLA || field == "slaTarget" then ArgBest(ws, ShorterBeats(field))
               else ArgBest(ws, WeightBeats);
      assert ws[w] in ws;
    }
  }

  /** A written field goes missing only when all its writers suppress and one of them is also a shield. */
  lemma MissingExactly(field: string, ws: seq<Rule>)
    requires ws != [] && ResolveField(field, ws).Done?
    ensures ResolveField(field, ws).value.value.None? <==> (forall r :: r in ws ==> r.isSuppressor) && HasShield(ws)
  {
    hide GroupFails, MergeField, Agree, OneGroup, GroupBeats, SuppressorBeats;
    FilterMembers(Ordinary(), ws);
    var ordinary := Filter(Ordinary(), ws);
    if ordinary != [] { assert ordinary[0] in ordinary; }
    assert ws[0] in ws;
  }

  /** Under a shield no suppressor survives, and suppressors are what the suppressor pass logs as overridden. */
  lemma ShieldHolds(field: string, ws: seq<Rule>)
    requires HasShield(ws)
    ensures forall s :: s in Survivors(field, ws) ==> !s.isSuppressor
    ensures forall r :: r in ws && r.isSuppressor ==> r in Logged(field, ws)
    ensures ResolveField(field, ws).Done? ==>
              forall e :: e in ResolveField(field, ws).value.log ==> !e.reason.SuppressedBy?
  {
    hide Suppress, Settle, Survivors, Logged, ResolveField;
    ShieldedSuppress(field, ws);
    SurvivorsAreEffective(field, ws);
    SuppressedAreLogged(field, ws);
    if ResolveField(field, ws).Done? { ShieldedLog(field, ws); }
  }

  lemma ShieldedSuppress(field: string, ws: seq<Rule>)
    requires HasShield(ws)
    ensures forall r :: r in Suppress(field, ws).0 ==> !r.isSuppressor
    ensures forall r :: r in ws && r.isSuppressor ==> r in Filter(Suppressor(), ws) && HasSuppressor(ws)
    ensures forall e :: e in Suppress(field, ws).1 ==> !e.reason.SuppressedBy?
  {
    hide Filter;
    FilterMembers(Ordinary(), ws);
    FilterMembers(Suppressor(), ws);
  }

  lemma SurvivorsAreEffective(field: string, ws: seq<Rule>)
    ensures forall s :: s in Survivors(field, ws) ==> s in Suppress(field, ws).0
  {
    hide Suppress, GroupFails, Agree, OneGroup, GroupBeats;
  }

  lemma SuppressedAreLogged(field: string, ws: seq<Rule>)
    requires HasShield(ws)
    ensures HasSuppressor(ws) ==> forall r :: r in Filter(Suppressor(), ws) ==> r in Logged(field, ws)
  {
    hide Filter, Settle, Agree, OneGroup, GroupBeats;
  }

  lemma ShieldedLog(field: string, ws: seq<Rule>)
    requires HasShield(ws) && ResolveField(field, ws).Done?
    ensures forall e :: e in ResolveField(field, ws).value.log ==> !e.reason.SuppressedBy?
  {
    hide Suppress, Filter, GroupFails, MergeField, Agree, OneGroup, GroupBeats;
    ShieldedSuppress(field, ws);
  }

  /** A conflict group is won by a writer nobody in it beats; among equals the first in match order wins. */
  lemma GroupWinnerBest(field: string, ws: seq<Rule>)
    requires var effective := Suppress(field, ws).0;
             |effective| > 1 && !Agree(field, effective) && OneGroup(effective)
    ensures |Survivors(field, ws)| == 1
    ensures forall r :: r in Suppress(field, ws).0 ==> !GroupBeats(r, Survivors(field, ws)[0])
  {
    hide GroupBeats, Suppress, Agree, OneGroup;
    var effective := Suppress(field, ws).0;
    GroupBeatsIsWeakOrder();
    ArgBestIsFirst(effective, GroupBeats);
    forall r | r in effective ensures !GroupBeats(r, Survivors(field, ws)[0]) {
      var i :| 0 <= i < |effective| && effective[i] == r;
    }
  }

  // --------------------------------------------------------- non-interference

  /** The pack with every suppressor rule deleted. */
  function WithoutSuppressors(rules: seq<Rule>): seq<Rule> { Filter(Ordinary(), rules) }

  lemma MatchedWithoutSuppressors(rules: seq<Rule>, data: Object)
    ensures Matched(WithoutSuppressors(rules), data) == Filter(Ordinary(), Matched(rules, data))
  {
    FilterCommute(Ordinary(), MatchTest(data), ActiveRules(rules));
    FilterSort(Ordinary(), Filter(IsActive, rules));
    FilterCommute(Ordinary(), IsActive, rules);
  }

  /** Some matched rule that is a shield but no suppressor writes the field. */
  predicate Shielded(field: string, matched: seq<Rule>) {
    exists r :: r in matched && r.nonSuppressible && !r.isSuppressor && field in r.actions
  }

  /** Deleting all suppressors changes nothing about how a shielded field is settled, raising included. */
  lemma ShieldedFieldResult(rules: seq<Rule>, data: Object, field: string)
    requires Shielded(field, Matched(rules, data))
    ensures var before, after := FieldResult(field, Matched(rules, data)),
            FieldResult(field, Matched(WithoutSuppressors(rules), data));
            && before.Done? == after.Done?
            && (before.Done? ==> before.value.value == after.value.value && before.value.value.Some?)
  {
    hide Settle, VerdictOn;
    var M := Matched(rules, data);
    MatchedWithoutSuppressors(rules, data);
    FilterCommute(Writes(field), Ordinary(), M);
    var ws := Writers(field, M);
    var rest := Filter(Ordinary(), ws);
    FilterMembers(Writes(field), M);
    FilterMembers(Ordinary(), ws);
    assert !HasSuppressor(rest);
    if !HasSuppressor(ws) { FilterAll(Ordinary(), ws); }
    assert HasShield(ws);
    var r :| r in M && r.nonSuppressible && !r.isSuppressor && field in r.actions;
    assert r in rest;
    SettledPresent(field, rest);
  }

  lemma SettledPresent(field: string, ws: seq<Rule>)
    requires ws != []
    ensures Settle(field, ws).Done? ==> Settle(field, ws).value.value.Some?
  {
    hide GroupFails, MergeField, Agree, OneGroup, GroupBeats;
  }

  lemma {:induction false} OverwriteOther(actions: Object, hits: seq<Rule>, field: string)
    requires forall r :: r in hits ==> field !in r.actions
    ensures (field in Overwrite(actions, hits) <==> field in actions)
    ensures Get(Overwrite(actions, hits), field) == Get(actions, field)
    decreases |hits|
  {
    if hits != [] {
      assert hits[0] in hits;
      OverwriteOther(actions + hits[0].actions, hits[1..], field);
    }
  }

  lemma PostprocessOther(actions: Object, matched: seq<Rule>, field: string)
    requires field != PRIORITY && Postprocess(actions, matched).Done?
    ensures (field in Postprocess(actions, matched).value <==> field in actions)
    ensures Get(Postprocess(actions, matched).value, field) == Get(actions, field)
  {
    hide HasFloor, Floored, Bumped, Filter;
  }

  lemma FillOther(matrix: Option<Matrix>, tier: Value, actions: Object, field: string)
    requires field in actions && FillTargets(matrix, tier, actions).Done?
    ensures field in FillTargets(matrix, tier, actions).value
    ensures field != RESOLUTION ==> Get(FillTargets(matrix, tier, actions).value, field) == Get(actions, field)
  {
    hide LookupTargets, IntText;
  }

  /** The actions of a run before the SLA matrix is consulted. */
  function BeforeMatrix(rules: seq<Rule>, incident: Incident): Object
    requires Resolve(Matched(rules, EvaluationData(incident))).Done?
  {
    var data := EvaluationData(incident);
    Overwrite(Resolve(Matched(rules, data)).value.actions, ComplianceHits(rules, data))
  }

  /** The entry the matrix fills in: the one for tier and priority, unless a targetSLA is set. */
  function Filled(matrix: Option<Matrix>, tier: Value, actions: Object): Option<Targets> {
    if matrix.None? || TARGET_SLA in actions then None
    else match LookupTargets(matrix.value, tier, Get(actions, PRIORITY)) case Done(entry) => entry case Raised => None
  }

  function Tier(incident: Incident): Value { Get(incident.payload, "customerTier") }

  lemma FillResolution(matrix: Option<Matrix>, tier: Value, actions: Object)
    requires RESOLUTION in actions && FillTargets(matrix, tier, actions).Done?
    ensures Get(FillTargets(matrix, tier, actions).value, RESOLUTION) ==
            match Filled(matrix, tier, actions)
            case Some(t) => Int(t.resolutionMinutes)
            case None => actions[RESOLUTION]
  {
    hide LookupTargets, IntText;
  }

  lemma RunFills(rules: seq<Rule>, incident: Incident, matrix: Option<Matrix>)
    requires Run(rules, incident, matrix).Done?
    ensures Resolve(Matched(rules, EvaluationData(incident))).Done?
    ensures FillTargets(matrix, Tier(incident), BeforeMatrix(rules, incident)) ==
            Done(Run(rules, incident, matrix).value.actions)
  {
    hide PolicyFails, Matched, Resolve, FillTargets, PlanFails, ComplianceHits, ComplianceFails, Overwrite, Filter,
         Total, PlanOf, Rejected;
  }

  /** The value the resolver settles a field on. */
  function Settled(field: string, matched: seq<Rule>): Value {
    match FieldResult(field, matched) case Done(r) => if r.value.Some? then r.value.value else Null case Raised => Null
  }

  lemma ResolvedPriority(matched: seq<Rule>, field: string)
    requires Resolve(matched).Done? && field != PRIORITY && field in Fields(matched)
    requires FieldResult(field, matched).Done? && FieldResult(field, matched).value.value.Some?
    ensures field in Resolve(matched).value.actions && Resolve(matched).value.actions[field] == Settled(field, matched)
  {
    hide FieldResult, Fields, Postprocess, Mitigations;
    PostprocessOther(Merged(matched), matched, field);
  }

  /** Before the matrix, a field that only the resolver settles has its settled value. */
  lemma BeforeMatrixValue(rules: seq<Rule>, incident: Incident, field: string)
    requires Resolve(Matched(rules, EvaluationData(incident))).Done? && field != PRIORITY
    requires forall r :: r in rules && r.family == COMPLIANCE ==> field !in r.actions
    requires var M := Matched(rules, EvaluationData(incident));
             FieldResult(field, M).Done? && FieldResult(field, M).value.value.Some? && field in Fields(M)
    ensures field in BeforeMatrix(rules, incident)
    ensures BeforeMatrix(rules, incident)[field] == Settled(field, Matched(rules, EvaluationData(incident)))
  {
    hide Matched, FieldResult, Fields, Resolve, ComplianceHits, Overwrite;
    var data := EvaluationData(incident);
    var hits := ComplianceHits(rules, data);
    ResolvedPriority(Matched(rules, data), field);
    forall r | r in hits ensures field !in r.actions { HitsFamily(rules, data, r); }
    OverwriteOther(Resolve(Matched(rules, data)).value.actions, hits, field);
  }

  /** What a run decides for a field that only the resolver and the matrix settle. */
  lemma RunValue(rules: seq<Rule>, incident: Incident, matrix: Option<Matrix>, field: string)
    requires Run(rules, incident, matrix).Done? && field != PRIORITY
    requires forall r :: r in rules && r.family == COMPLIANCE ==> field !in r.actions
    requires var M := Matched(rules, EvaluationData(incident));
             FieldResult(field, M).Done? && FieldResult(field, M).value.value.Some? && field in Fields(M)
    ensures Resolve(Matched(rules, EvaluationData(incident))).Done?
    ensures field in Run(rules, incident, matrix).value.actions
    ensures Run(rules, incident, matrix).value.actions[field] ==
            if field == RESOLUTION && Filled(matrix, Tier(incident), BeforeMatrix(rules, incident)).Some?
            then Int(Filled(matrix, Tier(incident), BeforeMatrix(rules, incident)).value.resolutionMinutes)
            else Settled(field, Matched(rules, EvaluationData(incident)))
  {
    hide Run, Matched, FieldResult, Fields, Resolve, FillTargets, BeforeMatrix, Filled;
    RunFills(rules, incident, matrix);
    BeforeMatrixValue(rules, incident, field);
    FillOther(matrix, Tier(incident), BeforeMatrix(rules, incident), field);
    if field == RESOLUTION { FillResolution(matrix, Tier(incident), BeforeMatrix(rules, incident)); }
  }

  lemma HitsFamily(rules: seq<Rule>, data: Object, r: Rule)
    requires r in ComplianceHits(rules, data)
    ensures r in rules && r.family == COMPLIANCE
  {
    hide Satisfied;
    ComplianceMembers(rules);
    FilterMembers(SatisfiedTest(data), ActiveFamily(rules, COMPLIANCE));
  }

  /** The matrix overwrites a value in neither of two runs, or what each run is left with has equal minutes. */
  predicate SameMinutes(first: Option<Targets>, second: Option<Targets>, settled: Value) {
    match (first, second)
    case (None, None) => true
    case (Some(t), None) => settled == Int(t.resolutionMinutes)
    case (None, Some(u)) => settled == Int(u.resolutionMinutes)
    case (Some(t), Some(u)) => t.resolutionMinutes == u.resolutionMinutes
  }

  /** Suppressors cannot reach a shielded field: deleting every suppressor from the pack leaves its decided value as it
      was. The SLA matrix writes slaResolutionMinutes after the rules, so there the value is unchanged exactly when the
      entries that the two runs fill in, which depend on targetSLA and the priority, leave the same minutes. */
  lemma SuppressorsCannotReach(rules: seq<Rule>, incident: Incident, matrix: Option<Matrix>, field: string)
    requires field != PRIORITY && !IsModifier(field)
    requires Shielded(field, Matched(rules, EvaluationData(incident)))
    requires forall r :: r in rules && r.family == COMPLIANCE ==> field !in r.actions
    requires Run(rules, incident, matrix).Done? && Run(WithoutSuppressors(rules), incident, matrix).Done?
    ensures Resolve(Matched(rules, EvaluationData(incident))).Done?
    ensures Resolve(Matched(WithoutSuppressors(rules), EvaluationData(incident))).Done?
    ensures var before, after := Run(rules, incident, matrix).value.actions,
            Run(WithoutSuppressors(rules), incident, matrix).value.actions;
            && field in before && field in after
            && (before[field] == after[field] <==>
                  (field == RESOLUTION ==>
                     SameMinutes(Filled(matrix, Tier(incident), BeforeMatrix(rules, incident)),
                                 Filled(matrix, Tier(incident), BeforeMatrix(WithoutSuppressors(rules), incident)),
                                 Settled(field, Matched(rules, EvaluationData(incident))))))
  {
    hide Run, Matched, FieldResult, Filter, Filled, BeforeMatrix, Resolve;
    var data := EvaluationData(incident);
    ShieldedBothWays(rules, incident, matrix, field);
    RunValue(rules, incident, matrix, field);
    RunValue(WithoutSuppressors(rules), incident, matrix, field);
  }

  /** A shielded field is settled in both runs, on the same value. */
  lemma ShieldedBothWays(rules: seq<Rule>, incident: Incident, matrix: Option<Matrix>, field: string)
    requires !IsModifier(field) && Shielded(field, Matched(rules, EvaluationData(incident)))
    requires forall r :: r in rules && r.family == COMPLIANCE ==> field !in r.actions
    requires Run(rules, incident, matrix).Done? && Run(WithoutSuppressors(rules), incident, matrix).Done?
    ensures forall r :: r in WithoutSuppressors(rules) && r.family == COMPLIANCE ==> field !in r.actions
    ensures var data := EvaluationData(incident);
            var M, N := Matched(rules, data), Matched(WithoutSuppressors(rules), data);
            && field in Fields(M) && field in Fields(N)
            && FieldResult(field, M).Done? && FieldResult(field, M).value.value.Some?
            && FieldResult(field, N).Done? && FieldResult(field, N).value.value.Some?
            && Settled(field, M) == Settled(field, N)
  {
    hide Run, Matched, FieldResult, Filter;
    var data := EvaluationData(incident);
    var M := Matched(rules, data);
    FilterMembers(Ordinary(), rules);
    FilterMembers(Ordinary(), M);
    MatchedWithoutSuppressors(rules, data);
    var r :| r in M && r.nonSuppressible && !r.isSuppressor && field in r.actions;
    assert r in Matched(WithoutSuppressors(rules), data);
    RunSettles(rules, incident, matrix, field);
    ShieldedFieldResult(rules, data, field);
  }

  // ----------------------------------------------------------------- priority

  predicate Modifies(r: Rule) { FLOOR in r.actions || Bumps()(r) }

  lemma ModifiersWithoutSuppressors(M: seq<Rule>)
    requires forall r :: r in M && r.isSuppressor ==> !Modifies(r)
    ensures var N := Filter(Ordinary(), M);
            HasFloor(N) == HasFloor(M) && TopFloor(N) == TopFloor(M) && Filter(Bumps(), N) == Filter(Bumps(), M)
  {
    hide Filter, SeverityIndex, Truthy;
    FilterMembers(Ordinary(), M);
    FilterWithin(Bumps(), Ordinary(), M);
    forall i: nat ensures HasFloorAt(Filter(Ordinary(), M), i) == HasFloorAt(M, i) { }
  }

  /** The level that floors and bumps take a priority of level `start` to. */
  function Level(start: nat, matched: seq<Rule>): (level: nat)
    ensures level < 4
  {
    var floor := if TopFloor(matched).Some? then TopFloor(matched).value else 0;
    Min(Max(start, floor) + BumpCount(matched), 3)
  }

  /** The floors and bumps of two lists of rules take a settled priority to the same place: a known one to the same
      level; a null one to the same level from Low if both have floors, and nowhere if neither has. An unknown one
      stays, since adjusting it raises. */
  predicate SameLevel(settled: Value, M: seq<Rule>, N: seq<Rule>) {
    if settled.Null? then HasFloor(M) == HasFloor(N) && (HasFloor(M) ==> Level(0, M) == Level(0, N))
    else SeverityIndex(settled).Some? ==>
           Level(SeverityIndex(settled).value, M) == Level(SeverityIndex(settled).value, N)
  }

  lemma SeverityNamed(v: Value)
    ensures SeverityIndex(v).Some? ==> v == SeverityName(SeverityIndex(v).value)
  {
  }

  lemma UnadjustedLevel(start: nat, matched: seq<Rule>)
    requires !Adjusts(matched) && start < 4
    ensures Level(start, matched) == start
  {
    hide Bumps, TopFloor, HasFloor;
    NoFloorNoTop(matched);
    BumpsCounted(matched);
  }

  /** Where floors and bumps leave a priority, as a value. */
  lemma FinalPriority(actions: Object, matched: seq<Rule>)
    requires PRIORITY in actions && Postprocess(actions, matched).Done?
    ensures PRIORITY in Postprocess(actions, matched).value
    ensures var start, end := Starting(actions, matched), Postprocess(actions, matched).value[PRIORITY];
            end == if SeverityIndex(start).Some? then SeverityName(Level(SeverityIndex(start).value, matched))
                   else actions[PRIORITY]
  {
    hide SeverityIndex, SeverityName, TopFloor, HasFloor, Postprocess, Bumps, Filter;
    var start := Starting(actions, matched);
    NullIsUnknown();
    if !start.Null? && Adjusts(matched) {
      AdjustingRaises(actions, matched);
      SeverityNamed(Postprocess(actions, matched).value[PRIORITY]);
    } else {
      NothingToAdjust(actions, matched);
      SeverityNamed(start);
      if SeverityIndex(start).Some? { UnadjustedLevel(SeverityIndex(start).value, matched); }
    }
  }

  lemma NullIsUnknown()
    ensures SeverityIndex(Null).None?
  {
  }

  lemma MergedHasPriority(matched: seq<Rule>)
    requires Resolve(matched).Done? && PRIORITY in Fields(matched)
    requires FieldResult(PRIORITY, matched).Done? && FieldResult(PRIORITY, matched).value.value.Some?
    ensures !ResolveFails(matched) && Postprocess(Merged(matched), matched) == Done(Resolve(matched).value.actions)
    ensures PRIORITY in Merged(matched) && Merged(matched)[PRIORITY] == Settled(PRIORITY, matched)
  {
    hide FieldResult, Fields, Postprocess, Mitigations;
  }

  lemma RunPriority(rules: seq<Rule>, incident: Incident, matrix: Option<Matrix>)
    requires Run(rules, incident, matrix).Done?
    requires forall r :: r in rules && r.family == COMPLIANCE ==> PRIORITY !in r.actions
    requires Resolve(Matched(rules, EvaluationData(incident))).Done?
    requires PRIORITY in Resolve(Matched(rules, EvaluationData(incident))).value.actions
    ensures Run(rules, incident, matrix).value.priority ==
            Resolve(Matched(rules, EvaluationData(incident))).value.actions[PRIORITY]
  {
    hide Matched, Resolve, FillTargets, ComplianceHits, Overwrite, FinalActions, PolicyFails, PlanFails;
    var data := EvaluationData(incident);
    var hits := ComplianceHits(rules, data);
    RunFills(rules, incident, matrix);
    forall r | r in hits ensures PRIORITY !in r.actions { HitsFamily(rules, data, r); }
    OverwriteOther(Resolve(Matched(rules, data)).value.actions, hits, PRIORITY);
    PriorityIsNotResolution();
    FillOther(matrix, Tier(incident), BeforeMatrix(rules, incident), PRIORITY);
  }

  lemma PriorityIsNotResolution()
    ensures PRIORITY != RESOLUTION
  {
    assert PRIORITY[0] == 'p' && RESOLUTION[0] == 's';
  }

  /** One settled priority ends alike under two lists of rules exactly when their floors and bumps take it to the same
      place. */
  lemma SameFinalPriority(a: Object, b: Object, M: seq<Rule>, N: seq<Rule>)
    requires PRIORITY in a && PRIORITY in b && a[PRIORITY] == b[PRIORITY]
    requires Postprocess(a, M).Done? && Postprocess(b, N).Done?
    ensures PRIORITY in Postprocess(a, M).value && PRIORITY in Postprocess(b, N).value
    ensures Postprocess(a, M).value[PRIORITY] == Postprocess(b, N).value[PRIORITY] <==> SameLevel(a[PRIORITY], M, N)
  {
    hide SeverityIndex, SeverityName, TopFloor, HasFloor, Postprocess, Bumps, Filter, Level;
    FinalPriority(a, M);
    FinalPriority(b, N);
    NullIsUnknown();
    LowIsKnown();
  }

  /** Suppressors reach a shielded priority through floors and bumps only: deleting every suppressor leaves the decided
      priority as it was exactly when the floors and bumps that are left take the settled one to the same place. */
  lemma SuppressorsCannotReachPriority(rules: seq<Rule>, incident: Incident, matrix: Option<Matrix>)
    requires Shielded(PRIORITY, Matched(rules, EvaluationData(incident)))
    requires forall r :: r in rules && r.family == COMPLIANCE ==> PRIORITY !in r.actions
    requires Run(rules, incident, matrix).Done? && Run(WithoutSuppressors(rules), incident, matrix).Done?
    ensures var M := Matched(rules, EvaluationData(incident));
            Run(rules, incident, matrix).value.priority ==
              Run(WithoutSuppressors(rules), incident, matrix).value.priority <==>
            SameLevel(Settled(PRIORITY, M), M, Filter(Ordinary(), M))
  {
    hide Run, Matched, FieldResult, Fields, Filter, Resolve, Merged, ResolveFails, Postprocess, SameLevel, Settled;
    var data := EvaluationData(incident);
    var M, N := Matched(rules, data), Matched(WithoutSuppressors(rules), data);
    assert !IsModifier(PRIORITY) by { PriorityIsNoModifier(); }
    ShieldedBothWays(rules, incident, matrix, PRIORITY);
    RunFills(rules, incident, matrix);
    RunFills(WithoutSuppressors(rules), incident, matrix);
    MatchedWithoutSuppressors(rules, data);
    MergedHasPriority(M);
    MergedHasPriority(N);
    SameFinalPriority(Merged(M), Merged(N), M, N);
    RunPriority(rules, incident, matrix);
    RunPriority(WithoutSuppressors(rules), incident, matrix);
  }

  /** So suppressors without floors and bumps leave it as it was. */
  lemma InertSuppressorsKeepPriority(rules: seq<Rule>, incident: Incident, matrix: Option<Matrix>)
    requires Shielded(PRIORITY, Matched(rules, EvaluationData(incident)))
    requires forall r :: r in Matched(rules, EvaluationData(incident)) && r.isSuppressor ==> !Modifies(r)
    requires forall r :: r in rules && r.family == COMPLIANCE ==> PRIORITY !in r.actions
    requires Run(rules, incident, matrix).Done? && Run(WithoutSuppressors(rules), incident, matrix).Done?
    ensures Run(rules, incident, matrix).value.priority ==
            Run(WithoutSuppressors(rules), incident, matrix).value.priority
  {
    hide Run, Matched, Filter, HasFloor, TopFloor, Modifies, Settled, SeverityIndex, Bumps;
    SuppressorsCannotReachPriority(rules, incident, matrix);
    ModifiersWithoutSuppressors(Matched(rules, EvaluationData(incident)));
  }

  lemma PriorityIsNoModifier()
    ensures !IsModifier(PRIORITY)
  {
    assert |PRIORITY| == 8 && |FLOOR| == 13 && |BUMP| == 20;
  }

  lemma RunSettles(rules: seq<Rule>, incident: Incident, matrix: Option<Matrix>, field: string)
    requires Run(rules, incident, matrix).Done? && field in Fields(Matched(rules, EvaluationData(incident)))
    ensures FieldResult(field, Matched(rules, EvaluationData(incident))).Done?
  {
    hide FieldResult, Fields, Postprocess, FinalActions, PlanFails, Mitigations, Assemble;
  }
}
