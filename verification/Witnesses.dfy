/** Packs and incidents at which a decision is not what one would expect. */
module Witnesses {
  import opened Common
  import opened Values
  import opened Engine
  import opened Rules
  import opened Policy
  import opened Resolver
  import opened Pipeline
  import opened SuppressionTheorems
  import opened OrderTheorems
  import opened OutcomeTheorems

  // ------------------------------------------------- rules that always match

  /** A rule that always matches, with the default family and weight. */
  function Always(code: string, isSuppressor: bool, nonSuppressible: bool, actions: Object): Rule {
    Rule(code, code, "", "OPERATIONAL_FEASIBILITY", 99, 50, None, None, Bool(true), None, None, [], isSuppressor,
         nonSuppressible, 0, actions, map[], None, None, "ACTIVE", true, None)
  }

  predicate IsAlways(r: Rule) {
    && r.enabled && r.ruleStatus == "ACTIVE" && r.family == "OPERATIONAL_FEASIBILITY" && r.familyOrder == 99
       && r.weight == 50
    && r.conditions == Bool(true) && r.exceptions.None? && r.sequencing.None? && r.conflictGroup.None?
  }

  predicate AllAlways(rules: seq<Rule>) { forall r :: r in rules ==> IsAlways(r) }

  lemma AlwaysMatches(r: Rule, data: Object)
    requires IsAlways(r)
    ensures IsActive(r) && r.family != COMPLIANCE && VerdictOn(r, data) == Matches && !HasSequencing()(r)
  {
    assert |r.family| == 23 && |COMPLIANCE| == 10;
  }

  lemma AllMatch(rules: seq<Rule>, data: Object)
    requires AllAlways(rules)
    ensures Matched(rules, data) == rules && !PolicyFails(rules, data)
    ensures ComplianceHits(rules, data) == [] && !ComplianceFails(rules, data) && !PlanFails(rules)
  {
    hide IsAlways, VerdictOn, HasSequencing, Sort, Filter, IsActive;
    forall r | r in rules
      ensures IsActive(r) && r.family != COMPLIANCE && VerdictOn(r, data) == Matches && !HasSequencing()(r)
    {
      AlwaysMatches(r, data);
    }
    FilterAll(IsActive, rules);
    SameKeysSorted(rules);
    SortOfSorted(rules);
    FilterAll(MatchTest(data), rules);
    FilterNone((r: Rule) => r.family == COMPLIANCE, rules);
    NothingToSort();
    assert ActiveFamily(rules, COMPLIANCE) == [];
    FilterNone(SatisfiedTest(data), []);
    FilterNone(HasSequencing(), rules);
  }

  lemma NothingToSort()
    ensures Sort([]) == []
  {
  }

  lemma SameKeysSorted(rules: seq<Rule>)
    requires AllAlways(rules)
    ensures Sorted(rules)
  {
    forall i, j | 0 <= i < j < |rules| ensures !Before(rules[j], rules[i]) {
      assert IsAlways(rules[i]) && IsAlways(rules[j]);
    }
  }

  /** A run over such rules is the resolver and then the matrix. */
  lemma AlwaysRun(rules: seq<Rule>, incident: Incident, matrix: Option<Matrix>, resolved: Object, final: Object)
    requires AllAlways(rules) && !ResolveFails(rules) && Postprocess(Merged(rules), rules) == Done(resolved)
    requires FillTargets(matrix, Tier(incident), resolved) == Done(final)
    ensures Run(rules, incident, matrix).Done?
    ensures Run(rules, incident, matrix).value.actions == final
            && Run(rules, incident, matrix).value.priority == Get(final, PRIORITY)
    ensures Run(rules, incident, matrix).value.mitigations == Mitigations(rules)
  {
    hide ResolveFails, Merged, Postprocess, FillTargets, PolicyFails, Matched, ComplianceHits, ComplianceFails,
         PlanFails, PlanOf, Mitigations, LogOf, Total, Filter, Rejected, AllAlways;
    AllMatch(rules, EvaluationData(incident));
    assert Overwrite(resolved, []) == resolved;
  }

  // --------------------------------------------------------------- one writer

  /** When the suppressor pass leaves the writers alone, settling them is all there is. */
  lemma SettledAlone(field: string, ws: seq<Rule>, v: Value)
    requires Suppress(field, ws) == (ws, []) && Settle(field, ws) == Done(Resolution(Some(v), []))
    ensures ResolveField(field, ws) == Done(Resolution(Some(v), []))
  {
    hide Suppress, Settle;
    var nothing: seq<Suppression> := [];
    assert nothing + nothing == nothing;
  }

  lemma SoleWriter(field: string, r: Rule)
    requires !(r.isSuppressor && r.nonSuppressible)
    ensures ResolveField(field, [r]) == Done(Resolution(Some(Get(r.actions, field)), []))
  {
    hide Settle;
    SettleOne(field, r);
    assert r in [r];
    assert HasSuppressor([r]) == r.isSuppressor && HasShield([r]) == r.nonSuppressible;
    if r.isSuppressor {
      assert ArgBest([r], SuppressorBeats) == 0;
      assert Without([r], 0) == [];
    }
    assert Suppress(field, [r]) == ([r], []);
    SettledAlone(field, [r], Get(r.actions, field));
  }

  lemma OnlyWriter(field: string, rules: seq<Rule>, i: nat)
    requires i < |rules| <= 2 && field in rules[i].actions
    requires forall j :: 0 <= j < |rules| && j != i ==> field !in rules[j].actions
    ensures Writers(field, rules) == [rules[i]]
  {
    if |rules| == 1 {
      assert rules == [rules[0]];
      OneFiltered(Writes(field), rules[0]);
    } else {
      assert rules == [rules[0]] + [rules[1]];
      FilterAppend(Writes(field), [rules[0]], [rules[1]]);
      OneFiltered(Writes(field), rules[0]);
      OneFiltered(Writes(field), rules[1]);
    }
  }

  lemma OneFiltered(test: Rule -> bool, r: Rule)
    ensures Filter(test, [r]) == if test(r) then [r] else []
  {
    assert [r][1..] == [];
  }

  /** Up to two rules that write different fields each get all of theirs. */
  lemma ApartMerge(rules: seq<Rule>)
    requires |rules| <= 2 && forall r :: r in rules ==> !(r.isSuppressor && r.nonSuppressible)
    requires |rules| == 2 ==> rules[0].actions.Keys !! rules[1].actions.Keys
    ensures !ResolveFails(rules)
    ensures Merged(rules).Keys == Fields(rules)
    ensures forall r, f :: r in rules && f in r.actions && !IsModifier(f) ==>
            f in Merged(rules) && Merged(rules)[f] == r.actions[f]
  {
    hide ResolveField, Filter;
    forall i, f | 0 <= i < |rules| && f in rules[i].actions
      ensures FieldResult(f, rules) == Done(Resolution(Some(rules[i].actions[f]), []))
    {
      assert rules[i] in rules;
      OnlyWriter(f, rules, i);
      SoleWriter(f, rules[i]);
    }
  }

  lemma NoModifiers(actions: Object, rules: seq<Rule>)
    requires forall r :: r in rules ==> FLOOR !in r.actions && BUMP !in r.actions
    ensures Postprocess(actions, rules) == Done(actions)
  {
    hide SeverityIndex, TopFloor;
    FilterNone(Bumps(), rules);
    if PRIORITY in actions { assert actions[PRIORITY := actions[PRIORITY]] == actions; }
  }

  // -------------------------------------------------------------- field names

  lemma NamesDiffer()
    ensures PRIORITY != RESOLUTION && PRIORITY != TARGET_SLA && RESOLUTION != TARGET_SLA
    ensures !IsModifier(PRIORITY) && !IsModifier(RESOLUTION) && !IsModifier(TARGET_SLA) && IsModifier(BUMP)
    ensures BUMP != PRIORITY && BUMP != RESOLUTION && BUMP != TARGET_SLA && FLOOR != BUMP && FLOOR != PRIORITY
    ensures FLOOR != RESOLUTION && FLOOR != TARGET_SLA
  {
    assert |PRIORITY| == 8 && |FLOOR| == 13 && |BUMP| == 20 && |TARGET_SLA| == 9 && |RESOLUTION| == 20;
    assert BUMP[0] == 'p' && RESOLUTION[0] == 's';
  }

  // ------------------------------------------------------- SLA matrix, suppressor

  const GOLD := "GOLD"
  const GOLD_INCIDENT := Incident(map["customerTier" := Str(GOLD)], map[])
  const GOLD_MATRIX: Matrix := map[GOLD := map["SEV2_MAJOR" := Targets(15, 60)]]

  function Resolver7(): Rule { Always("A", false, true, map[RESOLUTION := Int(7), PRIORITY := Str("High")]) }

  function TargetSuppressor(): Rule { Always("S", true, false, map[TARGET_SLA := Str("5 minutes")]) }

  lemma GoldEntry()
    ensures LookupTargets(GOLD_MATRIX, Str(GOLD), Str("High")) == Done(Some(Targets(15, 60)))
    ensures Tier(GOLD_INCIDENT) == Str(GOLD)
  {
    assert Upper(GOLD) == GOLD by {
      assert forall i :: 0 <= i < |GOLD| ==> UpperChar(GOLD[i]) == GOLD[i];
    }
    assert "High"[0] == 'H' && "Critical"[0] == 'C';
    assert MatrixSeverity(Str("High")) == Some("SEV2_MAJOR");
  }

  /** A rule's own resolution minutes give way to the matrix when no rule sets a targetSLA. */
  lemma MatrixOverwritesARule()
    ensures var run := Run([Resolver7()], GOLD_INCIDENT, Some(GOLD_MATRIX));
            run.Done? && Get(run.value.actions, RESOLUTION) == Int(60) && Resolver7().actions[RESOLUTION] == Int(7)
  {
    hide Run, Merged, ResolveFails, Postprocess, LookupTargets, IntText, Tier;
    NamesDiffer();
    GoldEntry();
    var rules := [Resolver7()];
    ApartMerge(rules);
    assert rules[0] in rules;
    var merged := Merged(rules);
    assert merged[RESOLUTION] == Int(7) && merged[PRIORITY] == Str("High");
    assert TARGET_SLA !in merged;
    NoModifiers(merged, rules);
    var final := FillTargets(Some(GOLD_MATRIX), Str(GOLD), merged).value;
    AlwaysRun(rules, GOLD_INCIDENT, Some(GOLD_MATRIX), merged, final);
  }

  lemma GoldRulesAreAlways()
    ensures AllAlways([Resolver7(), TargetSuppressor()])
  {
  }

  /** With a suppressor that sets a targetSLA, the same rule keeps its minutes. */
  lemma TargetKeepsTheMinutes()
    ensures var run := Run([Resolver7(), TargetSuppressor()], GOLD_INCIDENT, Some(GOLD_MATRIX));
            run.Done? && Get(run.value.actions, RESOLUTION) == Int(7)
  {
    hide AllAlways, Filter, Run, Merged, ResolveFails, Postprocess, LookupTargets, IntText, Tier;
    NamesDiffer();
    GoldEntry();
    var rules := [Resolver7(), TargetSuppressor()];
    ApartMerge(rules);
    assert rules[0] in rules && rules[1] in rules;
    GoldRulesAreAlways();
    var merged := Merged(rules);
    NoModifiers(merged, rules);
    assert merged[RESOLUTION] == Int(7) && TARGET_SLA in merged;
    AlwaysRun(rules, GOLD_INCIDENT, Some(GOLD_MATRIX), merged, merged);
  }

  lemma OnlyOrdinary(a: Rule, s: Rule)
    requires !a.isSuppressor && s.isSuppressor
    ensures WithoutSuppressors([a, s]) == [a]
  {
    assert [a, s] == [a] + [s];
    FilterAppend(Ordinary(), [a], [s]);
    OneFiltered(Ordinary(), a);
    OneFiltered(Ordinary(), s);
  }

  /** So a suppressor does reach a shielded slaResolutionMinutes, through the matrix. */
  lemma SuppressorReachesThroughMatrix()
    ensures var rules := [Resolver7(), TargetSuppressor()];
            var before, after := Run(rules, GOLD_INCIDENT, Some(GOLD_MATRIX)),
                Run(WithoutSuppressors(rules), GOLD_INCIDENT, Some(GOLD_MATRIX));
            && Shielded(RESOLUTION, Matched(rules, EvaluationData(GOLD_INCIDENT)))
            && before.Done? && Get(before.value.actions, RESOLUTION) == Int(7)
            && after.Done? && Get(after.value.actions, RESOLUTION) == Int(60)
  {
    hide Run, Matched, EvaluationData;
    var rules := [Resolver7(), TargetSuppressor()];
    TargetKeepsTheMinutes();
    MatrixOverwritesARule();
    OnlyOrdinary(Resolver7(), TargetSuppressor());
    AllMatch(rules, EvaluationData(GOLD_INCIDENT));
    assert rules[0] in rules && RESOLUTION in rules[0].actions;
  }

  // ------------------------------------------------------------- bumped priority

  function LowRule(): Rule { Always("A", false, true, map[PRIORITY := Str("Low")]) }

  function BumpingSuppressor(): Rule { Always("S", true, false, map[BUMP := Bool(true)]) }

  const NOTHING := Incident(map[], map[])

  lemma LowRun()
    ensures var run := Run([LowRule()], NOTHING, None); run.Done? && run.value.priority == Str("Low")
  {
    hide Run, Merged, ResolveFails, Postprocess;
    NamesDiffer();
    var rules := [LowRule()];
    ApartMerge(rules);
    assert rules[0] in rules;
    NoModifiers(Merged(rules), rules);
    AlwaysRun(rules, NOTHING, None, Merged(rules), Merged(rules));
  }

  lemma BumpedRun()
    ensures var run := Run([LowRule(), BumpingSuppressor()], NOTHING, None);
            run.Done? && run.value.priority == Str("Medium")
  {
    hide Run, Merged, ResolveFails, Postprocess;
    NamesDiffer();
    var rules := [LowRule(), BumpingSuppressor()];
    ApartMerge(rules);
    assert rules[0] in rules && rules[1] in rules;
    var merged := Merged(rules);
    assert merged[PRIORITY] == Str("Low");
    OneBump(merged, LowRule(), BumpingSuppressor());
    var bumped := merged[PRIORITY := Str("Medium")];
    AlwaysRun(rules, NOTHING, None, bumped, bumped);
  }

  lemma OneBump(actions: Object, a: Rule, s: Rule)
    requires FLOOR !in a.actions && FLOOR !in s.actions && !Bumps()(a) && Bumps()(s)
    requires PRIORITY in actions && actions[PRIORITY] == Str("Low")
    ensures Postprocess(actions, [a, s]) == Done(actions[PRIORITY := Str("Medium")])
  {
    hide Truthy;
    assert [a, s] == [a] + [s];
    FilterAppend(Bumps(), [a], [s]);
    OneFiltered(Bumps(), a);
    OneFiltered(Bumps(), s);
    assert Filter(Bumps(), [a, s]) == [s];
    assert !HasFloor([a, s]);
    assert SeverityName(1) == Str("Medium");
  }

  /** A suppressor that carries a bump does reach a shielded priority. */
  lemma BumpReachesPriority()
    ensures var rules := [LowRule(), BumpingSuppressor()];
            && Shielded(PRIORITY, Matched(rules, EvaluationData(NOTHING)))
            && Run(rules, NOTHING, None).Done? && Run(rules, NOTHING, None).value.priority == Str("Medium")
            && Run(WithoutSuppressors(rules), NOTHING, None).Done?
            && Run(WithoutSuppressors(rules), NOTHING, None).value.priority == Str("Low")
  {
    hide Run, Matched, EvaluationData;
    var rules := [LowRule(), BumpingSuppressor()];
    BumpedRun();
    LowRun();
    OnlyOrdinary(LowRule(), BumpingSuppressor());
    AllMatch(rules, EvaluationData(NOTHING));
    assert rules[0] in rules && PRIORITY in rules[0].actions;
  }

  // ------------------------------------------------------------------- order

  const TEAM := "team"

  function TeamRule(code: string, team: string): Rule { Always(code, false, false, map[TEAM := Str(team)]) }

  lemma FirstTeamWins(a: Rule, b: Rule, x: string, y: string)
    requires a.actions == map[TEAM := Str(x)] && b.actions == map[TEAM := Str(y)] && x != y
    requires IsAlways(a) && IsAlways(b) && !a.isSuppressor && !b.isSuppressor
    ensures !ResolveFails([a, b]) && Merged([a, b]) == map[TEAM := Str(x)]
  {
    hide IsAlways, Settle, Filter, ResolveField, Suppress;
    TeamIsFree();
    var ws := [a, b];
    assert ws[0] in ws && ws[1] in ws;
    FilterAll(Writes(TEAM), ws);
    assert Suppress(TEAM, ws) == (ws, []) by { Unsuppressed(a, b); }
    TeamSettles(a, b, x, y);
    SettledAlone(TEAM, ws, Str(x));
    assert FieldResult(TEAM, ws) == Done(Resolution(Some(Str(x)), []));
    assert Fields(ws) == {TEAM};
  }

  lemma Unsuppressed(a: Rule, b: Rule)
    requires !a.isSuppressor && !b.isSuppressor
    ensures Suppress(TEAM, [a, b]) == ([a, b], [])
  {
    assert !HasSuppressor([a, b]);
  }

  lemma TeamSettles(a: Rule, b: Rule, x: string, y: string)
    requires a.actions == map[TEAM := Str(x)] && b.actions == map[TEAM := Str(y)] && x != y
    requires IsAlways(a) && IsAlways(b)
    ensures Settle(TEAM, [a, b]) == Done(Resolution(Some(Str(x)), []))
  {
    hide IsAlways, MergeField, GroupFails, GroupBeats;
    var ws := [a, b];
    assert ws[0] in ws && ws[1] in ws;
    assert !Agree(TEAM, ws) by { DifferentTexts(x, y); }
    assert !OneGroup(ws) by { NoGroup(a); }
    TeamMerges(a, b, x);
  }

  lemma DifferentTexts(x: string, y: string)
    ensures PyEq(Str(x), Str(y)) <==> x == y
  {
  }

  lemma TeamMerges(a: Rule, b: Rule, x: string)
    requires IsAlways(a) && IsAlways(b) && a.actions == map[TEAM := Str(x)]
    ensures MergeField(TEAM, [a, b]) == Done(Str(x))
  {
    hide IsAlways, ArgBest, DurationMinutes, Hashable, SeverityBeats, ShorterBeats, WeightBeats;
    TeamIsFree();
    FirstOfEquals(a, b);
    assert a in [a, b] && !Get(a.actions, TEAM).Bool?;
  }

  lemma NoGroup(r: Rule)
    requires IsAlways(r)
    ensures r.conflictGroup.None? && r.weight == 50
  {
  }

  lemma FirstOfEquals(a: Rule, b: Rule)
    requires IsAlways(a) && IsAlways(b)
    ensures ArgBest([a, b], WeightBeats) == 0
  {
    NoGroup(a);
    NoGroup(b);
    assert [a, b][..1] == [a];
  }

  lemma TeamIsFree()
    ensures TEAM != PRIORITY && TEAM != TARGET_SLA && TEAM != "slaTarget" && !IsModifier(TEAM)
  {
    assert |TEAM| == 4;
  }

  lemma TeamRun(a: Rule, b: Rule, x: string, y: string)
    requires a.actions == map[TEAM := Str(x)] && b.actions == map[TEAM := Str(y)] && x != y
    requires IsAlways(a) && IsAlways(b) && !a.isSuppressor && !b.isSuppressor
    ensures Run([a, b], NOTHING, None).Done? && Get(Run([a, b], NOTHING, None).value.actions, TEAM) == Str(x)
  {
    hide Run, Merged, ResolveFails, Postprocess, IsAlways;
    var rules := [a, b];
    FirstTeamWins(a, b, x, y);
    TeamIsFree();
    assert FLOOR != TEAM && BUMP != TEAM by { assert |TEAM| == 4 && |FLOOR| == 13 && |BUMP| == 20; }
    NoModifiers(Merged(rules), rules);
    AlwaysRun(rules, NOTHING, None, Merged(rules), Merged(rules));
  }

  /** Two rules of equal weight that name different teams: the one listed first decides. */
  lemma ListOrderDecides()
    ensures var a, b := TeamRule("A", "network"), TeamRule("B", "field");
            && multiset([a, b]) == multiset([b, a]) && DistinctCodes([a, b])
            && Run([a, b], NOTHING, None).Done? && Get(Run([a, b], NOTHING, None).value.actions, TEAM) == Str("network")
            && Run([b, a], NOTHING, None).Done? && Get(Run([b, a], NOTHING, None).value.actions, TEAM) == Str("field")
  {
    hide Run, IsAlways;
    var a, b := TeamRule("A", "network"), TeamRule("B", "field");
    AlwaysIs("A", map[TEAM := Str("network")]);
    AlwaysIs("B", map[TEAM := Str("field")]);
    assert "network"[0] == 'n' && "field"[0] == 'f' && "A"[0] == 'A' && "B"[0] == 'B';
    TeamRun(a, b, "network", "field");
    TeamRun(b, a, "field", "network");
  }

  lemma AlwaysIs(code: string, actions: Object)
    ensures IsAlways(Always(code, false, false, actions))
  {
  }

  // ----------------------------------------------------- order: mitigations, compliance

  const NOTICE := "notice"

  function NoticeRule(code: string, text: string): Rule {
    Always(code, false, false, map[]).(mitigations := map[NOTICE := Str(text)])
  }

  lemma FirstNoticeStays(a: Rule, b: Rule, x: string, y: string)
    requires IsAlways(a) && IsAlways(b) && a.actions == b.actions == map[]
    requires a.mitigations == map[NOTICE := Str(x)] && b.mitigations == map[NOTICE := Str(y)] && x != ""
    requires !(a.isSuppressor && a.nonSuppressible) && !(b.isSuppressor && b.nonSuppressible)
    ensures Run([a, b], NOTHING, None).Done? && Get(Run([a, b], NOTHING, None).value.mitigations, NOTICE) == Str(x)
  {
    hide Run, IsAlways, Merged, ResolveFails, Postprocess, Mitigations, Filter;
    var rules := [a, b];
    assert rules[0] in rules && rules[1] in rules;
    ApartMerge(rules);
    NoModifiers(Merged(rules), rules);
    AlwaysRun(rules, NOTHING, None, Merged(rules), Merged(rules));
    FilterAll(Mitigates(NOTICE), rules);
    MitigationMeans(rules, NOTICE);
  }

  /** Two rules that give a mitigation different texts: the one listed first decides. */
  lemma ListOrderDecidesMitigation()
    ensures var a, b := NoticeRule("A", "hold"), NoticeRule("B", "go");
            && multiset([a, b]) == multiset([b, a]) && DistinctCodes([a, b])
            && Run([a, b], NOTHING, None).Done?
               && Get(Run([a, b], NOTHING, None).value.mitigations, NOTICE) == Str("hold")
            && Run([b, a], NOTHING, None).Done?
               && Get(Run([b, a], NOTHING, None).value.mitigations, NOTICE) == Str("go")
  {
    hide Run;
    var a, b := NoticeRule("A", "hold"), NoticeRule("B", "go");
    assert "A"[0] == 'A' && "B"[0] == 'B' && |"hold"| == 4 && |"go"| == 2;
    FirstNoticeStays(a, b, "hold", "go");
    FirstNoticeStays(b, a, "go", "hold");
  }

  function ComplianceRule(code: string, team: string): Rule { TeamRule(code, team).(family := COMPLIANCE) }

  predicate IsCompliance(r: Rule) {
    r.enabled && r.ruleStatus == "ACTIVE" && r.family == COMPLIANCE && r.familyOrder == 99 && r.weight == 50
      && r.conditions == Bool(true)
    && r.exceptions.None?
  }

  lemma ComplianceHolds(r: Rule, data: Object)
    requires IsCompliance(r)
    ensures IsActive(r) && Satisfied(r.conditions, data) == Done(true) && !MatchTest(data)(r)
            && VerdictOn(r, data) != Fails
  {
  }

  lemma AllComply(rules: seq<Rule>, data: Object)
    requires forall r :: r in rules ==> IsCompliance(r)
    ensures Matched(rules, data) == [] && !PolicyFails(rules, data)
    ensures ComplianceHits(rules, data) == rules && !ComplianceFails(rules, data)
  {
    hide IsCompliance, VerdictOn, Satisfied, Sort, Filter, IsActive, MatchTest;
    forall r | r in rules
      ensures IsActive(r) && Satisfied(r.conditions, data) == Done(true) && !MatchTest(data)(r)
              && VerdictOn(r, data) != Fails
    {
      ComplianceHolds(r, data);
    }
    assert forall r :: r in rules ==> r.family == COMPLIANCE by { ComplianceFamily(rules); }
    FilterAll(IsActive, rules);
    FilterAll((r: Rule) => r.family == COMPLIANCE, rules);
    ComplianceSorted(rules);
    SortOfSorted(rules);
    FilterNone(MatchTest(data), rules);
    FilterAll(SatisfiedTest(data), rules);
  }

  lemma ComplianceFamily(rules: seq<Rule>)
    requires forall r :: r in rules ==> IsCompliance(r)
    ensures forall r :: r in rules ==> r.family == COMPLIANCE
  {
  }

  lemma ComplianceSorted(rules: seq<Rule>)
    requires forall r :: r in rules ==> IsCompliance(r)
    ensures Sorted(rules)
  {
    forall i, j | 0 <= i < j < |rules| ensures !Before(rules[j], rules[i]) {
      assert IsCompliance(rules[i]) && IsCompliance(rules[j]);
    }
  }

  lemma NothingMatched()
    ensures !ResolveFails([]) && Merged([]) == map[] && Postprocess(map[], []) == Done(map[]) && !PlanFails([])
  {
  }

  lemma LastComplianceStays(a: Rule, b: Rule, x: string, y: string)
    requires IsCompliance(a) && IsCompliance(b) && a.actions == map[TEAM := Str(x)] && b.actions == map[TEAM := Str(y)]
    ensures Run([a, b], NOTHING, None).Done? && Get(Run([a, b], NOTHING, None).value.actions, TEAM) == Str(y)
  {
    hide IsCompliance, Matched, ComplianceHits, ComplianceFails, PolicyFails, Merged, ResolveFails, Postprocess,
         PlanFails, PlanOf, Mitigations, LogOf, Total, Filter, Rejected, Overwrite, EvaluationData;
    AllComply([a, b], EvaluationData(NOTHING));
    NothingMatched();
    assert [a, b] == [a] + [b];
    FilterAll(Writes(TEAM), [a, b]);
    LastComplianceWins(map[], [a, b], TEAM);
  }

  /** Two satisfied compliance rules of equal weight: the one listed last decides. */
  lemma ListOrderDecidesCompliance()
    ensures var a, b := ComplianceRule("A", "network"), ComplianceRule("B", "field");
            && multiset([a, b]) == multiset([b, a]) && DistinctCodes([a, b])
            && Run([a, b], NOTHING, None).Done? && Get(Run([a, b], NOTHING, None).value.actions, TEAM) == Str("field")
            && Run([b, a], NOTHING, None).Done? && Get(Run([b, a], NOTHING, None).value.actions, TEAM) == Str("network")
  {
    hide Run;
    var a, b := ComplianceRule("A", "network"), ComplianceRule("B", "field");
    assert "network"[0] == 'n' && "field"[0] == 'f' && "A"[0] == 'A' && "B"[0] == 'B';
    LastComplianceStays(a, b, "network", "field");
    LastComplianceStays(b, a, "field", "network");
  }
}
