/** Merging an independent rule pack into another one is a conservative extension. */
module Merging {
  import opened Common
  import opened Values
  import opened Engine
  import opened Rules
  import opened Policy
  import opened Resolver
  import opened Pipeline

  /** Fields the pipeline itself reads, so a pack writing them would reach beyond its own output. */
  predicate Reserved(field: string) {
    field in PLAN_FIELDS || field == TARGET_SLA || field == RESOLUTION || field == PRIORITY || IsModifier(field)
  }

  /** Contributes nothing but its own action and mitigation fields. */
  predicate Inert(q: Rule) {
    && q.family != COMPLIANCE
    && !HasSequencing()(q)
    && Contribution(q) == 0
    && forall f :: f in q.actions ==> !Reserved(f)
  }

  predicate Apart(p: Rule, q: Rule) {
    p.code != q.code && p.actions.Keys !! q.actions.Keys && p.mitigations.Keys !! q.mitigations.Keys
  }

  ghost predicate Independent(P: seq<Rule>, Q: seq<Rule>) {
    (forall q :: q in Q ==> Inert(q)) && forall p, q :: p in P && q in Q ==> Apart(p, q)
  }

  function From(P: seq<Rule>): Rule -> bool { (r: Rule) => r in P }

  // ------------------------------------------------------------ matched rules

  lemma FromMerged(P: seq<Rule>, Q: seq<Rule>)
    requires Independent(P, Q)
    ensures Filter(From(P), P + Q) == P && Filter(From(Q), P + Q) == Q
  {
    hide Inert, Filter;
    forall p, q | p in P && q in Q ensures p.code != q.code { assert Apart(p, q); }
    FilterAppend(From(P), P, Q);
    FilterAppend(From(Q), P, Q);
    FilterAll(From(P), P);
    FilterAll(From(Q), Q);
    FilterNone(From(P), Q);
    FilterNone(From(Q), P);
  }

  /** Any per-rule selection from the merged pack's evaluation order, seen on one side. */
  lemma SelectedFrom(side: seq<Rule>, merged: seq<Rule>, test: Rule -> bool)
    requires Filter(From(side), merged) == side
    ensures Filter(From(side), Filter(test, ActiveRules(merged))) == Filter(test, ActiveRules(side))
  {
    FilterCommute(From(side), test, ActiveRules(merged));
    FilterSort(From(side), Filter(IsActive, merged));
    FilterCommute(From(side), IsActive, merged);
  }

  /** What the rest of the proof uses: `M` splits into the two packs' own match lists. */
  ghost predicate Splits(P: seq<Rule>, Q: seq<Rule>, M: seq<Rule>, MP: seq<Rule>, MQ: seq<Rule>) {
    && Independent(P, Q)
    && Filter(From(P), M) == MP && Filter(From(Q), M) == MQ
    && (forall r :: r in M ==> r in P || r in Q)
    && (forall r :: r in M <==> r in MP || r in MQ)
    && (forall r :: r in MP ==> r in P) && (forall r :: r in MQ ==> r in Q)
  }

  lemma MatchedSplits(P: seq<Rule>, Q: seq<Rule>, data: Object)
    requires Independent(P, Q)
    ensures Splits(P, Q, Matched(P + Q, data), Matched(P, data), Matched(Q, data))
  {
    hide VerdictOn, Independent, Filter;
    FromMerged(P, Q);
    SelectedFrom(P, P + Q, MatchTest(data));
    SelectedFrom(Q, P + Q, MatchTest(data));
    ActiveMembers(P + Q);
    ActiveMembers(P);
    ActiveMembers(Q);
    FilterMembers(MatchTest(data), ActiveRules(P + Q));
    FilterMembers(MatchTest(data), ActiveRules(P));
    FilterMembers(MatchTest(data), ActiveRules(Q));
  }

  lemma PolicyFailsMerged(P: seq<Rule>, Q: seq<Rule>, data: Object)
    ensures PolicyFails(P + Q, data) <==> PolicyFails(P, data) || PolicyFails(Q, data)
  {
    hide VerdictOn;
  }

  /** A selection that only picks rules of one side is that side's own selection. */
  lemma OneSide(side: seq<Rule>, M: seq<Rule>, mine: seq<Rule>, test: Rule -> bool)
    requires Filter(From(side), M) == mine
    requires forall r :: r in M && test(r) ==> r in side
    ensures Filter(test, M) == Filter(test, mine)
  {
    FilterWithin(test, From(side), M);
  }

  // ---------------------------------------------------------------- resolver

  lemma FieldsSplit(P: seq<Rule>, Q: seq<Rule>, M: seq<Rule>, MP: seq<Rule>, MQ: seq<Rule>)
    requires Splits(P, Q, M, MP, MQ)
    ensures Fields(M) == Fields(MP) + Fields(MQ) && Fields(MP) !! Fields(MQ)
    ensures forall f :: f in Fields(MQ) ==> !Reserved(f)
  {
    hide Filter, HasSequencing, Reserved;
    forall f | f in Fields(MP) ensures f !in Fields(MQ) {
      var p :| p in MP && f in p.actions;
      forall q | q in MQ ensures f !in q.actions { assert Apart(p, q); }
    }
    forall f | f in Fields(MQ) ensures !Reserved(f) {
      var q :| q in MQ && f in q.actions;
      assert Inert(q);
    }
  }

  lemma FieldResultSplits(P: seq<Rule>, Q: seq<Rule>, M: seq<Rule>, MP: seq<Rule>, MQ: seq<Rule>, f: string)
    requires Splits(P, Q, M, MP, MQ)
    ensures f in Fields(MP) ==> FieldResult(f, M) == FieldResult(f, MP)
    ensures f in Fields(MQ) ==> FieldResult(f, M) == FieldResult(f, MQ)
  {
    hide Filter, ResolveField;
    if f in Fields(MP) {
      var p :| p in MP && f in p.actions;
      forall r | r in Q ensures f !in r.actions { assert Apart(p, r); }
      OneSide(P, M, MP, Writes(f));
    }
    if f in Fields(MQ) {
      var q :| q in MQ && f in q.actions;
      forall r | r in P ensures f !in r.actions { assert Apart(r, q); }
      OneSide(Q, M, MQ, Writes(f));
    }
  }

  lemma ResolvedSplits(P: seq<Rule>, Q: seq<Rule>, M: seq<Rule>, MP: seq<Rule>, MQ: seq<Rule>)
    requires Splits(P, Q, M, MP, MQ)
    ensures ResolveFails(M) <==> ResolveFails(MP) || ResolveFails(MQ)
    ensures !ResolveFails(M) ==> Merged(M) == Merged(MP) + Merged(MQ) && LogOf(M) == LogOf(MP) + LogOf(MQ)
  {
    hide FieldResult, Fields, Splits;
    FieldsSplit(P, Q, M, MP, MQ);
    forall f { FieldResultSplits(P, Q, M, MP, MQ, f); }
  }

  lemma ModifiersSplit(P: seq<Rule>, Q: seq<Rule>, M: seq<Rule>, MP: seq<Rule>, MQ: seq<Rule>)
    requires Splits(P, Q, M, MP, MQ)
    ensures HasFloor(M) == HasFloor(MP) && TopFloor(M) == TopFloor(MP) && |Filter(Bumps(), M)| == |Filter(Bumps(), MP)|
    ensures !HasFloor(MQ) && Filter(Bumps(), MQ) == []
  {
    hide Filter, SeverityIndex;
    forall q | q in Q ensures FLOOR !in q.actions && BUMP !in q.actions {
      assert Inert(q);
      assert Reserved(FLOOR) && Reserved(BUMP);
    }
    forall i: nat ensures HasFloorAt(M, i) == HasFloorAt(MP, i) { }
    OneSide(P, M, MP, Bumps());
    FilterNone(Bumps(), MQ);
  }

  lemma PostprocessSplits(P: seq<Rule>, Q: seq<Rule>, M: seq<Rule>, MP: seq<Rule>, MQ: seq<Rule>, a: Object, b: Object)
    requires Splits(P, Q, M, MP, MQ) && PRIORITY !in b
    ensures Postprocess(a + b, M).Done? <==> Postprocess(a, MP).Done?
    ensures Postprocess(a, MP).Done? ==> Postprocess(a + b, M) == Done(Postprocess(a, MP).value + b)
    ensures Postprocess(b, MQ) == Done(b)
  {
    hide SeverityIndex, Filter, HasFloor, TopFloor, Splits, Bumped;
    ModifiersSplit(P, Q, M, MP, MQ);
    assert Get(a + b, PRIORITY) == Get(a, PRIORITY);
    assert Get(b, PRIORITY) == Null;
    if Postprocess(a, MP).Done? {
      var v := Get(Postprocess(a, MP).value, PRIORITY);
      assert (a + b)[PRIORITY := v] == a[PRIORITY := v] + b;
    }
  }

  lemma MitigationKeysSplit(P: seq<Rule>, Q: seq<Rule>, M: seq<Rule>, MP: seq<Rule>, MQ: seq<Rule>)
    requires Splits(P, Q, M, MP, MQ)
    ensures MitigationKeys(M) == MitigationKeys(MP) + MitigationKeys(MQ)
  {
    hide Filter, Independent;
  }

  lemma MitigationOfFirst(P: seq<Rule>, Q: seq<Rule>, M: seq<Rule>, MP: seq<Rule>, MQ: seq<Rule>, k: string)
    requires Splits(P, Q, M, MP, MQ) && k in MitigationKeys(MP)
    ensures k !in MitigationKeys(MQ) && MitigationValue(k, M) == MitigationValue(k, MP)
  {
    hide Filter, Mitigation, Inert;
    var p :| p in MP && k in p.mitigations;
    forall q | q in Q ensures k !in q.mitigations { assert Apart(p, q); }
    OneSide(P, M, MP, Mitigates(k));
  }

  lemma MitigationOfSecond(P: seq<Rule>, Q: seq<Rule>, M: seq<Rule>, MP: seq<Rule>, MQ: seq<Rule>, k: string)
    requires Splits(P, Q, M, MP, MQ) && k in MitigationKeys(MQ)
    ensures MitigationValue(k, M) == MitigationValue(k, MQ)
  {
    hide Filter, Mitigation, Inert;
    var q :| q in MQ && k in q.mitigations;
    forall p | p in P ensures k !in p.mitigations { assert Apart(p, q); }
    OneSide(Q, M, MQ, Mitigates(k));
  }

  lemma MitigationsSplit(P: seq<Rule>, Q: seq<Rule>, M: seq<Rule>, MP: seq<Rule>, MQ: seq<Rule>)
    requires Splits(P, Q, M, MP, MQ)
    ensures Mitigations(M) == Mitigations(MP) + Mitigations(MQ) && Mitigations(MP).Keys !! Mitigations(MQ).Keys
  {
    hide MitigationKeys, MitigationValue, Splits;
    MitigationKeysSplit(P, Q, M, MP, MQ);
    forall k | k in MitigationKeys(MP)
      ensures k !in MitigationKeys(MQ) && MitigationValue(k, M) == MitigationValue(k, MP)
    {
      MitigationOfFirst(P, Q, M, MP, MQ, k);
    }
    forall k | k in MitigationKeys(MQ) ensures MitigationValue(k, M) == MitigationValue(k, MQ) {
      MitigationOfSecond(P, Q, M, MP, MQ, k);
    }
  }

  /** The resolver on a merged match list is the two resolvers side by side. */
  lemma ResolveSplits(P: seq<Rule>, Q: seq<Rule>, M: seq<Rule>, MP: seq<Rule>, MQ: seq<Rule>)
    requires Splits(P, Q, M, MP, MQ)
    ensures Resolve(M).Done? <==> Resolve(MP).Done? && Resolve(MQ).Done?
    ensures Resolve(M).Done? ==>
              var m, p, q := Resolve(M).value, Resolve(MP).value, Resolve(MQ).value;
              && m.actions == p.actions + q.actions && m.mitigations == p.mitigations + q.mitigations
                 && m.log == p.log + q.log
              && p.mitigations.Keys !! q.mitigations.Keys
              && q.actions == Merged(MQ)
  {
    hide Postprocess, Mitigations, ResolveFails, Merged, LogOf, Splits;
    ResolvedSplits(P, Q, M, MP, MQ);
    MitigationsSplit(P, Q, M, MP, MQ);
    if !ResolveFails(M) {
      var a, b := Merged(MP), Merged(MQ);
      assert PRIORITY !in b by { MergedKeys(P, Q, M, MP, MQ); }
      PostprocessSplits(P, Q, M, MP, MQ, a, b);
    } else if !ResolveFails(MQ) {
      assert ResolveFails(MP);
    }
  }

  lemma MergedKeys(P: seq<Rule>, Q: seq<Rule>, M: seq<Rule>, MP: seq<Rule>, MQ: seq<Rule>)
    requires Splits(P, Q, M, MP, MQ) && !ResolveFails(MQ)
    ensures forall f :: f in Merged(MQ) ==> !Reserved(f) && exists q :: q in Q && f in q.actions
  {
    hide Filter, FieldResult, Reserved;
    FieldsSplit(P, Q, M, MP, MQ);
  }

  // ------------------------------------------------------- the other stages

  lemma ComplianceOf(P: seq<Rule>, Q: seq<Rule>, data: Object)
    requires forall q :: q in Q ==> q.family != COMPLIANCE
    ensures ComplianceFails(P + Q, data) == ComplianceFails(P, data) && !ComplianceFails(Q, data)
    ensures ComplianceHits(P + Q, data) == ComplianceHits(P, data) && ComplianceHits(Q, data) == []
  {
    hide Satisfied;
    var family := (r: Rule) => r.family == COMPLIANCE;
    FilterAppend(IsActive, P, Q);
    FilterAppend(family, Filter(IsActive, P), Filter(IsActive, Q));
    FilterMembers(IsActive, Q);
    FilterNone(family, Filter(IsActive, Q));
    assert ActiveFamily(P + Q, COMPLIANCE) == ActiveFamily(P, COMPLIANCE) by {
      assert Filter(family, Filter(IsActive, P)) + [] == Filter(family, Filter(IsActive, P));
    }
  }

  lemma {:induction false} OverwriteBeside(a: Object, b: Object, hits: seq<Rule>)
    requires forall r :: r in hits ==> r.actions.Keys !! b.Keys
    ensures Overwrite(a + b, hits) == Overwrite(a, hits) + b
    decreases |hits|
  {
    if hits != [] {
      assert hits[0] in hits;
      assert a + b + hits[0].actions == a + hits[0].actions + b;
      OverwriteBeside(a + hits[0].actions, b, hits[1..]);
    }
  }

  lemma FillBeside(matrix: Option<Matrix>, tier: Value, a: Object, b: Object)
    requires TARGET_SLA !in b && RESOLUTION !in b && PRIORITY !in b
    ensures FillTargets(matrix, tier, a + b).Done? <==> FillTargets(matrix, tier, a).Done?
    ensures FillTargets(matrix, tier, a).Done? ==>
            FillTargets(matrix, tier, a + b).value == FillTargets(matrix, tier, a).value + b
    ensures FillTargets(matrix, tier, b) == Done(b)
  {
    hide LookupTargets, IntText;
    assert Get(a + b, PRIORITY) == Get(a, PRIORITY) && Get(b, PRIORITY) == Null;
    if FillTargets(matrix, tier, a).Done? {
      var filled := FillTargets(matrix, tier, a).value;
      if filled != a {
        var x, y := Get(filled, TARGET_SLA), Get(filled, RESOLUTION);
        assert (a + b)[TARGET_SLA := x][RESOLUTION := y] == a[TARGET_SLA := x][RESOLUTION := y] + b;
      }
    }
    if matrix.Some? { NoPriorityNoTargets(matrix.value, tier); }
  }

  lemma NoPriorityNoTargets(matrix: Matrix, tier: Value)
    ensures LookupTargets(matrix, tier, Null) == Done(None)
  {
  }

  lemma FinalActionsSplit(P: seq<Rule>, Q: seq<Rule>, incident: Incident, matrix: Option<Matrix>, a: Object, b: Object)
    requires Independent(P, Q)
    requires forall f :: f in b ==> !Reserved(f) && exists q :: q in Q && f in q.actions
    ensures FinalActions(P + Q, incident, matrix, a + b).Done? <==> FinalActions(P, incident, matrix, a).Done?
    ensures FinalActions(P, incident, matrix, a).Done? ==>
              FinalActions(P + Q, incident, matrix, a + b) == Done(FinalActions(P, incident, matrix, a).value + b)
    ensures FinalActions(Q, incident, matrix, b) == Done(b)
  {
    hide FillTargets, ComplianceFails, ComplianceHits, HasSequencing, Overwrite, Satisfied;
    var data := EvaluationData(incident);
    assert forall q :: q in Q ==> Inert(q);
    ComplianceOf(P, Q, data);
    var hits := ComplianceHits(P, data);
    forall r | r in hits ensures r.actions.Keys !! b.Keys {
      HitsAreRules(P, data, r);
      forall f | f in b ensures f !in r.actions {
        var q :| q in Q && f in q.actions;
        assert Apart(r, q);
      }
    }
    OverwriteBeside(a, b, hits);
    OverwriteNothing(b);
    assert Reserved(TARGET_SLA) && Reserved(RESOLUTION) && Reserved(PRIORITY);
    FillBeside(matrix, Get(incident.payload, "customerTier"), Overwrite(a, hits), b);
  }

  lemma OverwriteNothing(actions: Object)
    ensures Overwrite(actions, []) == actions
  {
  }

  lemma HitsAreRules(rules: seq<Rule>, data: Object, r: Rule)
    requires r in ComplianceHits(rules, data)
    ensures r in rules
  {
    ComplianceMembers(rules);
    FilterMembers(SatisfiedTest(data), ActiveFamily(rules, COMPLIANCE));
  }

  lemma {:induction false} DirectBeside(fields: seq<string>, a: Object, b: Object, rs: seq<Rule>, order: nat)
    requires forall f :: f in fields ==> f !in b
    ensures DirectSteps(fields, a + b, rs, order) == DirectSteps(fields, a, rs, order)
    decreases |fields|
  {
    hide Inserted, Truthy;
    if fields != [] {
      assert fields[0] in fields;
      assert Get(a + b, fields[0]) == Get(a, fields[0]);
      DirectBeside(fields[1..], a, b, rs, order);
      DirectBeside(fields[1..], a, b, rs, order + 1);
    }
  }

  lemma PlanSplits(P: seq<Rule>, Q: seq<Rule>, M: seq<Rule>, MP: seq<Rule>, MQ: seq<Rule>, a: Object, b: Object)
    requires Splits(P, Q, M, MP, MQ) && forall f :: f in b ==> !Reserved(f)
    ensures PlanFails(M) == PlanFails(MP) && !PlanFails(MQ)
    ensures PlanOf(a + b, M) == PlanOf(a, MP)
  {
    hide SequencingOk, SequencedSteps, DirectSteps, Filter;
    forall q | q in Q ensures !HasSequencing()(q) { assert Inert(q); }
    OneSide(P, M, MP, HasSequencing());
    FilterNone(HasSequencing(), MQ);
    var rs := Filter(HasSequencing(), MP);
    DirectBeside(PLAN_FIELDS, a, b, rs, 1 + 2 * |rs|);
  }

  lemma {:induction false} TotalSkipsZero(keep: Rule -> bool, rs: seq<Rule>)
    requires forall r :: r in rs && !keep(r) ==> Contribution(r) == 0
    ensures Total(Filter(keep, rs)) == Total(rs)
  {
    if rs != [] {
      TotalSkipsZero(keep, rs[1..]);
      TotalAppend(if keep(rs[0]) then [rs[0]] else [], Filter(keep, rs[1..]));
    }
  }

  lemma LogCodes(field: string, ws: seq<Rule>, s: Suppression)
    requires ResolveField(field, ws).Done? && s in ResolveField(field, ws).value.log
    ensures exists r :: r in ws && r.code == s.code
  {
    hide ArgBest, MergeField, GroupFails, OneGroup, Agree, Filter;
    FilterMembers(Suppressor(), ws);
    FilterMembers(Ordinary(), ws);
  }

  lemma LogOfCodes(matched: seq<Rule>, code: string)
    requires !ResolveFails(matched) && code in SuppressedCodes(LogOf(matched))
    ensures exists r :: r in matched && r.code == code
  {
    hide ResolveField;
    var f, s :| f in LogOf(matched) && s in LogOf(matched)[f] && s.code == code;
    FilterMembers(Writes(f), matched);
    LogCodes(f, Writers(f, matched), s);
  }

  lemma RiskSplits(P: seq<Rule>, Q: seq<Rule>, M: seq<Rule>, MP: seq<Rule>, MQ: seq<Rule>, codes: set<string>,
                   more: set<string>)
    requires Splits(P, Q, M, MP, MQ)
    requires forall c :: c in more ==> exists q :: q in MQ && q.code == c
    ensures Total(Filter(Counted(codes + more), M)) == Total(Filter(Counted(codes), MP))
  {
    hide Filter, Total, Contribution;
    var counted := Filter(Counted(codes + more), M);
    FilterMembers(Counted(codes + more), M);
    forall r | r in counted && !From(P)(r) ensures Contribution(r) == 0 { assert Inert(r); }
    TotalSkipsZero(From(P), counted);
    FilterCommute(From(P), Counted(codes + more), M);
    forall p | p in MP ensures Counted(codes + more)(p) == Counted(codes)(p) {
      forall q | q in MQ ensures p.code != q.code { assert Apart(p, q); }
    }
    FilterCongruent(Counted(codes + more), Counted(codes), MP);
  }

  /** Traces of rules coded in `P`. */
  function CodedIn(P: seq<Rule>): MatchedTrace -> bool { (t: MatchedTrace) => exists p :: p in P && p.code == t.code }

  function RejectedIn(P: seq<Rule>): RejectedTrace -> bool {
    (t: RejectedTrace) => exists p :: p in P && p.code == t.code
  }

  lemma TracesSplit(P: seq<Rule>, Q: seq<Rule>, data: Object)
    requires Independent(P, Q)
    ensures Filter(CodedIn(P), Map(AsMatchedTrace(), Matched(P + Q, data))) == Map(AsMatchedTrace(), Matched(P, data))
    ensures Filter(RejectedIn(P), Rejected(P + Q, data)) == Rejected(P, data)
  {
    hide Filter, VerdictOn, Inert;
    var M, R := Matched(P + Q, data), Filter(RejectTest(data), ActiveRules(P + Q));
    ActiveMembers(P + Q);
    FilterMembers(MatchTest(data), ActiveRules(P + Q));
    FilterMembers(RejectTest(data), ActiveRules(P + Q));
    forall r | r in P + Q ensures CodedIn(P)(AsMatchedTrace()(r)) == From(P)(r) == RejectedIn(P)(Trace(data)(r)) {
      forall p | p in P && r in Q ensures p.code != r.code { assert Apart(p, r); }
    }
    FilterMap(CodedIn(P), From(P), AsMatchedTrace(), M);
    FilterMap(RejectedIn(P), From(P), Trace(data), R);
    FromMerged(P, Q);
    SelectedFrom(P, P + Q, MatchTest(data));
    SelectedFrom(P, P + Q, RejectTest(data));
  }

  // ------------------------------------------------------------- the theorem

  /** The merged decision `d` is `p` with nothing but `q`'s own output fields beside it. */
  ghost predicate Extends(P: seq<Rule>, d: Decision, p: Decision, q: Decision) {
    && d.priority == p.priority && d.riskScore == p.riskScore && d.riskBand == p.riskBand
    && d.plan == p.plan && d.constraints == p.constraints
    && d.actions == p.actions + q.actions && p.actions.Keys !! q.actions.Keys
    && d.mitigations == p.mitigations + q.mitigations && p.mitigations.Keys !! q.mitigations.Keys
    && d.suppressed == p.suppressed + q.suppressed && p.suppressed.Keys !! q.suppressed.Keys
    && Filter(CodedIn(P), d.matched) == p.matched
    && Filter(RejectedIn(P), d.rejected) == p.rejected
  }

  lemma ActionKeysApart(P: seq<Rule>, Q: seq<Rule>, incident: Incident, matrix: Option<Matrix>, a: Object, b: Object)
    requires Independent(P, Q)
    requires forall f :: f in a ==> f == PRIORITY || exists p :: p in P && f in p.actions
    requires forall f :: f in b ==> !Reserved(f) && exists q :: q in Q && f in q.actions
    requires FinalActions(P, incident, matrix, a).Done?
    ensures FinalActions(P, incident, matrix, a).value.Keys !! b.Keys
  {
    hide ComplianceHits, ComplianceFails, LookupTargets, IntText, HasSequencing, Inert;
    var hits := ComplianceHits(P, EvaluationData(incident));
    forall r | r in hits ensures r in P { HitsAreRules(P, EvaluationData(incident), r); }
    OverwriteKeys(a, hits);
    assert Reserved(TARGET_SLA) && Reserved(RESOLUTION) && Reserved(PRIORITY);
    forall f | f in FinalActions(P, incident, matrix, a).value ensures f !in b {
      if !Reserved(f) {
        var p :| p in P && f in p.actions;
        forall q | q in Q ensures f !in q.actions { assert Apart(p, q); }
      }
    }
  }

  lemma {:induction false} OverwriteKeys(a: Object, hits: seq<Rule>)
    ensures forall f :: f in Overwrite(a, hits) ==> f in a || exists r :: r in hits && f in r.actions
    decreases |hits|
  {
    if hits != [] {
      assert hits[0] in hits;
      OverwriteKeys(a + hits[0].actions, hits[1..]);
    }
  }

  lemma ResolvedKeys(rules: seq<Rule>, data: Object)
    requires Resolve(Matched(rules, data)).Done?
    ensures forall f :: f in Resolve(Matched(rules, data)).value.actions ==>
            f == PRIORITY || exists p :: p in rules && f in p.actions
  {
    hide FieldResult, SeverityIndex, VerdictOn;
    ActiveMembers(rules);
    FilterMembers(MatchTest(data), ActiveRules(rules));
  }

  lemma DecisionsExtend(P: seq<Rule>, Q: seq<Rule>, incident: Incident, matrix: Option<Matrix>)
    requires Independent(P, Q)
    requires Run(P + Q, incident, matrix).Done? && Run(P, incident, matrix).Done? && Run(Q, incident, matrix).Done?
    requires var data := EvaluationData(incident);
             var m, p, q := Resolve(Matched(P + Q, data)).value, Resolve(Matched(P, data)).value,
                 Resolve(Matched(Q, data)).value;
             && m == Resolved(p.actions + q.actions, p.mitigations + q.mitigations, p.log + q.log)
             && p.mitigations.Keys !! q.mitigations.Keys && q.actions == Merged(Matched(Q, data))
    ensures Extends(P, Run(P + Q, incident, matrix).value, Run(P, incident, matrix).value,
            Run(Q, incident, matrix).value)
  {
    hide PolicyFails, Matched, Resolve, FinalActions, PlanFails, PlanOf, Splits, Total, Filter, Rejected,
         ComplianceHits, SuppressedCodes, Independent, Merged, ResolveFails, LogOf;
    var data := EvaluationData(incident);
    var M, MP, MQ := Matched(P + Q, data), Matched(P, data), Matched(Q, data);
    var p, q := Resolve(MP).value, Resolve(MQ).value;
    MatchedSplits(P, Q, data);
    ResolvedParts(MP);
    ResolvedParts(MQ);
    MergedKeys(P, Q, M, MP, MQ);
    FinalActionsSplit(P, Q, incident, matrix, p.actions, q.actions);
    ResolvedKeys(P, data);
    ActionKeysApart(P, Q, incident, matrix, p.actions, q.actions);
    var a := FinalActions(P, incident, matrix, p.actions).value;
    PlanSplits(P, Q, M, MP, MQ, a, q.actions);
    forall c | c in SuppressedCodes(q.log) ensures exists r :: r in MQ && r.code == c { LogOfCodes(MQ, c); }
    CodesUnion(MP, MQ, P, Q, M);
    LogsApart(P, Q, M, MP, MQ);
    RiskSplits(P, Q, M, MP, MQ, SuppressedCodes(p.log), SuppressedCodes(q.log));
    TracesSplit(P, Q, data);
    InertFamilies(P, Q);
    ComplianceOf(P, Q, data);
    assert Get(a + q.actions, PRIORITY) == Get(a, PRIORITY) by { assert Reserved(PRIORITY); }
  }

  lemma InertFamilies(P: seq<Rule>, Q: seq<Rule>)
    requires Independent(P, Q)
    ensures forall q :: q in Q ==> q.family != COMPLIANCE
  {
    forall q | q in Q ensures q.family != COMPLIANCE { assert Inert(q); }
  }

  lemma ResolvedParts(matched: seq<Rule>)
    requires Resolve(matched).Done?
    ensures !ResolveFails(matched) && Resolve(matched).value.log == LogOf(matched)
  {
  }

  lemma CodesUnion(MP: seq<Rule>, MQ: seq<Rule>, P: seq<Rule>, Q: seq<Rule>, M: seq<Rule>)
    requires Splits(P, Q, M, MP, MQ) && !ResolveFails(MP) && !ResolveFails(MQ)
    ensures SuppressedCodes(LogOf(MP) + LogOf(MQ)) == SuppressedCodes(LogOf(MP)) + SuppressedCodes(LogOf(MQ))
  {
    hide FieldResult, Fields, Splits;
    FieldsSplit(P, Q, M, MP, MQ);
    var p, q := LogOf(MP), LogOf(MQ);
    forall f | f in p ensures f !in q && (p + q)[f] == p[f] { }
    forall f | f in q ensures (p + q)[f] == q[f] { }
  }

  lemma LogsApart(P: seq<Rule>, Q: seq<Rule>, M: seq<Rule>, MP: seq<Rule>, MQ: seq<Rule>)
    requires Splits(P, Q, M, MP, MQ) && !ResolveFails(MP) && !ResolveFails(MQ)
    ensures LogOf(MP).Keys !! LogOf(MQ).Keys
  {
    hide FieldResult, Fields, Splits;
    FieldsSplit(P, Q, M, MP, MQ);
  }

  /** Merging an independent pack is a conservative extension: `run` on P ++ Q raises exactly when one of the two runs
      raises, and otherwise agrees with `run` on P up to Q's own output fields. */
  lemma MergeIsConservative(P: seq<Rule>, Q: seq<Rule>, incident: Incident, matrix: Option<Matrix>)
    requires Independent(P, Q)
    ensures Run(P + Q, incident, matrix).Done? <==> Run(P, incident, matrix).Done? && Run(Q, incident, matrix).Done?
    ensures Run(P + Q, incident, matrix).Done? ==>
              Extends(P, Run(P + Q, incident, matrix).value, Run(P, incident, matrix).value,
                Run(Q, incident, matrix).value)
  {
    hide PolicyFails, Matched, Resolve, FinalActions, PlanFails, Splits, Assemble, Independent, Merged, ResolveFails,
         LogOf, Extends;
    var data := EvaluationData(incident);
    var M, MP, MQ := Matched(P + Q, data), Matched(P, data), Matched(Q, data);
    PolicyFailsMerged(P, Q, data);
    MatchedSplits(P, Q, data);
    ResolveSplits(P, Q, M, MP, MQ);
    PlanSplits(P, Q, M, MP, MQ, map[], map[]);
    if Resolve(M).Done? {
      ResolvedParts(MQ);
      MergedKeys(P, Q, M, MP, MQ);
      FinalActionsSplit(P, Q, incident, matrix, Resolve(MP).value.actions, Resolve(MQ).value.actions);
    }
    if Run(P + Q, incident, matrix).Done? {
      DecisionsExtend(P, Q, incident, matrix);
    }
  }
}
