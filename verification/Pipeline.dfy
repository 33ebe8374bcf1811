/** PipelineOrchestrator.run and the services around the conflict resolver. */
module Pipeline {
  import opened Common
  import opened Values
  import opened Engine
  import opened Rules
  import opened Policy
  import opened Resolver

  // --------------------------------------------------------------- compliance

  datatype Constraint = Constraint(code: string, name: string, applied: Object)

  function SatisfiedTest(data: Object): Rule -> bool {
    (r: Rule) => Satisfied(r.conditions, data) == Done(true)
  }

  function ComplianceHits(rules: seq<Rule>, data: Object): seq<Rule> {
    Filter(SatisfiedTest(data), ActiveFamily(rules, COMPLIANCE))
  }

  predicate ComplianceFails(rules: seq<Rule>, data: Object) {
    exists r :: r in rules && IsActive(r) && r.family == COMPLIANCE && Satisfied(r.conditions, data).Raised?
  }

  /** `actions.update(rule.actions)` for each rule in turn. */
  function Overwrite(actions: Object, rs: seq<Rule>): Object
    decreases |rs|
  {
    if rs == [] then actions else Overwrite(actions + rs[0].actions, rs[1..])
  }

  function AsConstraint(): Rule -> Constraint { (r: Rule) => Constraint(r.code, r.name, r.actions) }

  lemma {:induction false} OverwriteAppend(actions: Object, rs: seq<Rule>, r: Rule)
    ensures Overwrite(actions, rs + [r]) == Overwrite(actions, rs) + r.actions
    decreases |rs|
  {
    if rs == [] {
      assert (rs + [r])[1..] == [];
    } else {
      assert (rs + [r])[1..] == rs[1..] + [r];
      OverwriteAppend(actions + rs[0].actions, rs[1..], r);
    }
  }

  lemma ComplianceMembers(rules: seq<Rule>)
    ensures forall r :: r in ActiveFamily(rules, COMPLIANCE) <==> r in rules && IsActive(r) && r.family == COMPLIANCE
  {
    var family := (r: Rule) => r.family == COMPLIANCE;
    FilterMembers(IsActive, rules);
    FilterMembers(family, Filter(IsActive, rules));
    SortProperties(Filter(family, Filter(IsActive, rules)));
    PermutationMembers(ActiveFamily(rules, COMPLIANCE), Filter(family, Filter(IsActive, rules)));
  }

  lemma ComplianceStep(data: Object, family: seq<Rule>, i: nat, actions: Object)
    requires i < |family|
    ensures var hits := Filter(SatisfiedTest(data), family[..i]);
            var more := Filter(SatisfiedTest(data), family[..i + 1]);
            if Satisfied(family[i].conditions, data) == Done(true)
            then && Overwrite(actions, more) == Overwrite(actions, hits) + family[i].actions
                 && Map(AsConstraint(), more) == Map(AsConstraint(), hits) + [AsConstraint()(family[i])]
            else more == hits
  {
    hide Satisfied;
    var hits := Filter(SatisfiedTest(data), family[..i]);
    FilterStep(SatisfiedTest(data), family, i);
    OverwriteAppend(actions, hits, family[i]);
    MapAppend(AsConstraint(), hits, [family[i]]);
  }

  /** ComplianceApplier.apply: overwrites in evaluation order, so the last satisfied rule wins a field. */
  method ApplyCompliance(rules: seq<Rule>, data: Object, actions: Object)
    returns (result: Try<(Object, seq<Constraint>)>)
    ensures result == if ComplianceFails(rules, data) then Raised
                      else Done((Overwrite(actions, ComplianceHits(rules, data)),
                        Map(AsConstraint(), ComplianceHits(rules, data))))
  {
    hide Satisfied, Overwrite, Filter;
    ComplianceMembers(rules);
    var family := ActiveFamily(rules, COMPLIANCE);
    var final, constraints := actions, [];
    ComplianceStart(data, family, actions);
    for i := 0 to |family|
      invariant final == Overwrite(actions, Filter(SatisfiedTest(data), family[..i]))
      invariant constraints == Map(AsConstraint(), Filter(SatisfiedTest(data), family[..i]))
      invariant forall j :: 0 <= j < i ==> Satisfied(family[j].conditions, data).Done?
    {
      var rule := family[i];
      ComplianceStep(data, family, i, actions);
      match Satisfied(rule.conditions, data) {
        case Raised => assert rule in family; return Raised;
        case Done(ok) =>
          if ok {
            final := final + rule.actions;
            constraints := constraints + [Constraint(rule.code, rule.name, rule.actions)];
          }
      }
    }
    assert family[..|family|] == family;
    result := Done((final, constraints));
  }

  lemma ComplianceStart(data: Object, family: seq<Rule>, actions: Object)
    ensures Filter(SatisfiedTest(data), family[..0]) == [] && Overwrite(actions, []) == actions
  {
  }

  // --------------------------------------------------------------- SLA matrix

  datatype Targets = Targets(responseMinutes: int, resolutionMinutes: int)
  type Matrix = map<string, map<string, Targets>>

  const RESOLUTION := "slaResolutionMinutes"

  function MatrixSeverity(priority: Value): Option<string> {
    if priority == Str("Critical") then Some("SEV1_CRITICAL")
    else if priority == Str("High") then Some("SEV2_MAJOR")
    else if priority == Str("Medium") then Some("SEV3_MINOR")
    else if priority == Str("Low") then Some("SEV4_INFORMATIONAL")
    else None
  }

  /** SlaMatrixLookup.resolve; it raises on an unhashable priority and on a tier that is not a string. */
  function LookupTargets(matrix: Matrix, tier: Value, priority: Value): Try<Option<Targets>> {
    if !Truthy(tier) || !Truthy(priority) then Done(None)
    else if !Hashable(priority) then Raised
    else
      match MatrixSeverity(priority)
      case None => Done(None)
      case Some(severity) =>
        if !tier.Str? then Raised
        else
          var row := if Upper(tier.s) in matrix then matrix[Upper(tier.s)] else map[];
          Done(if severity in row then Some(row[severity]) else None)
  }

  /** The matrix only fills in a targetSLA that nothing else has set. */
  function FillTargets(matrix: Option<Matrix>, tier: Value, actions: Object): Try<Object> {
    if matrix.None? || TARGET_SLA in actions then Done(actions)
    else
      match LookupTargets(matrix.value, tier, Get(actions, PRIORITY))
      case Raised => Raised
      case Done(None) => Done(actions)
      case Done(Some(t)) =>
        var response := Str(IntText(t.responseMinutes) + " minutes");
        Done(actions[TARGET_SLA := response][RESOLUTION := Int(t.resolutionMinutes)])
  }

  // --------------------------------------------------------------------- risk

  datatype Band = LOW | MEDIUM | HIGH | CRITICAL

  const BANDS := [(30, LOW), (50, MEDIUM), (75, HIGH)]

  function Contribution(r: Rule): int { if r.contribution.Some? then r.contribution.value else 0 }

  function Counted(suppressedCodes: set<string>): Rule -> bool { (r: Rule) => r.code !in suppressedCodes }

  function Total(rs: seq<Rule>): int { if rs == [] then 0 else Contribution(rs[0]) + Total(rs[1..]) }

  function Clamp(total: int): int { if total < 0 then 0 else Min(total, 120) }

  function BandOf(score: int): Band {
    if score <= 30 then LOW else if score <= 50 then MEDIUM else if score <= 75 then HIGH else CRITICAL
  }

  lemma {:induction false} TotalAppend(s: seq<Rule>, t: seq<Rule>)
    ensures Total(s + t) == Total(s) + Total(t)
  {
    if s == [] {
      assert s + t == t;
    } else {
      assert (s + t)[1..] == s[1..] + t;
      TotalAppend(s[1..], t);
    }
  }

  /** RiskScorer.score */
  method Score(matched: seq<Rule>, suppressedCodes: set<string>) returns (score: int, band: Band)
    ensures score == Clamp(Total(Filter(Counted(suppressedCodes), matched))) && band == BandOf(score)
  {
    var total := 0;
    for i := 0 to |matched|
      invariant total == Total(Filter(Counted(suppressedCodes), matched[..i]))
    {
      FilterStep(Counted(suppressedCodes), matched, i);
      assert Filter(Counted(suppressedCodes), matched[..i]) + [] == Filter(Counted(suppressedCodes), matched[..i]);
      assert [matched[i]][1..] == [];
      if matched[i].code in suppressedCodes { continue; }
      TotalAppend(Filter(Counted(suppressedCodes), matched[..i]), [matched[i]]);
      if matched[i].contribution.Some? && matched[i].contribution.value != 0 {
        total := total + matched[i].contribution.value;
      }
    }
    assert matched[..|matched|] == matched;
    score := if total < 120 then total else 120;
    score := if score > 0 then score else 0;
    assert BANDS[0] == (30, LOW) && BANDS[1] == (50, MEDIUM) && BANDS[2] == (75, HIGH);
    band := CRITICAL;
    for i := 0 to |BANDS|
      invariant forall j :: 0 <= j < i ==> score > BANDS[j].0
    {
      if score <= BANDS[i].0 { return score, BANDS[i].1; }
    }
  }

  // --------------------------------------------------------------------- plan

  datatype Step =
    | Sequenced(order: nat, action: Value, source: string, fallback: Option<(Value, Value)>)
    | Direct(order: nat, field: string)

  const PLAN_FIELDS := ["autoRemediate", "rerouteTraffic", "dispatchEngineer", "customerNotification", "notifyNOC"]

  function HasSequencing(): Rule -> bool {
    (r: Rule) => r.sequencing.Some? && r.sequencing.value != map[]
  }

  /** `seq["tryFirst"]` and `seq["fallbackTo"]` exist and can be put in a set. */
  predicate SequencingOk(r: Rule) {
    && r.sequencing.Some?
    && "tryFirst" in r.sequencing.value && Hashable(r.sequencing.value["tryFirst"])
    && "fallbackTo" in r.sequencing.value && Hashable(r.sequencing.value["fallbackTo"])
  }

  function TryFirst(r: Rule): Value { if r.sequencing.Some? then Get(r.sequencing.value, "tryFirst") else Null }

  function FallbackTo(r: Rule): Value { if r.sequencing.Some? then Get(r.sequencing.value, "fallbackTo") else Null }

  function FallbackAfter(r: Rule): Value {
    if r.sequencing.Some? && "fallbackAfterMinutes" in r.sequencing.value
    then r.sequencing.value["fallbackAfterMinutes"] else Str("?")
  }

  /** Two steps a rule, numbered from `order`. */
  function SequencedSteps(rs: seq<Rule>, order: nat): seq<Step> {
    if rs == [] then []
    else [Sequenced(order, TryFirst(rs[0]), rs[0].code, None),
          Sequenced(order + 1, FallbackTo(rs[0]), rs[0].code, Some((TryFirst(rs[0]), FallbackAfter(rs[0]))))]
         + SequencedSteps(rs[1..], order + 2)
  }

  predicate Inserted(rs: seq<Rule>, field: string) {
    exists r :: r in rs && (TryFirst(r) == Str(field) || FallbackTo(r) == Str(field))
  }

  function DirectSteps(fields: seq<string>, actions: Object, rs: seq<Rule>, order: nat): seq<Step>
    decreases |fields|
  {
    if fields == [] then []
    else if Truthy(Get(actions, fields[0])) && !Inserted(rs, fields[0])
    then [Direct(order, fields[0])] + DirectSteps(fields[1..], actions, rs, order + 1)
    else DirectSteps(fields[1..], actions, rs, order)
  }

  predicate PlanFails(matched: seq<Rule>) { exists r :: r in Filter(HasSequencing(), matched) && !SequencingOk(r) }

  function PlanOf(actions: Object, matched: seq<Rule>): seq<Step> {
    var rs := Filter(HasSequencing(), matched);
    SequencedSteps(rs, 1) + DirectSteps(PLAN_FIELDS, actions, rs, 1 + 2 * |rs|)
  }

  lemma {:induction false} SequencedAppend(rs: seq<Rule>, r: Rule, order: nat)
    ensures SequencedSteps(rs + [r], order) == SequencedSteps(rs, order) + SequencedSteps([r], order + 2 * |rs|)
  {
    if rs == [] {
      assert rs + [r] == [r];
    } else {
      assert (rs + [r])[1..] == rs[1..] + [r];
      SequencedAppend(rs[1..], r, order + 2);
    }
  }

  /** The sequencing loop of `build`. */
  method PlanSequenced(rs: seq<Rule>) returns (result: Try<(seq<Step>, set<Value>)>)
    ensures result.Raised? <==> exists r :: r in rs && !SequencingOk(r)
    ensures result.Done? ==> result.value.0 == SequencedSteps(rs, 1) && |result.value.0| == 2 * |rs|
    ensures result.Done? ==> forall f :: Str(f) in result.value.1 <==> Inserted(rs, f)
  {
    hide SequencingOk, TryFirst, FallbackTo, FallbackAfter;
    var plan, order, inserted := [], 1, {};
    for i := 0 to |rs|
      invariant plan == SequencedSteps(rs[..i], 1) && order == 1 + 2 * i == 1 + |plan|
      invariant forall v :: v in inserted <==>
                exists j :: 0 <= j < i && (TryFirst(rs[j]) == v || FallbackTo(rs[j]) == v)
      invariant forall j :: 0 <= j < i ==> SequencingOk(rs[j])
    {
      var rule := rs[i];
      if !SequencingOk(rule) { return Raised; }
      SequencedAppend(rs[..i], rule, 1);
      assert rs[..i + 1] == rs[..i] + [rule];
      OneSequenced(rule, order);
      plan := plan + [Sequenced(order, TryFirst(rule), rule.code, None),
                      Sequenced(order + 1, FallbackTo(rule), rule.code, Some((TryFirst(rule), FallbackAfter(rule))))];
      order := order + 2;
      inserted := inserted + {TryFirst(rule), FallbackTo(rule)};
    }
    assert rs[..|rs|] == rs;
    result := Done((plan, inserted));
  }

  lemma OneSequenced(r: Rule, order: nat)
    ensures SequencedSteps([r], order) ==
      [Sequenced(order, TryFirst(r), r.code, None),
       Sequenced(order + 1, FallbackTo(r), r.code, Some((TryFirst(r), FallbackAfter(r))))]
  {
    assert [r][1..] == [];
  }

  /** The base-precedence loop of `build`. */
  method PlanDirect(fields: seq<string>, actions: Object, ghost rs: seq<Rule>, inserted: set<Value>, start: nat)
    returns (steps: seq<Step>)
    requires forall f :: Str(f) in inserted <==> Inserted(rs, f)
    ensures steps == DirectSteps(fields, actions, rs, start)
  {
    hide Inserted, Truthy;
    steps := [];
    var order := start;
    for i := 0 to |fields|
      invariant DirectSteps(fields, actions, rs, start) == steps + DirectSteps(fields[i..], actions, rs, order)
    {
      assert fields[i..][1..] == fields[i + 1..];
      if Truthy(Get(actions, fields[i])) && Str(fields[i]) !in inserted {
        steps := steps + [Direct(order, fields[i])];
        order := order + 1;
      }
    }
    assert steps + [] == steps;
  }

  /** ExecutionPlanBuilder.build */
  method BuildPlan(actions: Object, matched: seq<Rule>) returns (result: Try<seq<Step>>)
    ensures result == if PlanFails(matched) then Raised else Done(PlanOf(actions, matched))
  {
    hide Inserted, SequencingOk, SequencedSteps, DirectSteps;
    var rs := Filter(HasSequencing(), matched);
    var sequenced := PlanSequenced(rs);
    if sequenced.Raised? { return Raised; }
    var direct := PlanDirect(PLAN_FIELDS, actions, rs, sequenced.value.1, 1 + |sequenced.value.0|);
    result := Done(sequenced.value.0 + direct);
  }

  // ---------------------------------------------------------------------- run

  datatype MatchedTrace = MatchedTrace(
    code: string, name: string, family: string, weight: int, severityBand: Option<string>, contribution: Option<int>)

  datatype Decision = Decision(
    priority: Value,
    riskScore: int,
    riskBand: Band,
    actions: Object,
    mitigations: Object,
    plan: seq<Step>,
    matched: seq<MatchedTrace>,
    rejected: seq<RejectedTrace>,
    suppressed: map<string, seq<Suppression>>,
    constraints: seq<Constraint>)

  function AsMatchedTrace(): Rule -> MatchedTrace {
    (r: Rule) => MatchedTrace(r.code, r.name, r.family, r.weight, r.severityBand, r.contribution)
  }

  function SuppressedCodes(log: map<string, seq<Suppression>>): set<string> {
    set f, s | f in log && s in log[f] :: s.code
  }

  /** The actions a decision ends up with: resolved, overwritten by compliance, target filled in. */
  function FinalActions(rules: seq<Rule>, incident: Incident, matrix: Option<Matrix>, resolved: Object): Try<Object> {
    var data := EvaluationData(incident);
    if ComplianceFails(rules, data) then Raised
    else FillTargets(matrix, Get(incident.payload, "customerTier"), Overwrite(resolved, ComplianceHits(rules, data)))
  }

  function Assemble(rules: seq<Rule>, data: Object, resolved: Resolved, actions: Object): Decision {
    var matched := Matched(rules, data);
    var score := Clamp(Total(Filter(Counted(SuppressedCodes(resolved.log)), matched)));
    Decision(
      Get(actions, PRIORITY), score, BandOf(score), actions, resolved.mitigations, PlanOf(actions, matched),
      Map(AsMatchedTrace(), matched), Rejected(rules, data), resolved.log,
        Map(AsConstraint(), ComplianceHits(rules, data)))
  }

  /** PipelineOrchestrator.run; Raised when any stage lets an exception escape. */
  function Run(rules: seq<Rule>, incident: Incident, matrix: Option<Matrix>): Try<Decision> {
    var data := EvaluationData(incident);
    if PolicyFails(rules, data) then Raised
    else
      match Resolve(Matched(rules, data))
      case Raised => Raised
      case Done(resolved) =>
        match FinalActions(rules, incident, matrix, resolved.actions)
        case Raised => Raised
        case Done(actions) =>
          if PlanFails(Matched(rules, data)) then Raised else Done(Assemble(rules, data, resolved, actions))
  }

  lemma GroupedLog(log: map<string, seq<Suppression>>, suppressed: seq<Suppression>)
    requires forall f :: f in log ==> log[f] != []
    requires forall f :: Filter(ForField(f), suppressed) == if f in log then log[f] else []
    ensures log == map f | f in (set s | s in suppressed :: s.field) :: Filter(ForField(f), suppressed)
    ensures SuppressedCodes(log) == set s | s in suppressed :: s.code
  {
    hide Filter;
    forall f ensures f in log <==> exists s :: s in suppressed && s.field == f {
      FilterMembers(ForField(f), suppressed);
      if f in log { assert log[f][0] in Filter(ForField(f), suppressed); }
    }
    forall c ensures c in SuppressedCodes(log) <==> exists s :: s in suppressed && s.code == c {
      if s :| s in suppressed && s.code == c {
        FilterMembers(ForField(s.field), suppressed);
        assert s in Filter(ForField(s.field), suppressed);
      }
      if f, s :| f in log && s in log[f] && s.code == c {
        FilterMembers(ForField(f), suppressed);
      }
    }
  }

  lemma LogNonempty(matched: seq<Rule>)
    requires Resolve(matched).Done?
    ensures forall f :: f in Resolve(matched).value.log ==> Resolve(matched).value.log[f] != []
  {
  }

  /** PipelineOrchestrator.run, stage by stage; the second result is the suppression log as one list. */
  method RunPipeline(rules: seq<Rule>, incident: Incident, matrix: Option<Matrix>)
    returns (result: Try<Decision>, suppressed: seq<Suppression>)
    ensures result == Run(rules, incident, matrix)
    ensures result.Done? ==>
              forall f :: Filter(ForField(f), suppressed) ==
                          if f in result.value.suppressed then result.value.suppressed[f] else []
  {
    hide PolicyFails, Matched, Rejected, Resolve, ComplianceFails, ComplianceHits, Overwrite, FillTargets, PlanFails,
         PlanOf, SuppressedCodes, EvaluationData, Total;
    suppressed := [];
    var data := EvaluationData(incident);
    var policy := Evaluate(rules, data);
    if policy.Raised? { return Raised, []; }
    var (matched, rejected) := policy.value;
    var resolved := ResolveMatched(matched);
    if resolved.Raised? { return Raised, []; }
    var (actions, mitigations, log) := resolved.value;
    ghost var spec := Resolve(matched).value;
    var compliant := ApplyCompliance(rules, data, actions);
    if compliant.Raised? { return Raised, []; }
    var filled := FillTargets(matrix, Get(incident.payload, "customerTier"), compliant.value.0);
    if filled.Raised? { return Raised, []; }
    var codes := set s | s in log :: s.code;
    LogNonempty(matched);
    GroupedLog(spec.log, log);
    var score, band := Score(matched, codes);
    var plan := BuildPlan(filled.value, matched);
    if plan.Raised? { return Raised, []; }
    var grouped := map f | f in (set s | s in log :: s.field) :: Filter(ForField(f), log);
    suppressed := log;
    assert FinalActions(rules, incident, matrix, spec.actions) == Done(filled.value);
    assert grouped == spec.log;
    assert codes == SuppressedCodes(spec.log);
    assert score == Clamp(Total(Filter(Counted(SuppressedCodes(spec.log)), matched)));
    result := Done(Decision(
      Get(filled.value, PRIORITY), score, band, filled.value, mitigations, plan.value,
      Map(AsMatchedTrace(), matched), rejected, grouped, compliant.value.1));
  }
}
