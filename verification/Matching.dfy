/** Which rules match, said over a rule's own fields and what its trees evaluate to. */
module MatchingTheorems {
  import opened Common
  import opened Values
  import opened Engine
  import opened EngineLaws
  import opened OperatorTheorems
  import opened Rules
  import opened Policy
  import opened Pipeline

  /** The tree evaluates to something that counts as true. */
  predicate Fires(tree: Value, data: Object) { Eval(tree, data).Val? && CountsAsTrue(Eval(tree, data).value) }

  /** Evaluating the tree raises something other than ValueError. */
  predicate Breaks(tree: Value, data: Object) { Eval(tree, data).OtherErr? }

  predicate InForce(r: Rule) { r.enabled && r.ruleStatus == "ACTIVE" }

  predicate Contests(r: Rule) { InForce(r) && r.family != "COMPLIANCE" }

  predicate Vetoed(r: Rule, data: Object) { r.exceptions.Some? && Fires(r.exceptions.value, data) }

  /** Exceptions are evaluated first, and conditions only if those do not veto. */
  predicate Fails(r: Rule, data: Object) {
    (r.exceptions.Some? && Breaks(r.exceptions.value, data)) || (!Vetoed(r, data) && Breaks(r.conditions, data))
  }

  lemma SatisfiedFires(tree: Value, data: Object)
    ensures Satisfied(tree, data).Raised? <==> Breaks(tree, data)
    ensures Satisfied(tree, data) == Done(true) <==> Fires(tree, data)
  {
    hide Eval, CountsAsTrue, Truthy;
    if Eval(tree, data).Val? { TruthyCounts(Eval(tree, data).value); }
  }

  lemma VerdictIs(r: Rule, data: Object)
    ensures VerdictOn(r, data) == Verdict.Fails <==> Fails(r, data)
    ensures VerdictOn(r, data) == Verdict.Vetoed <==> Vetoed(r, data)
    ensures VerdictOn(r, data) == Matches <==> !Fails(r, data) && !Vetoed(r, data) && Fires(r.conditions, data)
  {
    hide Satisfied, Eval, CountsAsTrue;
    SatisfiedFires(r.conditions, data);
    if r.exceptions.Some? { SatisfiedFires(r.exceptions.value, data); }
    FiresOrBreaks(r.conditions, data);
    if r.exceptions.Some? { FiresOrBreaks(r.exceptions.value, data); }
  }

  lemma FiresOrBreaks(tree: Value, data: Object)
    ensures !(Fires(tree, data) && Breaks(tree, data))
  {
  }

  /** The policy pass raises exactly when some contesting rule's exceptions break, or its conditions do and the
      exceptions do not veto. */
  lemma PolicyFailsExactly(rules: seq<Rule>, data: Object)
    ensures PolicyFails(rules, data) <==> exists r :: r in rules && Contests(r) && Fails(r, data)
  {
    hide VerdictOn, Fails, Vetoed, Fires;
    forall r ensures VerdictOn(r, data) == Verdict.Fails <==> Fails(r, data) { VerdictIs(r, data); }
  }

  /** A rule matches exactly when it is in the pack, in force and not a compliance rule, none of its trees breaks, its
      exceptions are absent or do not fire, and its conditions fire. */
  lemma MatchedExactly(rules: seq<Rule>, data: Object, r: Rule)
    ensures r in Matched(rules, data) <==>
            r in rules && Contests(r) && !Fails(r, data) && !Vetoed(r, data) && Fires(r.conditions, data)
  {
    hide VerdictOn, Fails, Vetoed, Fires, Filter, Sort;
    ActiveMembers(rules);
    FilterMembers(MatchTest(data), ActiveRules(rules));
    VerdictIs(r, data);
  }

  lemma VetoDoesNotBreak(r: Rule, data: Object)
    ensures Vetoed(r, data) ==> r.exceptions.Some? && !Breaks(r.exceptions.value, data)
  {
  }

  /** The rule is rejected: it does not fail, and is vetoed or not satisfied. */
  predicate TurnedAway(r: Rule, data: Object) {
    Contests(r) && !Fails(r, data) && (Vetoed(r, data) || !Fires(r.conditions, data))
  }

  lemma RejectsTurnedAway(r: Rule, data: Object)
    ensures IsActive(r) && RejectTest(data)(r) <==> TurnedAway(r, data)
    ensures Trace(data)(r) == RejectedTrace(r.code, r.name, Vetoed(r, data))
  {
    hide VerdictOn, Fails, Vetoed, Fires;
    VerdictIs(r, data);
    VetoDoesNotBreak(r, data);
  }

  lemma MapHas<T(!new), U(!new)>(f: T -> U, s: seq<T>, y: U)
    ensures y in Map(f, s) <==> exists x :: x in s && y == f(x)
  {
    if y in Map(f, s) {
      var i :| 0 <= i < |s| && Map(f, s)[i] == y;
      assert s[i] in s;
    }
    if x :| x in s && y == f(x) {
      var i :| 0 <= i < |s| && s[i] == x;
      assert Map(f, s)[i] == y;
    }
  }

  /** A contesting rule that does not break is traced as rejected exactly when it does not match: as vetoed when its
      exceptions fire, otherwise as not satisfied. */
  lemma RejectedExactly(rules: seq<Rule>, data: Object, t: RejectedTrace)
    ensures t in Rejected(rules, data) <==>
            exists r :: r in rules && TurnedAway(r, data) && t == RejectedTrace(r.code, r.name, Vetoed(r, data))
  {
    hide RejectTest, Trace, TurnedAway, Vetoed, Filter, Sort, IsActive;
    ActiveMembers(rules);
    FilterMembers(RejectTest(data), ActiveRules(rules));
    MapHas(Trace(data), Filter(RejectTest(data), ActiveRules(rules)), t);
    forall r ensures (IsActive(r) && RejectTest(data)(r) <==> TurnedAway(r, data))
                     && Trace(data)(r) == RejectedTrace(r.code, r.name, Vetoed(r, data))
    {
      RejectsTurnedAway(r, data);
    }
  }

  /** The compliance rules that apply: those in force whose conditions fire; their exceptions are never asked. */
  lemma ComplianceHitsExactly(rules: seq<Rule>, data: Object, r: Rule)
    ensures r in ComplianceHits(rules, data) <==>
            r in rules && InForce(r) && r.family == "COMPLIANCE" && Fires(r.conditions, data)
    ensures ComplianceFails(rules, data) <==>
            exists x :: x in rules && InForce(x) && x.family == "COMPLIANCE" && Breaks(x.conditions, data)
  {
    hide Satisfied, Fires, Breaks, Filter, Sort;
    ComplianceMembers(rules);
    FilterMembers(SatisfiedTest(data), ActiveFamily(rules, COMPLIANCE));
    SatisfiedFires(r.conditions, data);
    forall x: Rule ensures Satisfied(x.conditions, data).Raised? <==> Breaks(x.conditions, data) {
      SatisfiedFires(x.conditions, data);
    }
  }

  // --------------------------------------------------------- evaluation order

  /** Earlier families first; within one order the heavier rules first. */
  ghost predicate InEvaluationOrder(s: seq<Rule>) {
    forall i, j :: 0 <= i < j < |s| ==> NotAfter(s[i], s[j])
  }

  predicate NotAfter(a: Rule, b: Rule) {
    a.familyOrder < b.familyOrder || (a.familyOrder == b.familyOrder && a.weight >= b.weight)
  }

  lemma SortedIsInOrder(s: seq<Rule>)
    requires Sorted(s)
    ensures InEvaluationOrder(s)
  {
  }

  /** Rules are evaluated in that order, and match in it; compliance rules too apply in it. */
  lemma EvaluationOrder(rules: seq<Rule>, data: Object)
    ensures InEvaluationOrder(ActiveRules(rules)) && InEvaluationOrder(Matched(rules, data))
    ensures InEvaluationOrder(ComplianceHits(rules, data))
  {
    hide Sort, Filter, MatchTest, SatisfiedTest;
    var family := (r: Rule) => r.family == COMPLIANCE;
    SortProperties(Filter(IsActive, rules));
    SortProperties(Filter(family, Filter(IsActive, rules)));
    SortedIsInOrder(ActiveRules(rules));
    SortedIsInOrder(ActiveFamily(rules, COMPLIANCE));
    FilterKeepsOrder(MatchTest(data), ActiveRules(rules));
    FilterKeepsOrder(SatisfiedTest(data), ActiveFamily(rules, COMPLIANCE));
  }

  lemma {:induction false} FilterKeepsOrder(test: Rule -> bool, s: seq<Rule>)
    requires InEvaluationOrder(s)
    ensures InEvaluationOrder(Filter(test, s))
  {
    hide NotAfter;
    if s != [] {
      FilterKeepsOrder(test, s[1..]);
      FilterMembers(test, s[1..]);
      var rest := Filter(test, s[1..]);
      forall j | 0 <= j < |rest| ensures NotAfter(s[0], rest[j]) {
        assert rest[j] in rest;
        var k :| 0 <= k < |s[1..]| && s[1..][k] == rest[j];
        assert s[k + 1] == rest[j];
      }
    }
  }

  // --------------------------------------------------------------------- data

  /** Trees read the payload by its own names, but `context`, and below that the enriched context. */
  lemma DataReads(incident: Incident, name: string)
    requires DotFree(name) && name != ""
    ensures name != "context" ==>
              Eval(Var(name), EvaluationData(incident)) ==
              Val(if name in incident.payload then incident.payload[name] else Null)
    ensures Eval(Var("context." + name), EvaluationData(incident)) ==
            Val(if name in incident.enrichedContext then incident.enrichedContext[name] else Null)
  {
    hide Eval;
    var data := EvaluationData(incident);
    VariablesRead([], name, data);
    VariablesRead([], "context", data);
    assert Join(["context"]) == "context";
    VariablesRead(["context"], name, data);
    assert "context" + "." + name == "context." + name;
  }
}
