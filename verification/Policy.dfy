/** PolicyEngine: which rules match an incident. */
module Policy {
  import opened Common
  import opened Values
  import opened Engine
  import opened Rules

  datatype Incident = Incident(payload: Object, enrichedContext: Object)

  /** Incident.as_evaluation_data */
  function EvaluationData(incident: Incident): Object {
    incident.payload["context" := Dict(incident.enrichedContext)]
  }

  datatype Verdict = Vetoed | Matches | Unmatched | Fails

  function VerdictOn(r: Rule, data: Object): Verdict {
    var vetoed := if r.exceptions.Some? then Satisfied(r.exceptions.value, data) else Done(false);
    if vetoed.Raised? then Fails
    else if vetoed.value then Vetoed
    else
      match Satisfied(r.conditions, data)
      case Raised => Fails
      case Done(ok) => if ok then Matches else Unmatched
  }

  datatype RejectedTrace = RejectedTrace(code: string, name: string, vetoed: bool)

  function MatchTest(data: Object): Rule -> bool {
    (r: Rule) => r.family != COMPLIANCE && VerdictOn(r, data) == Matches
  }

  function RejectTest(data: Object): Rule -> bool {
    (r: Rule) => r.family != COMPLIANCE && (VerdictOn(r, data) == Vetoed || VerdictOn(r, data) == Unmatched)
  }

  function Trace(data: Object): Rule -> RejectedTrace {
    (r: Rule) => RejectedTrace(r.code, r.name, VerdictOn(r, data) == Vetoed)
  }

  function Matched(rules: seq<Rule>, data: Object): seq<Rule> { Filter(MatchTest(data), ActiveRules(rules)) }

  function Rejected(rules: seq<Rule>, data: Object): seq<RejectedTrace> {
    Map(Trace(data), Filter(RejectTest(data), ActiveRules(rules)))
  }

  /** Some contesting rule's conditions or exceptions raise something other than ValueError. */
  predicate PolicyFails(rules: seq<Rule>, data: Object) {
    exists r :: r in rules && IsActive(r) && r.family != COMPLIANCE && VerdictOn(r, data) == Fails
  }

  lemma ActiveMembers(rules: seq<Rule>)
    ensures forall r :: r in ActiveRules(rules) <==> r in rules && IsActive(r)
  {
    FilterMembers(IsActive, rules);
    SortProperties(Filter(IsActive, rules));
    PermutationMembers(ActiveRules(rules), Filter(IsActive, rules));
  }

  lemma PolicyStep(active: seq<Rule>, i: nat, data: Object)
    requires i < |active|
    ensures Filter(MatchTest(data), active[..i + 1])
         == Filter(MatchTest(data), active[..i]) + (if MatchTest(data)(active[i]) then [active[i]] else [])
    ensures Map(Trace(data), Filter(RejectTest(data), active[..i + 1]))
         == Map(Trace(data), Filter(RejectTest(data), active[..i]))
            + (if RejectTest(data)(active[i]) then [Trace(data)(active[i])] else [])
  {
    FilterStep(MatchTest(data), active, i);
    FilterStep(RejectTest(data), active, i);
    var added := if RejectTest(data)(active[i]) then [active[i]] else [];
    MapAppend(Trace(data), Filter(RejectTest(data), active[..i]), added);
    assert Map(Trace(data), added) == if RejectTest(data)(active[i]) then [Trace(data)(active[i])] else [];
  }

  /** PolicyEngine.evaluate: the loop computes the two filters, in evaluation order. */
  method Evaluate(rules: seq<Rule>, data: Object)
    returns (result: Try<(seq<Rule>, seq<RejectedTrace>)>)
    ensures result == if PolicyFails(rules, data) then Raised else Done((Matched(rules, data), Rejected(rules, data)))
  {
    hide VerdictOn;
    ActiveMembers(rules);
    var active := ActiveRules(rules);
    var matched, rejected := [], [];
    for i := 0 to |active|
      invariant matched == Filter(MatchTest(data), active[..i])
      invariant rejected == Map(Trace(data), Filter(RejectTest(data), active[..i]))
      invariant forall j :: 0 <= j < i ==> active[j].family == COMPLIANCE || VerdictOn(active[j], data) != Fails
    {
      var rule := active[i];
      PolicyStep(active, i, data);
      if rule.family == COMPLIANCE { continue; }
      match VerdictOn(rule, data) {
        case Fails => assert rule in active; return Raised;
        case Vetoed => rejected := rejected + [RejectedTrace(rule.code, rule.name, true)];
        case Matches => matched := matched + [rule];
        case Unmatched => rejected := rejected + [RejectedTrace(rule.code, rule.name, false)];
      }
    }
    assert active[..|active|] == active;
    result := Done((matched, rejected));
  }

  /** Every contesting rule is either matched or rejected, never both, unless its evaluation raises. */
  lemma MatchedOrRejected(rules: seq<Rule>, data: Object, r: Rule)
    requires !PolicyFails(rules, data)
    ensures r in Matched(rules, data) <==>
            r in rules && IsActive(r) && r.family != COMPLIANCE && VerdictOn(r, data) == Matches
    ensures r in rules && IsActive(r) && r.family != COMPLIANCE ==>
            (r in Matched(rules, data) <==> r !in Filter(RejectTest(data), ActiveRules(rules)))
  {
    ActiveMembers(rules);
    FilterMembers(MatchTest(data), ActiveRules(rules));
    FilterMembers(RejectTest(data), ActiveRules(rules));
  }
}
