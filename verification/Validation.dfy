/** ValidateRulePackUseCase: the publish gate. */
module Validation {
  import opened Common
  import opened Engine
  import opened Rules

  datatype Problem =
    | NoRules
    | MalformedConditions(code: string)
    | UnknownConflict(code: string, other: string)
    | UnresolvedConflict(code: string, other: string)

  /** `by_code[code]`: of rules sharing a code, the last one. */
  function ByCode(rules: seq<Rule>, code: string): Option<Rule> {
    if rules == [] then None
    else if rules[|rules| - 1].code == code then Some(rules[|rules| - 1])
    else ByCode(rules[..|rules| - 1], code)
  }

  predicate Exempt(r: Rule) { r.nonSuppressible || r.isSuppressor }

  /** Declared in conflict, one conflict group, and nothing to decide between the two but weights. */
  predicate Unresolved(r: Rule, other: Rule) {
    r.conflictGroup.Some? && r.conflictGroup.value != "" && other.conflictGroup == r.conflictGroup && !Exempt(r)
      && !Exempt(other)
  }

  predicate Resolvable(rules: seq<Rule>, r: Rule, code: string) {
    ByCode(rules, code).Some? && !Unresolved(r, ByCode(rules, code).value)
  }

  predicate SoundRule(rules: seq<Rule>, r: Rule) {
    Specificity(r.conditions).Some? && forall c :: c in r.conflictsWith ==> Resolvable(rules, r, c)
  }

  /** What a published pack is promised to satisfy. */
  predicate ValidRules(rules: seq<Rule>) {
    rules != [] && forall r :: r in rules ==> SoundRule(rules, r)
  }

  /** The rule the code stands for: of those that have it, the last. */
  predicate StandsFor(rules: seq<Rule>, i: int, code: string) {
    0 <= i < |rules| && rules[i].code == code && forall j :: i < j < |rules| ==> rules[j].code != code
  }

  lemma {:induction false} ByCodeStandsFor(rules: seq<Rule>, code: string)
    ensures forall i :: StandsFor(rules, i, code) ==> ByCode(rules, code) == Some(rules[i])
    ensures ByCode(rules, code).Some? ==> exists i :: StandsFor(rules, i, code) && ByCode(rules, code).value == rules[i]
  {
    if rules != [] {
      var last := |rules| - 1;
      if rules[last].code == code {
        assert StandsFor(rules, last, code);
      } else {
        ByCodeStandsFor(rules[..last], code);
        forall i ensures StandsFor(rules, i, code) <==> StandsFor(rules[..last], i, code) { }
      }
    }
  }

  /** Whether two rules of one named group are left to weights: neither suppresses and neither is a shield. */
  predicate LeftToWeights(r: Rule, o: Rule) {
    && r.conflictGroup.Some? && r.conflictGroup.value != "" && o.conflictGroup == r.conflictGroup
    && !r.nonSuppressible && !r.isSuppressor && !o.nonSuppressible && !o.isSuppressor
  }

  /** Rules are valid exactly when there are some, the leaves of all conditions can be counted, and every declared
      conflict is with a rule there is that is not left to weights. */
  lemma ValidExactly(rules: seq<Rule>)
    ensures ValidRules(rules) <==>
            && rules != [] && (forall r :: r in rules ==> Specificity(r.conditions).Some?)
            && forall r, c :: r in rules && c in r.conflictsWith ==>
               exists i :: StandsFor(rules, i, c) && !LeftToWeights(r, rules[i])
  {
    hide Specificity, ByCode;
    forall r, c | r in rules && c in r.conflictsWith
      ensures Resolvable(rules, r, c) <==> exists i :: StandsFor(rules, i, c) && !LeftToWeights(r, rules[i])
    {
      ResolvableExactly(rules, r, c);
    }
  }

  lemma ResolvableExactly(rules: seq<Rule>, r: Rule, code: string)
    ensures Resolvable(rules, r, code) <==> exists i :: StandsFor(rules, i, code) && !LeftToWeights(r, rules[i])
  {
    hide ByCode;
    ByCodeStandsFor(rules, code);
  }

  /** A reported problem is one the rules have. */
  predicate Justified(rules: seq<Rule>, p: Problem) {
    match p
    case NoRules => rules == []
    case MalformedConditions(code) => exists r :: r in rules && r.code == code && Specificity(r.conditions).None?
    case UnknownConflict(code, other) =>
      ByCode(rules, other).None? && exists r :: r in rules && r.code == code && other in r.conflictsWith
    case UnresolvedConflict(code, other) =>
      ByCode(rules, other).Some? &&
      exists r :: r in rules && r.code == code && other in r.conflictsWith && Unresolved(r, ByCode(rules, other).value)
  }

  /** A problem with one declared conflict of one rule. */
  predicate ConflictProblem(rules: seq<Rule>, rule: Rule, other: string, p: Problem) {
    || (ByCode(rules, other).None? && p == UnknownConflict(rule.code, other))
    || (ByCode(rules, other).Some? && Unresolved(rule, ByCode(rules, other).value)
       && p == UnresolvedConflict(rule.code, other))
  }

  predicate RuleProblem(rules: seq<Rule>, rule: Rule, p: Problem) {
    || (Specificity(rule.conditions).None? && p == MalformedConditions(rule.code))
    || exists c :: c in rule.conflictsWith && ConflictProblem(rules, rule, c, p)
  }

  /** The problems of the rules are those of each rule, and having none of any. */
  lemma JustifiedByRules(rules: seq<Rule>, p: Problem)
    ensures Justified(rules, p) <==> (rules == [] && p == NoRules) || exists r :: r in rules && RuleProblem(rules, r, p)
  {
    hide ByCode, Specificity, Unresolved;
    if Justified(rules, p) && p != NoRules {
      match p {
        case MalformedConditions(code) =>
          var r :| r in rules && r.code == code && Specificity(r.conditions).None?;
          assert RuleProblem(rules, r, p);
        case UnknownConflict(code, other) =>
          var r :| r in rules && r.code == code && other in r.conflictsWith;
          assert ConflictProblem(rules, r, other, p);
          assert RuleProblem(rules, r, p);
        case UnresolvedConflict(code, other) =>
          var r :| r in rules && r.code == code && other in r.conflictsWith
              && Unresolved(r, ByCode(rules, other).value);
          assert ConflictProblem(rules, r, other, p);
          assert RuleProblem(rules, r, p);
      }
    }
  }

  /** Rules are valid exactly when they have no problem. */
  lemma ValidMeansNoProblem(rules: seq<Rule>)
    ensures ValidRules(rules) <==> forall p :: !Justified(rules, p)
  {
    hide ByCode, Specificity, Unresolved, Justified;
    if rules == [] { JustifiedByRules(rules, NoRules); }
    if ValidRules(rules) {
      forall p ensures !Justified(rules, p) {
        JustifiedByRules(rules, p);
        forall r | r in rules ensures !RuleProblem(rules, r, p) { assert SoundRule(rules, r); }
      }
    } else if rules != [] {
      var r :| r in rules && !SoundRule(rules, r);
      if Specificity(r.conditions).None? {
        JustifiedByRules(rules, MalformedConditions(r.code));
        assert RuleProblem(rules, r, MalformedConditions(r.code));
      } else {
        var c :| c in r.conflictsWith && !Resolvable(rules, r, c);
        var p := if ByCode(rules, c).None? then UnknownConflict(r.code, c) else UnresolvedConflict(r.code, c);
        assert ConflictProblem(rules, r, c, p);
        assert RuleProblem(rules, r, p);
        JustifiedByRules(rules, p);
      }
    }
  }

  /** The inner loop: all problems with one rule's declared conflicts. */
  method CheckConflicts(rules: seq<Rule>, rule: Rule) returns (problems: seq<Problem>)
    ensures forall p :: p in problems <==> exists c :: c in rule.conflictsWith && ConflictProblem(rules, rule, c, p)
  {
    hide ByCode, Unresolved;
    problems := [];
    for i := 0 to |rule.conflictsWith|
      invariant forall p :: p in problems <==>
                exists j :: 0 <= j < i && ConflictProblem(rules, rule, rule.conflictsWith[j], p)
    {
      var other := rule.conflictsWith[i];
      match ByCode(rules, other) {
        case None => problems := problems + [UnknownConflict(rule.code, other)];
        case Some(found) =>
          if Unresolved(rule, found) { problems := problems + [UnresolvedConflict(rule.code, other)]; }
      }
    }
  }

  /** ValidateRulePackUseCase.execute: reports exactly the problems the rules have, and so none for valid rules. */
  method Validate(rules: seq<Rule>) returns (problems: seq<Problem>)
    ensures forall p :: p in problems <==> Justified(rules, p)
    ensures problems == [] <==> ValidRules(rules)
  {
    hide ConflictProblem, Specificity, Justified, ValidRules;
    problems := if rules == [] then [NoRules] else [];
    for i := 0 to |rules|
      invariant forall p :: p in problems <==>
                (rules == [] && p == NoRules) || exists j :: 0 <= j < i && RuleProblem(rules, rules[j], p)
    {
      var rule := rules[i];
      ghost var before := problems;
      if Specificity(rule.conditions).None? { problems := problems + [MalformedConditions(rule.code)]; }
      var more := CheckConflicts(rules, rule);
      problems := problems + more;
      forall p ensures p in problems <==> p in before || RuleProblem(rules, rule, p) { }
    }
    forall p ensures p in problems <==> Justified(rules, p) { JustifiedByRules(rules, p); }
    ValidMeansNoProblem(rules);
    if problems != [] { assert problems[0] in problems; }
  }
}
