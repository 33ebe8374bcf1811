/** Rules, rule packs, and the order rules are evaluated in. */
module Rules {
  import opened Common
  import opened Values

  datatype Rule = Rule(
    code: string,
    name: string,
    description: string,
    family: string,
    familyOrder: int,
    weight: int,
    severityBand: Option<string>,
    contribution: Option<int>,
    conditions: Value,
    exceptions: Option<Value>,
    conflictGroup: Option<string>,
    conflictsWith: seq<string>,
    isSuppressor: bool,
    nonSuppressible: bool,
    cooldownMinutes: int,
    actions: Object,
    mitigations: Object,
    sequencing: Option<Object>,
    slaTarget: Option<string>,
    ruleStatus: string,
    enabled: bool,
    id: Option<string>)

  datatype RulePack = RulePack(
    name: string,
    version: int,
    status: string,
    region: Option<string>,
    rules: seq<Rule>,
    parentVersion: Option<int>,
    id: Option<string>,
    tenantId: Option<string>,
    createdBy: string,
    createdAt: Option<int>,
    activatedAt: Option<int>,
    deletedAt: Option<int>,
    lockVersion: int)

  const COMPLIANCE := "COMPLIANCE"

  predicate IsActive(r: Rule) { r.enabled && r.ruleStatus == "ACTIVE" }

  /** Strictly earlier by (family_order, -priority_weight). */
  predicate Before(a: Rule, b: Rule) {
    a.familyOrder < b.familyOrder || (a.familyOrder == b.familyOrder && a.weight > b.weight)
  }

  predicate SameKey(a: Rule, b: Rule) { !Before(a, b) && !Before(b, a) }

  function Insert(x: Rule, s: seq<Rule>): seq<Rule> {
    if s == [] || !Before(s[0], x) then [x] + s else [s[0]] + Insert(x, s[1..])
  }

  /** Python's `sorted` by that key. */
  function Sort(s: seq<Rule>): seq<Rule> {
    if s == [] then [] else Insert(s[0], Sort(s[1..]))
  }

  ghost predicate Sorted(s: seq<Rule>) {
    forall i, j :: 0 <= i < j < |s| ==> !Before(s[j], s[i])
  }

  lemma {:induction false} InsertMembers(x: Rule, s: seq<Rule>)
    ensures forall y :: y in Insert(x, s) <==> y == x || y in s
  {
    if s != [] && Before(s[0], x) {
      InsertMembers(x, s[1..]);
      assert s == [s[0]] + s[1..];
    }
  }

  lemma {:induction false} InsertMultiset(x: Rule, s: seq<Rule>)
    ensures multiset(Insert(x, s)) == multiset([x]) + multiset(s)
  {
    if s != [] && Before(s[0], x) {
      InsertMultiset(x, s[1..]);
      assert s == [s[0]] + s[1..];
    }
  }

  ghost predicate NoneBefore(x: Rule, s: seq<Rule>) { forall y :: y in s ==> !Before(y, x) }

  lemma SortedCons(x: Rule, s: seq<Rule>)
    requires Sorted(s) && NoneBefore(x, s)
    ensures Sorted([x] + s)
  {
    forall i, j | 0 <= i < j < |[x] + s| ensures !Before(([x] + s)[j], ([x] + s)[i]) {
      if i == 0 { assert s[j - 1] in s; }
    }
  }

  lemma SortedTail(s: seq<Rule>)
    requires Sorted(s) && s != []
    ensures Sorted(s[1..]) && NoneBefore(s[0], s[1..])
  {
  }

  lemma {:induction false} InsertSorted(x: Rule, s: seq<Rule>)
    requires Sorted(s)
    ensures Sorted(Insert(x, s))
  {
    if s == [] {
    } else if Before(s[0], x) {
      SortedTail(s);
      InsertSorted(x, s[1..]);
      InsertMembers(x, s[1..]);
      SortedCons(s[0], Insert(x, s[1..]));
    } else {
      SortedTail(s);
      forall y | y in s ensures !Before(y, x) { }
      SortedCons(x, s);
    }
  }

  lemma {:induction false} SortProperties(s: seq<Rule>)
    ensures Sorted(Sort(s)) && multiset(Sort(s)) == multiset(s)
  {
    if s != [] {
      SortProperties(s[1..]);
      InsertSorted(s[0], Sort(s[1..]));
      InsertMultiset(s[0], Sort(s[1..]));
      assert s == [s[0]] + s[1..];
    }
  }

  lemma InsertCons(x: Rule, y: Rule, s: seq<Rule>)
    ensures Insert(x, [y] + s) == if Before(y, x) then [y] + Insert(x, s) else [x] + ([y] + s)
  {
    assert ([y] + s)[1..] == s;
  }

  lemma {:induction false} FilterInsert(p: Rule -> bool, x: Rule, s: seq<Rule>)
    requires Sorted(s)
    ensures Filter(p, Insert(x, s)) == if p(x) then Insert(x, Filter(p, s)) else Filter(p, s)
  {
    hide Sorted;
    if s == [] {
    } else if Before(s[0], x) {
      SortedTail(s);
      FilterInsert(p, x, s[1..]);
      FilterCons(p, s[0], Insert(x, s[1..]));
      InsertCons(x, s[0], Filter(p, s[1..]));
      if !p(s[0]) { assert [] + Filter(p, s[1..]) == Filter(p, s[1..]); }
    } else {
      FilterCons(p, x, s);
      NoneFilteredBefore(p, x, s);
    }
  }

  lemma NoneFilteredBefore(p: Rule -> bool, x: Rule, s: seq<Rule>)
    requires Sorted(s) && s != [] && !Before(s[0], x)
    ensures Filter(p, s) != [] ==> !Before(Filter(p, s)[0], x)
  {
    hide Filter;
    FilterMembers(p, s);
    if Filter(p, s) != [] {
      assert Filter(p, s)[0] in Filter(p, s);
      var j :| 0 <= j < |s| && s[j] == Filter(p, s)[0];
    }
  }

  /** Dropping rules before sorting is dropping them after sorting. */
  lemma {:induction false} FilterSort(p: Rule -> bool, s: seq<Rule>)
    ensures Filter(p, Sort(s)) == Sort(Filter(p, s))
  {
    if s != [] {
      SortProperties(s[1..]);
      FilterInsert(p, s[0], Sort(s[1..]));
      FilterSort(p, s[1..]);
      SortCons(s[0], Filter(p, s[1..]));
      assert [] + Filter(p, s[1..]) == Filter(p, s[1..]);
    }
  }

  lemma SortCons(x: Rule, s: seq<Rule>)
    ensures Sort([x] + s) == Insert(x, Sort(s))
  {
    assert ([x] + s)[1..] == s;
  }

  lemma {:induction false} SortOfSorted(s: seq<Rule>)
    requires Sorted(s)
    ensures Sort(s) == s
  {
    if s != [] {
      SortOfSorted(s[1..]);
    }
  }

  /** The sort is stable: rules with one key keep their order. */
  lemma SortStable(x: Rule, s: seq<Rule>)
    ensures Filter(y => SameKey(x, y), Sort(s)) == Filter(y => SameKey(x, y), s)
  {
    var same := y => SameKey(x, y);
    FilterSort(same, s);
    FilterMembers(same, s);
    var t := Filter(same, s);
    assert Sorted(t) by {
      forall i, j | 0 <= i < j < |t| ensures !Before(t[j], t[i]) {
        assert t[i] in t && t[j] in t;
        assert SameKey(x, t[i]) && SameKey(x, t[j]);
      }
    }
    SortOfSorted(t);
  }

  lemma {:induction false} MapInsert(f: Rule -> Rule, x: Rule, s: seq<Rule>)
    requires forall r :: f(r).familyOrder == r.familyOrder && f(r).weight == r.weight
    ensures Map(f, Insert(x, s)) == Insert(f(x), Map(f, s))
  {
    if s != [] && Before(s[0], x) {
      MapInsert(f, x, s[1..]);
      assert Map(f, s)[1..] == Map(f, s[1..]);
    } else {
      assert Map(f, [x] + s) == [f(x)] + Map(f, s);
    }
  }

  lemma {:induction false} MapSort(f: Rule -> Rule, s: seq<Rule>)
    requires forall r :: f(r).familyOrder == r.familyOrder && f(r).weight == r.weight
    ensures Map(f, Sort(s)) == Sort(Map(f, s))
  {
    if s != [] {
      MapSort(f, s[1..]);
      MapInsert(f, s[0], Sort(s[1..]));
      assert Map(f, s)[1..] == Map(f, s[1..]);
    }
  }

  /** RulePack.active_rules() */
  function ActiveRules(rules: seq<Rule>): seq<Rule> { Sort(Filter(IsActive, rules)) }

  /** RulePack.active_rules(family) */
  function ActiveFamily(rules: seq<Rule>, family: string): seq<Rule> {
    Sort(Filter((r: Rule) => r.family == family, Filter(IsActive, rules)))
  }

  /** Rule codes identify rules within a pack. */
  ghost predicate DistinctCodes(rules: seq<Rule>) {
    forall i, j :: 0 <= i < j < |rules| ==> rules[i].code != rules[j].code
  }
}
