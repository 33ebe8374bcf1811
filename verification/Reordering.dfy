/** Whole decisions under reordering of the pack: compliance and mitigations can leak the order too. */
module ReorderingTheorems {
  import opened Common
  import opened Values
  import opened Engine
  import opened Rules
  import opened Policy
  import opened Resolver
  import opened Pipeline
  import opened OutcomeTheorems
  import opened OrderTheorems

  // --------------------------------------------------------------- compliance

  /** No rule of the list is evaluated strictly later. */
  predicate IsLast(x: Rule, ws: seq<Rule>) { x in ws && forall y :: y in ws ==> !Before(x, y) }

  /** The compliance rules that could come last for a field agree on its value. */
  predicate LastTieFree(field: string, hits: seq<Rule>) {
    var ws := Filter(Writes(field), hits);
    forall x, y :: x in hits && y in hits && IsLast(x, ws) && IsLast(y, ws) ==>
      Get(x.actions, field) == Get(y.actions, field)
  }

  lemma LastOfSorted(ws: seq<Rule>)
    requires Sorted(ws) && ws != []
    ensures IsLast(ws[|ws| - 1], ws)
  {
    var x := ws[|ws| - 1];
    forall y | y in ws ensures !Before(x, y) {
      var j :| 0 <= j < |ws| && ws[j] == y;
      if j == |ws| - 1 { BeforeIrreflexive(x); }
    }
  }

  lemma {:induction false} FilterKeepsSorted(test: Rule -> bool, s: seq<Rule>)
    requires Sorted(s)
    ensures Sorted(Filter(test, s))
  {
    hide Before;
    if s != [] {
      SortedTail(s);
      FilterKeepsSorted(test, s[1..]);
      FilterMembers(test, s[1..]);
      if test(s[0]) { SortedCons(s[0], Filter(test, s[1..])); }
      assert [] + Filter(test, s[1..]) == Filter(test, s[1..]);
    }
  }

  lemma HitsArePermuted(P: seq<Rule>, Q: seq<Rule>, data: Object)
    requires multiset(P) == multiset(Q)
    ensures multiset(ComplianceHits(P, data)) == multiset(ComplianceHits(Q, data))
    ensures Sorted(ComplianceHits(P, data)) && Sorted(ComplianceHits(Q, data))
    ensures ComplianceFails(P, data) == ComplianceFails(Q, data)
  {
    hide Satisfied, Sort, Filter, Before;
    var family := (r: Rule) => r.family == COMPLIANCE;
    PermutationMembers(P, Q);
    FilterPermutation(IsActive, P, Q);
    FilterPermutation(family, Filter(IsActive, P), Filter(IsActive, Q));
    SortProperties(Filter(family, Filter(IsActive, P)));
    SortProperties(Filter(family, Filter(IsActive, Q)));
    FilterPermutation(SatisfiedTest(data), ActiveFamily(P, COMPLIANCE), ActiveFamily(Q, COMPLIANCE));
    FilterKeepsSorted(SatisfiedTest(data), ActiveFamily(P, COMPLIANCE));
    FilterKeepsSorted(SatisfiedTest(data), ActiveFamily(Q, COMPLIANCE));
  }

  lemma LastIsMember(x: Rule, ws: seq<Rule>)
    requires IsLast(x, ws)
    ensures x in ws
  {
  }

  lemma LastOfPermutation(v: seq<Rule>, w: seq<Rule>)
    requires multiset(v) == multiset(w) && Sorted(v) && Sorted(w) && v != []
    ensures |v| == |w| && IsLast(v[|v| - 1], v) && IsLast(w[|w| - 1], v)
  {
    hide Before;
    PermutationMembers(v, w);
    LastOfSorted(v);
    LastOfSorted(w);
  }

  lemma SameLastValue(s: seq<Rule>, t: seq<Rule>, field: string)
    requires multiset(s) == multiset(t) && Sorted(s) && Sorted(t) && LastTieFree(field, s)
    ensures var v, w := Filter(Writes(field), s), Filter(Writes(field), t);
            |v| == |w| && (v != [] ==> Get(v[|v| - 1].actions, field) == Get(w[|w| - 1].actions, field))
  {
    hide Filter, Before, Sorted, IsLast;
    var v, w := Filter(Writes(field), s), Filter(Writes(field), t);
    FilterPermutation(Writes(field), s, t);
    PermutationMembers(v, w);
    FilterKeepsSorted(Writes(field), s);
    FilterKeepsSorted(Writes(field), t);
    FilterMembers(Writes(field), s);
    if v != [] {
      LastOfPermutation(v, w);
      LastIsMember(v[|v| - 1], v);
      LastIsMember(w[|w| - 1], v);
    }
  }

  // The hits that write a field, as one sort, and how to make one of them the last.

  function HitWriterTest(data: Object, field: string): Rule -> bool {
    (r: Rule) => IsActive(r) && r.family == COMPLIANCE && SatisfiedTest(data)(r) && field in r.actions
  }

  lemma HitWritersAreSorted(rules: seq<Rule>, data: Object, field: string)
    ensures Filter(Writes(field), ComplianceHits(rules, data)) == Sort(Filter(HitWriterTest(data, field), rules))
  {
    hide Satisfied, Sort, Filter;
    var family := (r: Rule) => r.family == COMPLIANCE;
    var ours := (r: Rule) => IsActive(r) && r.family == COMPLIANCE;
    var hit := (r: Rule) => ours(r) && SatisfiedTest(data)(r);
    FilterFilter(family, IsActive, ours, rules);
    FilterSort(SatisfiedTest(data), Filter(ours, rules));
    FilterFilter(SatisfiedTest(data), ours, hit, rules);
    FilterSort(Writes(field), Filter(hit, rules));
    FilterFilter(Writes(field), hit, HitWriterTest(data, field), rules);
  }

  /** The same rules with the i-th one last. */
  function ToBack(P: seq<Rule>, i: nat): seq<Rule>
    requires i < |P|
  {
    Without(P, i) + [P[i]]
  }

  lemma {:induction false} InsertBack(x: Rule, s: seq<Rule>, z: Rule)
    requires !Before(z, x)
    ensures Insert(x, s + [z]) == Insert(x, s) + [z]
  {
    if s != [] {
      assert (s + [z])[1..] == s[1..] + [z];
      InsertBack(x, s[1..], z);
    }
  }

  /** Listing a rule last sorts it last, unless it is evaluated strictly before another. */
  lemma {:induction false} SortBack(s: seq<Rule>, z: Rule)
    requires forall y :: y in s ==> !Before(z, y)
    ensures Sort(s + [z]) == Sort(s) + [z]
  {
    hide Before;
    if s == [] {
      assert ([] + [z])[1..] == [];
    } else {
      assert (s + [z])[1..] == s[1..] + [z];
      SortBack(s[1..], z);
      InsertBack(s[0], Sort(s[1..]), z);
    }
  }

  lemma BackWins(P: seq<Rule>, i: nat, test: Rule -> bool)
    requires i < |P| && test(P[i]) && IsLast(P[i], Sort(Filter(test, P)))
    ensures multiset(ToBack(P, i)) == multiset(P)
    ensures var t := Sort(Filter(test, ToBack(P, i))); t != [] && t[|t| - 1] == P[i]
  {
    hide Filter, Sort, Before, Without;
    WithoutCounts(P, i);
    var rest := Filter(test, Without(P, i));
    FilterAppend(test, Without(P, i), [P[i]]);
    FilterOne(test, P[i]);
    FilterMembers(test, Without(P, i));
    SortedPermutation(test, P, P);
    forall y | y in rest ensures !Before(P[i], y) { assert y in multiset(Without(P, i)) && y in multiset(P); }
    SortBack(rest, P[i]);
  }

  lemma FilterOne(test: Rule -> bool, x: Rule)
    requires test(x)
    ensures Filter(test, [x]) == [x]
  {
    FilterAll(test, [x]);
  }

  /** A writer that could come last, with another value for the field than the one that does. */
  lemma LastRival(field: string, hits: seq<Rule>) returns (z: Rule)
    requires !LastTieFree(field, hits)
    ensures var ws := Filter(Writes(field), hits);
            ws != [] && IsLast(z, ws) && Get(z.actions, field) != Get(ws[|ws| - 1].actions, field)
  {
    hide Filter, Before;
    var ws := Filter(Writes(field), hits);
    var x, y :| x in hits && y in hits && IsLast(x, ws) && IsLast(y, ws)
                && Get(x.actions, field) != Get(y.actions, field);
    z := if Get(x.actions, field) != Get(ws[|ws| - 1].actions, field) then x else y;
  }

  lemma ComplianceLeaks(P: seq<Rule>, data: Object, actions: Object, field: string) returns (Q: seq<Rule>)
    requires !LastTieFree(field, ComplianceHits(P, data))
    ensures multiset(Q) == multiset(P)
    ensures Get(Overwrite(actions, ComplianceHits(Q, data)), field) !=
            Get(Overwrite(actions, ComplianceHits(P, data)), field)
  {
    hide Filter, Sort, Before, LastTieFree, IsLast, ComplianceHits, Overwrite, Without;
    var test, hits := HitWriterTest(data, field), ComplianceHits(P, data);
    var ws := Filter(Writes(field), hits);
    HitWritersAreSorted(P, data, field);
    var z := LastRival(field, hits);
    LastIsMember(z, ws);
    SortedPermutation(test, P, P);
    var i :| 0 <= i < |P| && P[i] == z;
    Q := ToBack(P, i);
    BackWins(P, i, test);
    HitWritersAreSorted(Q, data, field);
    LastComplianceWins(actions, hits, field);
    LastComplianceWins(actions, ComplianceHits(Q, data), field);
  }

  lemma SameOverwriteAt(actions: Object, s: seq<Rule>, t: seq<Rule>, field: string)
    requires multiset(s) == multiset(t) && Sorted(s) && Sorted(t) && LastTieFree(field, s)
    ensures field in Overwrite(actions, s) <==> field in Overwrite(actions, t)
    ensures Get(Overwrite(actions, s), field) == Get(Overwrite(actions, t), field)
  {
    hide Filter, LastTieFree, Overwrite, Sorted;
    SameLastValue(s, t, field);
    LastComplianceWins(actions, s, field);
    LastComplianceWins(actions, t, field);
  }

  /** The order of the rule list leaks into a field through the compliance pass exactly when the compliance rules that
      could come last for it disagree: whatever the actions before the pass, every reordering of the pack leaves the
      field with the same value if and only if they agree. */
  lemma ComplianceOrderLeaksExactly(P: seq<Rule>, data: Object, actions: Object, field: string)
    ensures LastTieFree(field, ComplianceHits(P, data)) <==>
            forall Q :: multiset(Q) == multiset(P) ==>
              Get(Overwrite(actions, ComplianceHits(Q, data)), field) ==
                Get(Overwrite(actions, ComplianceHits(P, data)), field)
  {
    hide LastTieFree, ComplianceHits, Overwrite, Filter;
    if LastTieFree(field, ComplianceHits(P, data)) {
      forall Q | multiset(Q) == multiset(P)
        ensures Get(Overwrite(actions, ComplianceHits(Q, data)), field) ==
                Get(Overwrite(actions, ComplianceHits(P, data)), field)
      {
        HitsArePermuted(P, Q, data);
        SameOverwriteAt(actions, ComplianceHits(P, data), ComplianceHits(Q, data), field);
      }
    } else {
      var Q := ComplianceLeaks(P, data, actions, field);
    }
  }

  lemma SameOverwrite(actions: Object, s: seq<Rule>, t: seq<Rule>)
    requires multiset(s) == multiset(t) && Sorted(s) && Sorted(t) && forall f :: LastTieFree(f, s)
    ensures Overwrite(actions, s) == Overwrite(actions, t)
  {
    hide Filter, LastTieFree, Overwrite, Sorted;
    var a, b := Overwrite(actions, s), Overwrite(actions, t);
    forall f ensures (f in a <==> f in b) && Get(a, f) == Get(b, f) { SameOverwriteAt(actions, s, t, f); }
    assert a.Keys == b.Keys;
    assert forall f :: f in a ==> a[f] == Get(a, f) == Get(b, f) == b[f];
  }

  // -------------------------------------------------------------- mitigations

  /** What a mitigation comes to, said without an order but for the first value. */
  function FromFirst(first: Value, anyTrue: bool, anyBool: bool): Value {
    if Truthy(first) then first else if anyTrue then Bool(true) else if anyBool then Bool(false) else first
  }

  /** What the mitigation comes to if `x` is the first of the rules `rs` that give it. */
  ghost function WithFirst(x: Rule, rs: seq<Rule>, key: string): Value {
    FromFirst(Get(x.mitigations, key), SaysTrue(rs, key), SaysBool(rs, key))
  }

  /** Whichever rule comes first for a mitigation, it comes to the same. */
  ghost predicate FirstTieFree(key: string, matched: seq<Rule>) {
    var rs := Filter(Mitigates(key), matched);
    forall x, y :: x in matched && y in matched && IsLeader(x, rs, Never) && IsLeader(y, rs, Never) ==>
      WithFirst(x, rs, key) == WithFirst(y, rs, key)
  }

  lemma MitigationFromFirst(matched: seq<Rule>, key: string)
    ensures var rs := Filter(Mitigates(key), matched);
            && (key in Mitigations(matched) <==> rs != [])
            && Get(Mitigations(matched), key) == if rs == [] then Null else WithFirst(rs[0], rs, key)
  {
    hide Filter, Truthy, MitigationValue;
    var rs := Filter(Mitigates(key), matched);
    FilterMembers(Mitigates(key), matched);
    if rs != [] {
      assert rs[0] in rs;
      MitigationMeans(matched, key);
      FirstSays(rs, key);
      TrueIsTruthy();
    }
  }

  lemma FirstSays(rs: seq<Rule>, key: string)
    requires rs != []
    ensures SaysTrue(rs, key) <==> Get(rs[0].mitigations, key) == Bool(true) || SaysTrue(rs[1..], key)
    ensures SaysBool(rs, key) <==> Get(rs[0].mitigations, key).Bool? || SaysBool(rs[1..], key)
  {
    assert rs == [rs[0]] + rs[1..];
  }

  lemma TrueIsTruthy()
    ensures Truthy(Bool(true)) && !Truthy(Bool(false))
  {
  }

  lemma SaysPermuted(v: seq<Rule>, w: seq<Rule>, key: string)
    requires forall r :: r in v <==> r in w
    ensures SaysTrue(v, key) == SaysTrue(w, key) && SaysBool(v, key) == SaysBool(w, key)
  {
  }

  lemma FirstOfPermutation(v: seq<Rule>, w: seq<Rule>)
    requires multiset(v) == multiset(w) && Sorted(v) && Sorted(w) && v != []
    ensures w != [] && IsLeader(v[0], v, Never) && IsLeader(w[0], v, Never) && w[0] in v
  {
    hide Before, IsLeader;
    PermutationMembers(v, w);
    FirstIsLeader(v);
    FirstIsLeader(w);
    LeadersOfPermutation(v, w, Never);
    assert w[0] in w;
  }

  lemma SameMitigationAt(s: seq<Rule>, t: seq<Rule>, key: string)
    requires multiset(s) == multiset(t) && Sorted(s) && Sorted(t) && FirstTieFree(key, s)
    ensures key in Mitigations(s) <==> key in Mitigations(t)
    ensures Get(Mitigations(s), key) == Get(Mitigations(t), key)
  {
    hide Filter, Sorted, IsLeader, Mitigations, FromFirst, SaysTrue, SaysBool;
    var v, w := Filter(Mitigates(key), s), Filter(Mitigates(key), t);
    FilterPermutation(Mitigates(key), s, t);
    FilterKeepsSorted(Mitigates(key), s);
    FilterKeepsSorted(Mitigates(key), t);
    FilterMembers(Mitigates(key), s);
    MitigationFromFirst(s, key);
    MitigationFromFirst(t, key);
    PermutationMembers(v, w);
    if v != [] {
      FirstOfPermutation(v, w);
      SaysPermuted(v, w, key);
      assert v[0] in v;
    }
  }

  lemma SameMitigations(s: seq<Rule>, t: seq<Rule>)
    requires multiset(s) == multiset(t) && Sorted(s) && Sorted(t) && forall k :: FirstTieFree(k, s)
    ensures Mitigations(s) == Mitigations(t)
  {
    hide FirstTieFree, Sorted, Mitigations;
    var a, b := Mitigations(s), Mitigations(t);
    forall k ensures (k in a <==> k in b) && Get(a, k) == Get(b, k) { SameMitigationAt(s, t, k); }
    assert a.Keys == b.Keys;
    assert forall k :: k in a ==> a[k] == Get(a, k) == Get(b, k) == b[k];
  }

  lemma MatchedIsSorted(P: seq<Rule>, data: Object)
    ensures Sorted(Matched(P, data))
  {
    hide Filter, Before, VerdictOn, Sort;
    SortProperties(Filter(IsActive, P));
    FilterKeepsSorted(MatchTest(data), ActiveRules(P));
  }

  function MitigatorTest(data: Object, key: string): Rule -> bool {
    (r: Rule) => IsActive(r) && MatchTest(data)(r) && key in r.mitigations
  }

  lemma MitigatorsAreSorted(rules: seq<Rule>, data: Object, key: string)
    ensures Filter(Mitigates(key), Matched(rules, data)) == Sort(Filter(MitigatorTest(data, key), rules))
  {
    hide VerdictOn, Sort, Filter;
    var matching := (r: Rule) => IsActive(r) && MatchTest(data)(r);
    FilterSort(MatchTest(data), Filter(IsActive, rules));
    FilterFilter(MatchTest(data), IsActive, matching, rules);
    FilterSort(Mitigates(key), Filter(matching, rules));
    FilterFilter(Mitigates(key), matching, MitigatorTest(data, key), rules);
  }

  /** A rule that could come first for a mitigation, and would bring it to something else. */
  lemma FirstRival(key: string, matched: seq<Rule>) returns (z: Rule)
    requires !FirstTieFree(key, matched)
    ensures var rs := Filter(Mitigates(key), matched);
            rs != [] && z in rs && IsLeader(z, rs, Never) && WithFirst(z, rs, key) != WithFirst(rs[0], rs, key)
  {
    hide Filter, Before, FromFirst, SaysTrue, SaysBool;
    var rs := Filter(Mitigates(key), matched);
    var x, y :| x in matched && y in matched && IsLeader(x, rs, Never) && IsLeader(y, rs, Never)
                && WithFirst(x, rs, key) != WithFirst(y, rs, key);
    z := if WithFirst(x, rs, key) != WithFirst(rs[0], rs, key) then x else y;
  }

  lemma MitigationLeaks(P: seq<Rule>, data: Object, key: string) returns (Q: seq<Rule>)
    requires !FirstTieFree(key, Matched(P, data))
    ensures multiset(Q) == multiset(P)
    ensures Get(Mitigations(Matched(Q, data)), key) != Get(Mitigations(Matched(P, data)), key)
  {
    hide Filter, Sort, FirstTieFree, IsLeader, Matched, Mitigations, Without, FromFirst, SaysTrue, SaysBool;
    var test := MitigatorTest(data, key);
    var rs := Filter(Mitigates(key), Matched(P, data));
    MitigatorsAreSorted(P, data, key);
    var z := FirstRival(key, Matched(P, data));
    SortedPermutation(test, P, P);
    var i :| 0 <= i < |P| && P[i] == z;
    Q := ToFront(P, i);
    FrontSorts(P, i, test);
    FrontWins(P, i, test, Never);
    MitigatorsAreSorted(Q, data, key);
    var ts := Filter(Mitigates(key), Matched(Q, data));
    NeverPicksFirst(ts);
    SortedPermutation(test, P, Q);
    PermutationMembers(rs, ts);
    SaysPermuted(rs, ts, key);
    MitigationFromFirst(Matched(P, data), key);
    MitigationFromFirst(Matched(Q, data), key);
  }

  /** The order of the rule list leaks into a mitigation exactly when the rules that could come first for it would
      bring it to different values: two different truthy ones, a truthy one other than `true` and a falsy one, or two
      different falsy ones when no rule gives a boolean. */
  lemma MitigationOrderLeaksExactly(P: seq<Rule>, data: Object, key: string)
    ensures FirstTieFree(key, Matched(P, data)) <==>
            forall Q :: multiset(Q) == multiset(P) ==>
              Get(Mitigations(Matched(Q, data)), key) == Get(Mitigations(Matched(P, data)), key)
  {
    hide FirstTieFree, Matched, Mitigations;
    if FirstTieFree(key, Matched(P, data)) {
      forall Q | multiset(Q) == multiset(P)
        ensures Get(Mitigations(Matched(Q, data)), key) == Get(Mitigations(Matched(P, data)), key)
      {
        MatchedPermutation(P, Q, data);
        MatchedIsSorted(P, data);
        MatchedIsSorted(Q, data);
        SameMitigationAt(Matched(P, data), Matched(Q, data), key);
      }
    } else {
      var Q := MitigationLeaks(P, data, key);
    }
  }

  // ------------------------------------------------------------- the decision

  /** No tie anywhere that the order of the rule list would decide. */
  ghost predicate PackTieFree(P: seq<Rule>, data: Object) {
    && (forall f :: f in Fields(Matched(P, data)) ==> FieldTieFree(f, Writers(f, Matched(P, data))))
    && (forall f :: LastTieFree(f, ComplianceHits(P, data)))
    && (forall k :: FirstTieFree(k, Matched(P, data)))
  }

  lemma PlanFailsPermuted(s: seq<Rule>, t: seq<Rule>)
    requires multiset(s) == multiset(t)
    ensures PlanFails(s) == PlanFails(t)
  {
    hide SequencingOk, Filter;
    FilterPermutation(HasSequencing(), s, t);
    PermutationMembers(Filter(HasSequencing(), s), Filter(HasSequencing(), t));
  }

  /** Two decisions that only differ in what lists rules in match order. */
  ghost predicate SameDecision(d: Decision, e: Decision) {
    && d.actions == e.actions && d.mitigations == e.mitigations && d.priority == e.priority
    && d.riskScore == e.riskScore && d.riskBand == e.riskBand && SameLog(d.suppressed, e.suppressed)
  }

  /** Reordering a tie-free pack changes neither whether `run` raises, nor the final actions, mitigations, priority,
      risk score and band, nor the logged entries. */
  lemma TieFreeRunIgnoresOrder(P: seq<Rule>, Q: seq<Rule>, incident: Incident, matrix: Option<Matrix>)
    requires DistinctCodes(P) && multiset(P) == multiset(Q) && PackTieFree(P, EvaluationData(incident))
    ensures Run(P, incident, matrix).Done? == Run(Q, incident, matrix).Done?
    ensures Run(P, incident, matrix).Done? ==>
            SameDecision(Run(P, incident, matrix).value, Run(Q, incident, matrix).value)
  {
    hide PolicyFails, Matched, Resolve, ComplianceHits, ComplianceFails, Overwrite, FillTargets, PlanFails, PlanOf,
         Rejected, FieldTieFree, LastTieFree, FirstTieFree, Mitigations, SameLog, Total, Filter, Fields,
         SuppressedCodes;
    var data := EvaluationData(incident);
    var s, t := Matched(P, data), Matched(Q, data);
    TieFreePackIgnoresOrder(P, Q, data);
    MatchedPermutation(P, Q, data);
    PlanFailsPermuted(s, t);
    HitsArePermuted(P, Q, data);
    if Resolve(s).Done? {
      SameOverwrite(Resolve(s).value.actions, ComplianceHits(P, data), ComplianceHits(Q, data));
      MatchedIsSorted(P, data);
      MatchedIsSorted(Q, data);
      SameMitigations(s, t);
      ResolvedMitigations(s);
      ResolvedMitigations(t);
    }
  }

  lemma ResolvedMitigations(matched: seq<Rule>)
    requires Resolve(matched).Done?
    ensures Resolve(matched).value.mitigations == Mitigations(matched)
  {
  }
}
