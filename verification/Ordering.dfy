/** When the order of a pack's rule list can, and when it cannot, leak into a decision. */
module OrderTheorems {
  import opened Common
  import opened Values
  import opened Engine
  import opened Rules
  import opened Policy
  import opened Resolver
  import opened Pipeline

  // ------------------------------------------------------------------ leaders

  /** Nobody beats `x`, and nobody tied with it is evaluated strictly earlier. */
  predicate IsLeader(x: Rule, ws: seq<Rule>, beats: (Rule, Rule) -> bool) {
    x in ws && forall y :: y in ws ==> !beats(y, x) && (beats(x, y) || !Before(y, x))
  }

  /** All leaders carry the same value for the field. */
  predicate TieFree(field: string, ws: seq<Rule>, beats: (Rule, Rule) -> bool) {
    forall x, y :: x in ws && y in ws && IsLeader(x, ws, beats) && IsLeader(y, ws, beats) ==>
      Get(x.actions, field) == Get(y.actions, field)
  }

  predicate OneLeader(ws: seq<Rule>, beats: (Rule, Rule) -> bool) {
    forall x, y :: x in ws && y in ws && IsLeader(x, ws, beats) && IsLeader(y, ws, beats) ==> x == y
  }

  predicate Never(a: Rule, b: Rule) { false }

  /** What max() picks from a list in evaluation order is a leader. */
  lemma WinnerIsLeader(ws: seq<Rule>, beats: (Rule, Rule) -> bool)
    requires ws != [] && Sorted(ws) && WeakOrder(beats)
    ensures IsLeader(ws[ArgBest(ws, beats)], ws, beats)
  {
    hide Before;
    ArgBestIsFirst(ws, beats);
    var w := ArgBest(ws, beats);
    forall y | y in ws ensures !beats(y, ws[w]) && (beats(ws[w], y) || !Before(y, ws[w])) {
      var j :| 0 <= j < |ws| && ws[j] == y;
      if j == w { BeforeIrreflexive(y); }
    }
  }

  lemma BeforeIrreflexive(x: Rule)
    ensures !Before(x, x)
  {
  }

  lemma LeadersOfPermutation(s: seq<Rule>, t: seq<Rule>, beats: (Rule, Rule) -> bool)
    requires multiset(s) == multiset(t)
    ensures forall x :: IsLeader(x, s, beats) <==> IsLeader(x, t, beats)
  {
    hide Before;
    PermutationMembers(s, t);
  }

  lemma {:induction false} InsertPosition(y: Rule, s: seq<Rule>) returns (i: nat)
    ensures i < |Insert(y, s)| && Insert(y, s)[i] == y
    ensures forall j :: 0 <= j < i ==> Before(Insert(y, s)[j], y)
  {
    if s == [] || !Before(s[0], y) {
      i := 0;
    } else {
      var k := InsertPosition(y, s[1..]);
      i := k + 1;
    }
  }

  /** A leader that the sort puts ahead of its equals is the one max() picks. */
  lemma FrontLeaderWins(y: Rule, s: seq<Rule>, beats: (Rule, Rule) -> bool)
    requires WeakOrder(beats) && IsLeader(y, Insert(y, s), beats)
    ensures Insert(y, s)[ArgBest(Insert(y, s), beats)] == y
  {
    var ws := Insert(y, s);
    var i := InsertPosition(y, s);
    assert FirstBest(ws, beats, i);
    ArgBestIsFirst(ws, beats);
    FirstBestUnique(ws, beats, i, ArgBest(ws, beats));
  }

  // ---------------------------------------------------- writers, as one sort

  function WriterTest(data: Object, field: string): Rule -> bool {
    (r: Rule) => IsActive(r) && MatchTest(data)(r) && field in r.actions
  }

  function OrdinaryWriterTest(data: Object, field: string): Rule -> bool {
    (r: Rule) => WriterTest(data, field)(r) && !r.isSuppressor
  }

  lemma WritersAreSorted(rules: seq<Rule>, data: Object, field: string)
    ensures Writers(field, Matched(rules, data)) == Sort(Filter(WriterTest(data, field), rules))
    ensures Filter(Ordinary(), Writers(field, Matched(rules, data))) ==
            Sort(Filter(OrdinaryWriterTest(data, field), rules))
  {
    hide VerdictOn;
    var active := Filter(IsActive, rules);
    var matching := (r: Rule) => IsActive(r) && MatchTest(data)(r);
    FilterSort(MatchTest(data), active);
    FilterFilter(MatchTest(data), IsActive, matching, rules);
    FilterSort(Writes(field), Filter(matching, rules));
    FilterFilter(Writes(field), matching, WriterTest(data, field), rules);
    FilterSort(Ordinary(), Filter(WriterTest(data, field), rules));
    FilterFilter(Ordinary(), WriterTest(data, field), OrdinaryWriterTest(data, field), rules);
  }

  /** Sorting permuted rules gives sorted permutations. */
  lemma SortedPermutation(test: Rule -> bool, s: seq<Rule>, t: seq<Rule>)
    requires multiset(s) == multiset(t)
    ensures Sorted(Sort(Filter(test, s))) && Sorted(Sort(Filter(test, t)))
    ensures multiset(Sort(Filter(test, s))) == multiset(Sort(Filter(test, t)))
    ensures forall r :: r in Sort(Filter(test, s)) <==> r in s && test(r)
  {
    FilterPermutation(test, s, t);
    SortProperties(Filter(test, s));
    SortProperties(Filter(test, t));
    FilterMembers(test, s);
    PermutationMembers(Filter(test, s), Sort(Filter(test, s)));
  }

  // ------------------------------------------------------------- the condition

  /** Two outcomes for one field that differ at most in the order of the log. */
  predicate SameOutcome(a: Try<Resolution>, b: Try<Resolution>) {
    a.Done? == b.Done? && (a.Done? ==> a.value.value == b.value.value && multiset(a.value.log) == multiset(b.value.log))
  }

  predicate MergeTieFree(field: string, ws: seq<Rule>) {
    if field == PRIORITY then
      (exists r :: r in ws && !Hashable(Get(r.actions, field))) || TieFree(field, ws, SeverityBeats(field))
    else if field == TARGET_SLA || field == "slaTarget" then
      (exists r :: r in ws && DurationMinutes(Get(r.actions, field)).None?) || TieFree(field, ws, ShorterBeats(field))
    else (forall r :: r in ws ==> Get(r.actions, field).Bool?) || TieFree(field, ws, WeightBeats)
  }

  predicate SettleTieFree(field: string, ws: seq<Rule>) {
    |ws| <= 1 || (if Agree(field, ws) then TieFree(field, ws, Never) else OneGroup(ws) || MergeTieFree(field, ws))
  }

  /** No tie that the order of the rule list would decide: checkable on the writers alone. */
  predicate FieldTieFree(field: string, ws: seq<Rule>) {
    if HasSuppressor(ws) && !HasShield(ws) then OneLeader(ws, SuppressorBeats)
    else SettleTieFree(field, Suppress(field, ws).0)
  }

  // ------------------------------------------------------------- sufficiency

  lemma MapWithout<T(!new), U(!new)>(f: T -> U, s: seq<T>, i: nat)
    requires i < |s|
    ensures multiset(Map(f, s)) == multiset{f(s[i])} + multiset(Map(f, Without(s, i)))
  {
    WithoutCounts(Map(f, s), i);
    assert Without(Map(f, s), i) == Map(f, Without(s, i));
  }

  lemma {:induction false} MapPermutation<T(!new), U(!new)>(f: T -> U, s: seq<T>, t: seq<T>)
    requires multiset(s) == multiset(t)
    ensures multiset(Map(f, s)) == multiset(Map(f, t))
    decreases |s|
  {
    hide Without, Map;
    PermutationMembers(s, t);
    if s != [] {
      assert s[0] in t;
      var i :| 0 <= i < |t| && t[i] == s[0];
      WithoutCounts(s, 0);
      WithoutCounts(t, i);
      WithoutLength(s, 0);
      MapPermutation(f, Without(s, 0), Without(t, i));
      MapWithout(f, s, 0);
      MapWithout(f, t, i);
    }
  }

  lemma WithoutLength<T(!new)>(s: seq<T>, i: nat)
    requires i < |s|
    ensures |Without(s, i)| == |s| - 1
  {
  }

  lemma WithoutPermutation(s: seq<Rule>, i: nat, t: seq<Rule>, j: nat)
    requires multiset(s) == multiset(t) && i < |s| && j < |t| && s[i] == t[j]
    ensures multiset(Without(s, i)) == multiset(Without(t, j))
  {
    WithoutCounts(s, i);
    WithoutCounts(t, j);
  }

  lemma AgreePermutation(field: string, s: seq<Rule>, t: seq<Rule>)
    requires multiset(s) == multiset(t) && s != []
    ensures t != [] && Agree(field, s) == Agree(field, t) && OneGroup(s) == OneGroup(t)
  {
    PermutationMembers(s, t);
    assert s[0] in t && t[0] in s;
  }

  lemma HeaviestPermutation(r: Rule, s: seq<Rule>, t: seq<Rule>)
    requires multiset(s) == multiset(t)
    ensures Heaviest(r, s) == Heaviest(r, t)
  {
    PermutationMembers(s, t);
  }

  lemma TwoPlaces(x: Rule, y: Rule, t: seq<Rule>)
    requires x in t && y in t && x != y && Heaviest(x, t) && Heaviest(y, t)
    ensures exists i, j :: 0 <= i < j < |t| && Heaviest(t[i], t) && Heaviest(t[j], t)
  {
    hide Heaviest;
    var k :| 0 <= k < |t| && t[k] == x;
    var l :| 0 <= l < |t| && t[l] == y;
  }

  lemma GroupFailsPermutation(s: seq<Rule>, t: seq<Rule>)
    requires multiset(s) == multiset(t) && DistinctCodes(s)
    ensures GroupFails(s) ==> GroupFails(t)
  {
    hide Specificity, Heaviest;
    PermutationMembers(s, t);
    if GroupFails(s) {
      var i, j :| 0 <= i < j < |s| && Heaviest(s[i], s) && Heaviest(s[j], s);
      HeaviestPermutation(s[i], s, t);
      HeaviestPermutation(s[j], s, t);
      assert s[i] in s && s[j] in s;
      TwoPlaces(s[i], s[j], t);
      var r :| r in s && Heaviest(r, s) && Specificity(r.conditions).None?;
      HeaviestPermutation(r, s, t);
    }
  }

  lemma OneGroupLeader(ws: seq<Rule>)
    requires DistinctCodes(ws)
    ensures OneLeader(ws, GroupBeats)
  {
    hide SpecificityOr0, Before;
    forall x, y | x in ws && y in ws && IsLeader(x, ws, GroupBeats) && IsLeader(y, ws, GroupBeats) ensures x == y {
      StrLessTotal(x.code, y.code);
      var i :| 0 <= i < |ws| && ws[i] == x;
      var j :| 0 <= j < |ws| && ws[j] == y;
    }
  }

  /** With one leader, permuted sorted lists have the same winner. */
  lemma SameWinner(s: seq<Rule>, t: seq<Rule>, beats: (Rule, Rule) -> bool)
    requires s != [] && multiset(s) == multiset(t) && Sorted(s) && Sorted(t) && WeakOrder(beats)
    ensures t != [] && IsLeader(s[ArgBest(s, beats)], s, beats) && IsLeader(t[ArgBest(t, beats)], s, beats)
  {
    hide IsLeader;
    PermutationMembers(s, t);
    WinnerIsLeader(s, beats);
    WinnerIsLeader(t, beats);
    LeadersOfPermutation(s, t, beats);
  }

  lemma MergeSame(field: string, s: seq<Rule>, t: seq<Rule>)
    requires s != [] && t != [] && multiset(s) == multiset(t) && Sorted(s) && Sorted(t)
    requires MergeTieFree(field, s)
    ensures MergeField(field, s) == MergeField(field, t)
  {
    hide SeverityBeats, ShorterBeats, WeightBeats, DurationMinutes, Sorted, IsLeader;
    PermutationMembers(s, t);
    OrdersAreWeak(field);
    var beats := if field == PRIORITY then SeverityBeats(field)
                 else if field == TARGET_SLA || field == "slaTarget" then ShorterBeats(field) else WeightBeats;
    SameWinner(s, t, beats);
    assert t[ArgBest(t, beats)] in s && s[ArgBest(s, beats)] in s;
  }

  lemma FirstIsLeader(ws: seq<Rule>)
    requires ws != [] && Sorted(ws)
    ensures IsLeader(ws[0], ws, Never)
  {
    forall y | y in ws ensures !Before(y, ws[0]) {
      var j :| 0 <= j < |ws| && ws[j] == y;
    }
  }

  lemma SettleSame(field: string, s: seq<Rule>, t: seq<Rule>)
    requires multiset(s) == multiset(t) && Sorted(s) && Sorted(t) && DistinctCodes(s) && DistinctCodes(t)
    requires SettleTieFree(field, s)
    ensures SameOutcome(Settle(field, s), Settle(field, t))
  {
    hide GroupBeats, MergeField, MergeTieFree, GroupFails, Agree, OneGroup, IsLeader, Sorted, DistinctCodes, Without;
    PermutationMembers(s, t);
    if s != [] {
      AgreePermutation(field, s, t);
      if |s| == 1 {
        assert t[0] in s;
      } else if Agree(field, s) {
        FirstIsLeader(s);
        FirstIsLeader(t);
        LeadersOfPermutation(s, t, Never);
        assert s[0] in s && t[0] in s;
      } else if OneGroup(s) {
        GroupFailsPermutation(s, t);
        GroupFailsPermutation(t, s);
        GroupBeatsIsWeakOrder();
        SameWinner(s, t, GroupBeats);
        OneGroupLeader(s);
        var i, j := ArgBest(s, GroupBeats), ArgBest(t, GroupBeats);
        assert s[i] in s && t[j] in s;
        WithoutPermutation(s, i, t, j);
        MapPermutation(Entry(field, LostTo(s[i].code)), Without(s, i), Without(t, j));
      } else {
        MergeSame(field, s, t);
      }
    }
  }

  lemma {:induction false} DistinctFilter(test: Rule -> bool, rules: seq<Rule>)
    requires DistinctCodes(rules)
    ensures DistinctCodes(Filter(test, rules))
  {
    if rules != [] {
      FilterMembers(test, rules[1..]);
      DistinctFilter(test, rules[1..]);
      var rest := Filter(test, rules[1..]);
      forall r | r in rest ensures r.code != rules[0].code {
        var i :| 0 <= i < |rules[1..]| && rules[1..][i] == r;
        assert rules[i + 1] == r;
      }
      assert forall i :: 0 <= i < |rest| ==> rest[i] in rest;
    }
  }

  lemma DistinctCounts(s: seq<Rule>, k: nat)
    requires DistinctCodes(s) && k < |s|
    ensures multiset(s)[s[k]] == 1
  {
    assert s == s[..k] + [s[k]] + s[k + 1..];
    assert s[k] !in s[..k] && s[k] !in s[k + 1..];
  }

  lemma CountedTwice(t: seq<Rule>, i: nat, j: nat)
    requires i < j < |t| && t[i] == t[j]
    ensures multiset(t)[t[i]] >= 2
  {
    assert t == t[..i] + [t[i]] + t[i + 1..j] + [t[j]] + t[j + 1..];
  }

  lemma SameCodeSameRule(s: seq<Rule>, x: Rule, y: Rule)
    requires DistinctCodes(s) && x in s && y in s && x.code == y.code
    ensures x == y && multiset(s)[x] == 1
  {
    var k :| 0 <= k < |s| && s[k] == x;
    var l :| 0 <= l < |s| && s[l] == y;
    assert k == l;
    DistinctCounts(s, k);
  }

  lemma DistinctPermutation(s: seq<Rule>, t: seq<Rule>)
    requires multiset(s) == multiset(t) && DistinctCodes(s)
    ensures DistinctCodes(t)
  {
    PermutationMembers(s, t);
    forall i, j | 0 <= i < j < |t| ensures t[i].code != t[j].code {
      if t[i].code == t[j].code {
        assert t[i] in t && t[j] in t;
        SameCodeSameRule(s, t[i], t[j]);
        CountedTwice(t, i, j);
      }
    }
  }

  lemma ResolveFieldSame(field: string, s: seq<Rule>, t: seq<Rule>)
    requires multiset(s) == multiset(t) && Sorted(s) && Sorted(t) && DistinctCodes(s) && DistinctCodes(t)
    requires Sorted(Filter(Ordinary(), s)) && Sorted(Filter(Ordinary(), t))
    requires FieldTieFree(field, s)
    ensures SameOutcome(ResolveField(field, s), ResolveField(field, t))
  {
    hide Settle, SettleTieFree, Sorted, DistinctCodes, IsLeader, SuppressorBeats, Filter, Without;
    PermutationMembers(s, t);
    assert HasSuppressor(s) == HasSuppressor(t) && HasShield(s) == HasShield(t);
    if !HasSuppressor(s) {
      SettleSame(field, s, t);
    } else if HasShield(s) {
      FilterPermutation(Ordinary(), s, t);
      FilterPermutation(Suppressor(), s, t);
      DistinctFilter(Ordinary(), s);
      DistinctFilter(Ordinary(), t);
      SettleSame(field, Filter(Ordinary(), s), Filter(Ordinary(), t));
      MapPermutation(Entry(field, Overridden), Filter(Suppressor(), s), Filter(Suppressor(), t));
    } else {
      OrdersAreWeak(field);
      SameWinner(s, t, SuppressorBeats);
      var i, j := ArgBest(s, SuppressorBeats), ArgBest(t, SuppressorBeats);
      assert s[i] in s && t[j] in s;
      WithoutPermutation(s, i, t, j);
      MapPermutation(Entry(field, SuppressedBy(s[i].code)), Without(s, i), Without(t, j));
      SettleOne(field, s[i]);
    }
  }

  lemma SettleOne(field: string, r: Rule)
    ensures Settle(field, [r]) == Done(Resolution(Some(Get(r.actions, field)), []))
  {
  }

  /** Reordering a pack cannot be seen in a field whose writers have no tie. */
  lemma TieFreeFieldIgnoresOrder(P: seq<Rule>, Q: seq<Rule>, data: Object, field: string)
    requires DistinctCodes(P) && multiset(P) == multiset(Q)
    requires FieldTieFree(field, Writers(field, Matched(P, data)))
    ensures SameOutcome(FieldResult(field, Matched(P, data)), FieldResult(field, Matched(Q, data)))
  {
    hide ResolveField, FieldTieFree, SameOutcome, Sorted, Sort, VerdictOn;
    WritersAreSorted(P, data, field);
    WritersAreSorted(Q, data, field);
    SortedPermutation(WriterTest(data, field), P, Q);
    SortedPermutation(OrdinaryWriterTest(data, field), P, Q);
    DistinctFilter(WriterTest(data, field), P);
    SortProperties(Filter(WriterTest(data, field), P));
    var s, t := Writers(field, Matched(P, data)), Writers(field, Matched(Q, data));
    DistinctPermutation(Filter(WriterTest(data, field), P), s);
    DistinctPermutation(s, t);
    ResolveFieldSame(field, s, t);
  }

  // ---------------------------------------------------------------- necessity

  /** The same rules with the i-th one first. */
  function ToFront(P: seq<Rule>, i: nat): seq<Rule>
    requires i < |P|
  {
    [P[i]] + Without(P, i)
  }

  lemma FrontSorts(P: seq<Rule>, i: nat, test: Rule -> bool)
    requires i < |P| && test(P[i])
    ensures multiset(ToFront(P, i)) == multiset(P)
    ensures Sort(Filter(test, ToFront(P, i))) == Insert(P[i], Sort(Filter(test, Without(P, i))))
  {
    WithoutCounts(P, i);
    FilterCons(test, P[i], Without(P, i));
    SortCons(P[i], Filter(test, Without(P, i)));
  }

  /** Moving a leader to the front of the pack makes it the winner. */
  lemma FrontWins(P: seq<Rule>, i: nat, test: Rule -> bool, beats: (Rule, Rule) -> bool)
    requires i < |P| && WeakOrder(beats) && IsLeader(P[i], Sort(Filter(test, P)), beats) && test(P[i])
    ensures var t := Sort(Filter(test, ToFront(P, i))); t != [] && t[ArgBest(t, beats)] == P[i]
  {
    hide IsLeader, Before;
    FrontSorts(P, i, test);
    SortedPermutation(test, P, ToFront(P, i));
    LeadersOfPermutation(Sort(Filter(test, P)), Sort(Filter(test, ToFront(P, i))), beats);
    FrontLeaderWins(P[i], Sort(Filter(test, Without(P, i))), beats);
  }

  /** The order that picks the value when nothing else settles the field. */
  function SettleOrder(field: string, ws: seq<Rule>): (Rule, Rule) -> bool {
    if Agree(field, ws) then Never
    else if field == PRIORITY then SeverityBeats(field)
    else if field == TARGET_SLA || field == "slaTarget" then ShorterBeats(field)
    else WeightBeats
  }

  lemma SettleOrderIsWeak(field: string, ws: seq<Rule>)
    ensures WeakOrder(SettleOrder(field, ws))
  {
    OrdersAreWeak(field);
  }

  lemma NeverPicksFirst(ws: seq<Rule>)
    requires ws != []
    ensures ArgBest(ws, Never) == 0
  {
    ArgBestIsFirst(ws, Never);
    FirstBestUnique(ws, Never, 0, ArgBest(ws, Never));
  }

  /** A field with a tie takes its value from the pick, and two leaders disagree about it. */
  lemma LeakPicks(field: string, ws: seq<Rule>)
    requires !SettleTieFree(field, ws)
    ensures ws != [] && !TieFree(field, ws, SettleOrder(field, ws))
    ensures Settle(field, ws) == Done(Resolution(Some(Get(ws[ArgBest(ws, SettleOrder(field, ws))].actions, field)), []))
  {
    hide TieFree, SeverityBeats, ShorterBeats, WeightBeats, DurationMinutes, GroupFails, GroupBeats;
    NeverPicksFirst(ws);
  }

  lemma TieFreePermutation(field: string, s: seq<Rule>, t: seq<Rule>)
    requires multiset(s) == multiset(t) && !SettleTieFree(field, s)
    ensures !SettleTieFree(field, t) && SettleOrder(field, t) == SettleOrder(field, s)
  {
    hide IsLeader, SeverityBeats, ShorterBeats, WeightBeats, DurationMinutes, Agree, OneGroup;
    PermutationMembers(s, t);
    AgreePermutation(field, s, t);
    LeadersOfPermutation(s, t, SettleOrder(field, s));
  }

  /** A leader other than the current pick, with another value for the field. */
  lemma Rival(field: string, ws: seq<Rule>, beats: (Rule, Rule) -> bool, w: Rule) returns (z: Rule)
    requires !TieFree(field, ws, beats)
    ensures z in ws && IsLeader(z, ws, beats) && Get(z.actions, field) != Get(w.actions, field)
  {
    hide IsLeader;
    var x, y :| x in ws && y in ws && IsLeader(x, ws, beats) && IsLeader(y, ws, beats)
                && Get(x.actions, field) != Get(y.actions, field);
    z := if Get(x.actions, field) != Get(w.actions, field) then x else y;
  }

  /** Some reordering of the pack changes what a tied field settles to. */
  lemma SettleLeaks(P: seq<Rule>, test: Rule -> bool, field: string) returns (Q: seq<Rule>)
    requires !SettleTieFree(field, Sort(Filter(test, P)))
    ensures multiset(Q) == multiset(P)
    ensures var s, t := Sort(Filter(test, P)), Sort(Filter(test, Q));
            && Settle(field, s).Done? && Settle(field, t).Done?
            && Settle(field, s).value.value != Settle(field, t).value.value
  {
    hide SettleTieFree, Settle, TieFree, SettleOrder, IsLeader, Without;
    var s := Sort(Filter(test, P));
    var beats := SettleOrder(field, s);
    SettleOrderIsWeak(field, s);
    LeakPicks(field, s);
    var z := Rival(field, s, beats, s[ArgBest(s, beats)]);
    SortedPermutation(test, P, P);
    var i :| 0 <= i < |P| && P[i] == z;
    Q := ToFront(P, i);
    FrontSorts(P, i, test);
    FrontWins(P, i, test, beats);
    var t := Sort(Filter(test, Q));
    SortedPermutation(test, P, Q);
    TieFreePermutation(field, s, t);
    LeakPicks(field, t);
  }

  lemma OtherLeader(ws: seq<Rule>, beats: (Rule, Rule) -> bool, w: Rule) returns (z: Rule)
    requires !OneLeader(ws, beats)
    ensures z in ws && IsLeader(z, ws, beats) && z != w
  {
    hide IsLeader;
    var x, y :| x in ws && y in ws && IsLeader(x, ws, beats) && IsLeader(y, ws, beats) && x != y;
    z := if x != w then x else y;
  }

  lemma DistinctByCode(P: seq<Rule>, x: Rule, y: Rule)
    requires DistinctCodes(P) && x in P && y in P && x != y
    ensures x.code != y.code
  {
    var i :| 0 <= i < |P| && P[i] == x;
    var j :| 0 <= j < |P| && P[j] == y;
  }

  lemma WinnerLeaks(P: seq<Rule>, test: Rule -> bool, beats: (Rule, Rule) -> bool) returns (Q: seq<Rule>)
    requires DistinctCodes(P) && WeakOrder(beats)
    requires Sort(Filter(test, P)) != [] && !OneLeader(Sort(Filter(test, P)), beats)
    ensures multiset(Q) == multiset(P)
    ensures var s, t := Sort(Filter(test, P)), Sort(Filter(test, Q));
            t != [] && s[ArgBest(s, beats)].code != t[ArgBest(t, beats)].code
  {
    hide IsLeader, Without, Sort, Filter, DistinctCodes, OneLeader;
    var s := Sort(Filter(test, P));
    var w := s[ArgBest(s, beats)];
    assert w in s;
    var z := OtherLeader(s, beats, w);
    SortedPermutation(test, P, P);
    DistinctByCode(P, w, z);
    var i :| 0 <= i < |P| && P[i] == z;
    Q := ToFront(P, i);
    FrontSorts(P, i, test);
    FrontWins(P, i, test, beats);
  }

  /** The one suppressor left standing is named in every entry, so another winner means another log. */
  lemma SuppressorLeaks(P: seq<Rule>, data: Object, field: string) returns (Q: seq<Rule>)
    requires DistinctCodes(P)
    requires var ws := Writers(field, Matched(P, data));
             HasSuppressor(ws) && !HasShield(ws) && !OneLeader(ws, SuppressorBeats)
    ensures multiset(Q) == multiset(P)
    ensures !SameOutcome(FieldResult(field, Matched(P, data)), FieldResult(field, Matched(Q, data)))
  {
    hide Matched, Sort, SuppressorBeats, IsLeader, ResolveField, Filter, OneLeader, DistinctCodes;
    var test := WriterTest(data, field);
    WritersAreSorted(P, data, field);
    OrdersAreWeak(field);
    var s := Writers(field, Matched(P, data));
    SuppressedLog(field, s);
    Q := WinnerLeaks(P, test, SuppressorBeats);
    WritersAreSorted(Q, data, field);
    SortedPermutation(test, P, Q);
    var t := Writers(field, Matched(Q, data));
    PermutationMembers(s, t);
    SuppressedLog(field, t);
    TwoWriters(s);
    LogsDiffer(ResolveField(field, s).value.log, ResolveField(field, t).value.log,
               s[ArgBest(s, SuppressorBeats)].code, t[ArgBest(t, SuppressorBeats)].code);
  }

  lemma TwoWriters(ws: seq<Rule>)
    requires !OneLeader(ws, SuppressorBeats)
    ensures |ws| > 1
  {
    hide IsLeader;
  }

  lemma SuppressedLog(field: string, ws: seq<Rule>)
    requires HasSuppressor(ws) && !HasShield(ws)
    ensures ws != [] && ResolveField(field, ws).Done?
    ensures var log := ResolveField(field, ws).value.log;
            |log| == |ws| - 1 && forall e :: e in log ==>
              e.reason == SuppressedBy(ws[ArgBest(ws, SuppressorBeats)].code)
  {
    var w := ws[ArgBest(ws, SuppressorBeats)];
    SettleOne(field, w);
  }

  lemma LogsDiffer(a: seq<Suppression>, b: seq<Suppression>, m: string, n: string)
    requires a != [] && m != n
    requires (forall e :: e in a ==> e.reason == SuppressedBy(m))
             && (forall e :: e in b ==> e.reason == SuppressedBy(n))
    ensures multiset(a) != multiset(b)
  {
    assert a[0] in multiset(a) && a[0] !in b;
  }

  /** The order of the rule list leaks into a field exactly when the field has a tie: with distinct rule codes, every
      reordering of the pack gives the field the same value and the same log entries, and raises alike, if and only if
      the field's writers are tie-free. */
  lemma OrderLeaksExactly(P: seq<Rule>, data: Object, field: string)
    requires DistinctCodes(P)
    ensures FieldTieFree(field, Writers(field, Matched(P, data))) <==>
            forall Q :: multiset(Q) == multiset(P) ==>
              SameOutcome(FieldResult(field, Matched(P, data)), FieldResult(field, Matched(Q, data)))
  {
    hide FieldTieFree, SameOutcome, FieldResult, Matched;
    var ws := Writers(field, Matched(P, data));
    if FieldTieFree(field, ws) {
      forall Q | multiset(Q) == multiset(P)
        ensures SameOutcome(FieldResult(field, Matched(P, data)), FieldResult(field, Matched(Q, data)))
      {
        TieFreeFieldIgnoresOrder(P, Q, data, field);
      }
    } else {
      var Q := LeakyReordering(P, data, field);
    }
  }

  lemma LeakyReordering(P: seq<Rule>, data: Object, field: string) returns (Q: seq<Rule>)
    requires DistinctCodes(P) && !FieldTieFree(field, Writers(field, Matched(P, data)))
    ensures multiset(Q) == multiset(P)
    ensures !SameOutcome(FieldResult(field, Matched(P, data)), FieldResult(field, Matched(Q, data)))
  {
    hide Matched, Sort, Settle, SettleTieFree, OneLeader, Filter;
    var ws := Writers(field, Matched(P, data));
    WritersAreSorted(P, data, field);
    if HasSuppressor(ws) && !HasShield(ws) {
      Q := SuppressorLeaks(P, data, field);
    } else {
      var test := if HasSuppressor(ws) then OrdinaryWriterTest(data, field) else WriterTest(data, field);
      Q := SettleLeaks(P, test, field);
      WritersAreSorted(Q, data, field);
      SortedPermutation(WriterTest(data, field), P, Q);
      PermutationMembers(ws, Writers(field, Matched(Q, data)));
    }
  }

  // ------------------------------------------------------------ the whole pack

  lemma MatchedPermutation(P: seq<Rule>, Q: seq<Rule>, data: Object)
    requires multiset(P) == multiset(Q)
    ensures multiset(Matched(P, data)) == multiset(Matched(Q, data))
    ensures PolicyFails(P, data) == PolicyFails(Q, data)
  {
    hide VerdictOn;
    PermutationMembers(P, Q);
    FilterPermutation(IsActive, P, Q);
    SortProperties(Filter(IsActive, P));
    SortProperties(Filter(IsActive, Q));
    FilterPermutation(MatchTest(data), ActiveRules(P), ActiveRules(Q));
  }

  lemma ModifiersPermutation(s: seq<Rule>, t: seq<Rule>)
    requires multiset(s) == multiset(t)
    ensures HasFloor(s) == HasFloor(t) && TopFloor(s) == TopFloor(t) && |Filter(Bumps(), s)| == |Filter(Bumps(), t)|
  {
    hide SeverityIndex, Filter, Truthy;
    PermutationMembers(s, t);
    FilterPermutation(Bumps(), s, t);
    PermutationMembers(Filter(Bumps(), s), Filter(Bumps(), t));
    forall i: nat ensures HasFloorAt(s, i) == HasFloorAt(t, i) { }
  }

  lemma PostprocessPermutation(actions: Object, s: seq<Rule>, t: seq<Rule>)
    requires multiset(s) == multiset(t)
    ensures Postprocess(actions, s) == Postprocess(actions, t)
  {
    hide HasFloor, TopFloor, Filter, SeverityIndex, Bumped;
    ModifiersPermutation(s, t);
  }

  lemma TotalWithout(s: seq<Rule>, i: nat)
    requires i < |s|
    ensures Total(s) == Contribution(s[i]) + Total(Without(s, i))
  {
    hide Contribution, Total;
    assert s == s[..i] + ([s[i]] + s[i + 1..]);
    TotalAppend(s[..i], [s[i]] + s[i + 1..]);
    TotalAppend([s[i]], s[i + 1..]);
    TotalAppend(s[..i], s[i + 1..]);
    OneTotal(s[i]);
  }

  lemma {:induction false} TotalPermutation(s: seq<Rule>, t: seq<Rule>)
    requires multiset(s) == multiset(t)
    ensures Total(s) == Total(t)
    decreases |s|
  {
    hide Contribution, Without, Total;
    PermutationMembers(s, t);
    if s == [] {
      assert t == [];
    } else {
      assert s[0] in t;
      var i :| 0 <= i < |t| && t[i] == s[0];
      WithoutCounts(s, 0);
      WithoutCounts(t, i);
      WithoutLength(s, 0);
      TotalPermutation(Without(s, 0), Without(t, i));
      TotalWithout(s, 0);
      TotalWithout(t, i);
    }
  }

  lemma OneTotal(r: Rule)
    ensures Total([r]) == Contribution(r)
  {
    assert [r][1..] == [];
  }

  /** The logs of two orders hold the same entries, field by field. */
  ghost predicate SameLog(a: map<string, seq<Suppression>>, b: map<string, seq<Suppression>>) {
    a.Keys == b.Keys && forall f :: f in a ==> multiset(a[f]) == multiset(b[f])
  }

  lemma SameFieldsSameResolution(s: seq<Rule>, t: seq<Rule>)
    requires multiset(s) == multiset(t)
    requires forall f :: f in Fields(s) ==> SameOutcome(FieldResult(f, s), FieldResult(f, t))
    ensures Resolve(s).Done? == Resolve(t).Done?
    ensures Resolve(s).Done? ==> Resolve(s).value.actions == Resolve(t).value.actions
                                 && SameLog(Resolve(s).value.log, Resolve(t).value.log)
  {
    hide FieldResult, Postprocess, Mitigations, SameLog;
    PermutationMembers(s, t);
    assert Fields(s) == Fields(t);
    if !ResolveFails(s) {
      assert Merged(s) == Merged(t);
      PostprocessPermutation(Merged(s), s, t);
      SameLogs(s, t);
    } else {
      var f :| f in Fields(s) && FieldResult(f, s).Raised?;
      assert FieldResult(f, t).Raised?;
    }
  }

  lemma SameLogs(s: seq<Rule>, t: seq<Rule>)
    requires Fields(s) == Fields(t) && !ResolveFails(s) && !ResolveFails(t)
    requires forall f :: f in Fields(s) ==> SameOutcome(FieldResult(f, s), FieldResult(f, t))
    ensures SameLog(LogOf(s), LogOf(t))
  {
    hide FieldResult, Fields;
    forall f | f in Fields(s)
      ensures multiset(FieldResult(f, s).value.log) == multiset(FieldResult(f, t).value.log)
      ensures FieldResult(f, s).value.log == [] <==> FieldResult(f, t).value.log == []
    {
      assert SameOutcome(FieldResult(f, s), FieldResult(f, t));
      PermutationMembers(FieldResult(f, s).value.log, FieldResult(f, t).value.log);
    }
  }

  lemma SameCodes(a: map<string, seq<Suppression>>, b: map<string, seq<Suppression>>)
    requires SameLog(a, b)
    ensures SuppressedCodes(a) == SuppressedCodes(b)
  {
    forall f | f in a ensures forall s :: s in a[f] <==> s in b[f] { PermutationMembers(a[f], b[f]); }
    forall c ensures c in SuppressedCodes(a) <==> c in SuppressedCodes(b) { }
  }

  function RiskOf(matched: seq<Rule>): int
    requires Resolve(matched).Done?
  {
    Clamp(Total(Filter(Counted(SuppressedCodes(Resolve(matched).value.log)), matched)))
  }

  /** Without ties, permuting a pack's rule list changes neither whether resolution raises, nor the resolved actions,
      nor the logged entries, nor the risk score. */
  lemma TieFreePackIgnoresOrder(P: seq<Rule>, Q: seq<Rule>, data: Object)
    requires DistinctCodes(P) && multiset(P) == multiset(Q)
    requires forall f :: f in Fields(Matched(P, data)) ==> FieldTieFree(f, Writers(f, Matched(P, data)))
    ensures PolicyFails(P, data) == PolicyFails(Q, data)
    ensures var p, q := Resolve(Matched(P, data)), Resolve(Matched(Q, data));
            && p.Done? == q.Done?
            && (p.Done? ==> && p.value.actions == q.value.actions && SameLog(p.value.log, q.value.log)
                            && RiskOf(Matched(P, data)) == RiskOf(Matched(Q, data)))
  {
    hide Matched, FieldTieFree, SameOutcome, FieldResult, Resolve, Fields, SameLog, Filter;
    var s, t := Matched(P, data), Matched(Q, data);
    MatchedPermutation(P, Q, data);
    forall f | f in Fields(s) ensures SameOutcome(FieldResult(f, s), FieldResult(f, t)) {
      TieFreeFieldIgnoresOrder(P, Q, data, f);
    }
    SameFieldsSameResolution(s, t);
    if Resolve(s).Done? {
      SameCodes(Resolve(s).value.log, Resolve(t).value.log);
      var counted := Counted(SuppressedCodes(Resolve(s).value.log));
      FilterPermutation(counted, s, t);
      TotalPermutation(Filter(counted, s), Filter(counted, t));
    }
  }
}
