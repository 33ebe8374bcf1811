/** Small datatypes and sequence facts shared by every module. */
module Common {
  datatype Option<+T> = None | Some(value: T)

  /** The result of a computation that may end in a Python exception. */
  datatype Try<+T> = Done(value: T) | Raised

  /** Keeps the elements that satisfy `p`, in order. */
  function Filter<T(!new)>(p: T -> bool, s: seq<T>): (r: seq<T>)
    ensures |r| <= |s|
  {
    if s == [] then []
    else (if p(s[0]) then [s[0]] else []) + Filter(p, s[1..])
  }

  lemma {:induction false} FilterMembers<T(!new)>(p: T -> bool, s: seq<T>)
    ensures forall x :: x in Filter(p, s) <==> x in s && p(x)
  {
    if s != [] {
      FilterMembers(p, s[1..]);
      assert s == [s[0]] + s[1..];
    }
  }

  lemma FilterCons<T(!new)>(p: T -> bool, x: T, s: seq<T>)
    ensures Filter(p, [x] + s) == (if p(x) then [x] else []) + Filter(p, s)
  {
    assert ([x] + s)[1..] == s;
  }

  function Map<T, U>(f: T -> U, s: seq<T>): (r: seq<U>)
    ensures |r| == |s|
    ensures forall i :: 0 <= i < |s| ==> r[i] == f(s[i])
  {
    seq(|s|, i requires 0 <= i < |s| => f(s[i]))
  }

  lemma {:induction false} FilterAppend<T(!new)>(p: T -> bool, s: seq<T>, t: seq<T>)
    ensures Filter(p, s + t) == Filter(p, s) + Filter(p, t)
  {
    if s == [] {
      assert s + t == t;
    } else {
      var head := if p(s[0]) then [s[0]] else [];
      assert s + t == [s[0]] + (s[1..] + t);
      FilterCons(p, s[0], s[1..] + t);
      FilterAppend(p, s[1..], t);
      assert head + (Filter(p, s[1..]) + Filter(p, t)) == (head + Filter(p, s[1..])) + Filter(p, t);
    }
  }

  /** One more step of a left-to-right loop. */
  lemma FilterStep<T(!new)>(p: T -> bool, s: seq<T>, i: nat)
    requires i < |s|
    ensures Filter(p, s[..i + 1]) == Filter(p, s[..i]) + (if p(s[i]) then [s[i]] else [])
  {
    assert s[..i + 1] == s[..i] + [s[i]];
    FilterAppend(p, s[..i], [s[i]]);
  }

  lemma {:induction false} FilterCongruent<T(!new)>(p: T -> bool, q: T -> bool, s: seq<T>)
    requires forall x :: x in s ==> p(x) == q(x)
    ensures Filter(p, s) == Filter(q, s)
  {
    if s != [] {
      FilterCongruent(p, q, s[1..]);
    }
  }

  /** Filtering twice is filtering by the conjunction. */
  lemma {:induction false} FilterFilter<T(!new)>(p: T -> bool, q: T -> bool, both: T -> bool, s: seq<T>)
    requires forall x :: x in s ==> both(x) == (p(x) && q(x))
    ensures Filter(p, Filter(q, s)) == Filter(both, s)
  {
    if s != [] {
      FilterFilter(p, q, both, s[1..]);
      FilterAppend(p, if q(s[0]) then [s[0]] else [], Filter(q, s[1..]));
    }
  }

  lemma FilterCommute<T(!new)>(p: T -> bool, q: T -> bool, s: seq<T>)
    ensures Filter(p, Filter(q, s)) == Filter(q, Filter(p, s))
  {
    var both := (x: T) => p(x) && q(x);
    FilterFilter(p, q, both, s);
    FilterFilter(q, p, both, s);
  }

  /** A test that only holds inside `within` sees no difference when the rest is dropped first. */
  lemma FilterWithin<T(!new)>(p: T -> bool, within: T -> bool, s: seq<T>)
    requires forall x :: x in s && p(x) ==> within(x)
    ensures Filter(p, Filter(within, s)) == Filter(p, s)
  {
    FilterFilter(p, within, p, s);
  }

  lemma {:induction false} FilterAll<T(!new)>(p: T -> bool, s: seq<T>)
    requires forall x :: x in s ==> p(x)
    ensures Filter(p, s) == s
  {
    if s != [] {
      FilterAll(p, s[1..]);
    }
  }

  lemma {:induction false} FilterNone<T(!new)>(p: T -> bool, s: seq<T>)
    requires forall x :: x in s ==> !p(x)
    ensures Filter(p, s) == []
  {
    if s != [] {
      FilterNone(p, s[1..]);
    }
  }

  lemma {:induction false} FilterCount<T(!new)>(p: T -> bool, s: seq<T>, x: T)
    ensures multiset(Filter(p, s))[x] == if p(x) then multiset(s)[x] else 0
  {
    if s != [] {
      FilterCount(p, s[1..], x);
      assert s == [s[0]] + s[1..];
      var head := if p(s[0]) then [s[0]] else [];
      assert multiset(Filter(p, s)) == multiset(head) + multiset(Filter(p, s[1..]));
    }
  }

  /** Filtering a permutation gives a permutation of the filtered sequence. */
  lemma FilterPermutation<T(!new)>(p: T -> bool, s: seq<T>, t: seq<T>)
    requires multiset(s) == multiset(t)
    ensures multiset(Filter(p, s)) == multiset(Filter(p, t))
  {
    forall x ensures multiset(Filter(p, s))[x] == multiset(Filter(p, t))[x] {
      FilterCount(p, s, x);
      FilterCount(p, t, x);
    }
  }

  lemma MapAppend<T(!new), U(!new)>(f: T -> U, s: seq<T>, t: seq<T>)
    ensures Map(f, s + t) == Map(f, s) + Map(f, t)
  {
  }

  lemma {:induction false} FilterMap<T(!new), U(!new)>(p: U -> bool, q: T -> bool, f: T -> U, s: seq<T>)
    requires forall x :: x in s ==> p(f(x)) == q(x)
    ensures Filter(p, Map(f, s)) == Map(f, Filter(q, s))
  {
    if s != [] {
      assert Map(f, s)[1..] == Map(f, s[1..]);
      FilterMap(p, q, f, s[1..]);
    }
  }

  lemma PermutationMembers<T(!new)>(s: seq<T>, t: seq<T>)
    requires multiset(s) == multiset(t)
    ensures |s| == |t|
    ensures forall x :: x in s <==> x in t
  {
    assert |multiset(s)| == |s| && |multiset(t)| == |t|;
    forall x ensures x in s <==> x in t {
      assert x in s <==> x in multiset(s);
      assert x in t <==> x in multiset(t);
    }
  }

  // ------------------------------------------------- max() with a tie rule

  /** Python's `max(s, key=...)`: the first element that no other one beats. */
  function ArgBest<T>(s: seq<T>, beats: (T, T) -> bool): (i: nat)
    requires s != []
    ensures i < |s|
  {
    var last := |s| - 1;
    if last == 0 then 0
    else
      var best := ArgBest(s[..last], beats);
      if beats(s[last], s[best]) then last else best
  }

  ghost predicate WeakOrder<T(!new)>(beats: (T, T) -> bool) {
    && (forall a, b :: beats(a, b) ==> !beats(b, a))
    && (forall a, b, c :: beats(a, b) ==> beats(a, c) || beats(c, b))
  }

  predicate FirstBest<T>(s: seq<T>, beats: (T, T) -> bool, i: nat) {
    && i < |s|
    && (forall j :: 0 <= j < |s| ==> !beats(s[j], s[i]))
    && (forall j :: 0 <= j < i ==> beats(s[i], s[j]))
  }

  lemma {:induction false} ArgBestIsFirst<T(!new)>(s: seq<T>, beats: (T, T) -> bool)
    requires s != [] && WeakOrder(beats)
    ensures FirstBest(s, beats, ArgBest(s, beats))
  {
    var last := |s| - 1;
    if last > 0 {
      ArgBestIsFirst(s[..last], beats);
      var best := ArgBest(s[..last], beats);
      if beats(s[last], s[best]) {
        forall j | 0 <= j < last ensures beats(s[last], s[j]) {
          assert s[..last][j] == s[j] && !beats(s[j], s[best]);
        }
      }
    }
  }

  lemma FirstBestUnique<T>(s: seq<T>, beats: (T, T) -> bool, i: nat, j: nat)
    requires FirstBest(s, beats, i) && FirstBest(s, beats, j)
    ensures i == j
  {
    var x, y := s[i], s[j];
  }

  lemma {:induction false} ArgBestMap<T(!new), U(!new)>(s: seq<T>, f: T -> U, beats: (T, T) -> bool,
                                        beats': (U, U) -> bool)
    requires s != [] && forall a, b :: beats'(f(a), f(b)) == beats(a, b)
    ensures ArgBest(Map(f, s), beats') == ArgBest(s, beats)
  {
    var last := |s| - 1;
    if last > 0 {
      assert Map(f, s)[..last] == Map(f, s[..last]);
      ArgBestMap(s[..last], f, beats, beats');
    }
  }

  /** `[x for x in s if x is not s[i]]` */
  function Without<T>(s: seq<T>, i: nat): seq<T>
    requires i < |s|
  {
    s[..i] + s[i + 1..]
  }

  lemma WithoutCounts<T(!new)>(s: seq<T>, i: nat)
    requires i < |s|
    ensures multiset{s[i]} + multiset(Without(s, i)) == multiset(s)
    ensures multiset(Without(s, i)) == multiset(s) - multiset{s[i]}
  {
    assert s == s[..i] + [s[i]] + s[i + 1..];
    assert multiset(s) == multiset(s[..i]) + multiset{s[i]} + multiset(s[i + 1..]);
    assert multiset(Without(s, i)) == multiset(s[..i]) + multiset(s[i + 1..]);
  }
}
