/** Parent versions: every chain ends, and rolling back along it gets to its root. */
module LineageTheorems {
  import opened Common
  import opened Store
  import opened Lifecycle
  import opened LifecycleTheorems

  /** The slot of the version a pack came from. */
  function ParentOf(s: Slots, i: nat): Option<nat>
    requires i < |s|
  {
    if s[i].pack.parentVersion.None? then None else Find(s, HasKey(Key(s[i].pack.name, s[i].pack.parentVersion.value)))
  }

  /** Parents precede their children in the store, whatever their version numbers. */
  lemma ParentPrecedes(s: Slots, i: nat)
    requires Shaped(s) && i < |s| && s[i].pack.parentVersion.Some?
    ensures ParentOf(s, i).Some? && ParentOf(s, i).value < i
    ensures s[ParentOf(s, i).value].pack.name == s[i].pack.name
  {
    hide Identified;
    assert HasParent(s, i);
    var j :| 0 <= j < i && s[j].key == Key(s[i].pack.name, s[i].pack.parentVersion.value);
    assert HasKey(Key(s[i].pack.name, s[i].pack.parentVersion.value))(s[j]);
  }

  /** The slots of a pack and its ancestors. */
  ghost function Chain(s: Slots, i: nat): (c: seq<nat>)
    requires Shaped(s) && i < |s|
    decreases i
  {
    if s[i].pack.parentVersion.None? then [i]
    else
      ParentPrecedes(s, i);
      [i] + Chain(s, ParentOf(s, i).value)
  }

  ghost predicate Descending(c: seq<nat>) { forall a, b :: 0 <= a < b < |c| ==> c[a] > c[b] }

  /** Slots up to `i`, all of its name. */
  ghost predicate Within(s: Slots, c: seq<nat>, i: nat)
    requires i < |s|
  {
    forall k :: 0 <= k < |c| ==> c[k] <= i && s[c[k]].pack.name == s[i].pack.name
  }

  ghost predicate EndsAtRoot(s: Slots, c: seq<nat>) {
    c != [] && c[|c| - 1] < |s| && s[c[|c| - 1]].pack.parentVersion.None?
  }

  lemma {:induction false} ChainDescends(s: Slots, i: nat)
    requires Shaped(s) && i < |s|
    ensures Chain(s, i) != [] && Chain(s, i)[0] == i && Descending(Chain(s, i))
    ensures Within(s, Chain(s, i), i)
    ensures EndsAtRoot(s, Chain(s, i))
    decreases i
  {
    hide Shaped, ParentOf;
    if s[i].pack.parentVersion.Some? {
      ParentPrecedes(s, i);
      var p := ParentOf(s, i).value;
      ChainDescends(s, p);
      var rest := Chain(s, p);
      assert Chain(s, i) == [i] + rest;
    }
  }

  lemma {:induction false} ChainFits(s: Slots, i: nat, n: nat)
    requires Shaped(s) && i < n <= |s|
    ensures |Chain(s, i)| <= |VersionsOf(s[..n], s[i].pack.name)|
    decreases n
  {
    hide Shaped;
    var name := s[i].pack.name;
    assert s[..n] == s[..n - 1] + [s[n - 1]];
    VersionsAppend(s[..n - 1], s[n - 1], name);
    if i < n - 1 {
      ChainFits(s, i, n - 1);
    } else if s[i].pack.parentVersion.Some? {
      ParentPrecedes(s, i);
      ChainFits(s, ParentOf(s, i).value, n - 1);
    }
  }

  lemma VersionsCons(x: Slot, s: Slots, name: string)
    ensures VersionsOf([x] + s, name) == (if x.pack.name == name then [x.pack.version] else []) + VersionsOf(s, name)
  {
    assert ([x] + s)[1..] == s;
  }

  lemma {:induction false} VersionsAppend(s: Slots, x: Slot, name: string)
    ensures VersionsOf(s + [x], name) == VersionsOf(s, name) + (if x.pack.name == name then [x.pack.version] else [])
  {
    VersionsCons(x, [], name);
    if s == [] {
      assert s + [x] == [x] + [];
    } else {
      assert s + [x] == [s[0]] + (s[1..] + [x]) && s == [s[0]] + s[1..];
      VersionsCons(s[0], s[1..] + [x], name);
      VersionsCons(s[0], s[1..], name);
      VersionsAppend(s[1..], x, name);
    }
  }

  /** Lineage is well-founded in every reachable store: a chain never repeats a pack, stays within the name, ends at a
      root, and takes fewer steps than the name has versions. */
  lemma LineageIsWellFounded(ops: seq<Op>, i: nat)
    requires LegalRun([], ops) && i < |RunOps([], ops)|
    ensures Shaped(RunOps([], ops))
    ensures var s := RunOps([], ops); var c := Chain(s, i);
            && Descending(c) && c != [] && c[0] == i && Within(s, c, i) && EndsAtRoot(s, c)
            && |c| - 1 < |VersionsOf(s, s[i].pack.name)|
  {
    hide RunOps, LegalRun, Shaped, OneActive, Evolves, KeepsActives;
    EmptyInv();
    RunIsGood([], ops);
    var s := RunOps([], ops);
    ChainDescends(s, i);
    ChainFits(s, i, |s|);
    assert s[..|s|] == s;
  }

  // --------------------------------------------------------- rolling back

  /** One rollback from each version on the chain that has a parent. */
  ghost function Rollbacks(s: Slots, i: nat, now: int): seq<Op>
    requires Shaped(s) && i < |s|
    decreases i
  {
    if s[i].pack.parentVersion.None? then []
    else
      ParentPrecedes(s, i);
      [OpRollback(s[i].pack.name, s[i].pack.version, None, now)] + Rollbacks(s, ParentOf(s, i).value, now)
  }

  ghost predicate AllSucceed(s: Slots, ops: seq<Op>)
    decreases |ops|
  {
    ops == [] || (Step(s, ops[0]).Ok? && AllSucceed(Next(s, ops[0]), ops[1..]))
  }

  predicate SameOrigin(a: Slot, b: Slot) {
    b.key == a.key && b.pack.name == a.pack.name && b.pack.version == a.pack.version
      && b.pack.parentVersion == a.pack.parentVersion
  }

  ghost predicate SameLineage(s: Slots, t: Slots) {
    |s| == |t| && forall i :: 0 <= i < |s| ==> SameOrigin(s[i], t[i])
  }

  lemma SameParent(s: Slots, t: Slots, i: nat)
    requires SameLineage(s, t) && i < |s|
    ensures ParentOf(s, i) == ParentOf(t, i)
  {
    if s[i].pack.parentVersion.Some? {
      var test := HasKey(Key(s[i].pack.name, s[i].pack.parentVersion.value));
      assert forall j :: 0 <= j < |s| ==> test(s[j]) == test(t[j]);
    }
  }

  lemma {:induction false} SameRollbacks(s: Slots, t: Slots, i: nat, now: int)
    requires Shaped(s) && Shaped(t) && SameLineage(s, t) && i < |s|
    ensures Rollbacks(s, i, now) == Rollbacks(t, i, now) && Chain(s, i) == Chain(t, i)
    decreases i
  {
    hide Shaped;
    SameParent(s, t, i);
    if s[i].pack.parentVersion.Some? {
      ParentPrecedes(s, i);
      SameRollbacks(s, t, ParentOf(s, i).value, now);
    }
  }

  lemma FindOwnKey(s: Slots, i: nat)
    requires Keyed(s) && i < |s|
    ensures Find(s, HasKey(Key(s[i].pack.name, s[i].pack.version))) == Some(i)
  {
    assert HasKey(Key(s[i].pack.name, s[i].pack.version))(s[i]);
  }

  /** One rollback makes the parent the active version. */
  lemma RollbackStep(s: Slots, i: nat, now: int)
    requires Inv(s) && i < |s| && s[i].pack.parentVersion.Some?
    ensures ParentOf(s, i).Some?
    ensures var op := OpRollback(s[i].pack.name, s[i].pack.version, None, now);
            && Step(s, op).Ok? && Inv(Next(s, op)) && SameLineage(s, Next(s, op))
            && IsActiveAt(Next(s, op), ParentOf(s, i).value, s[i].pack.name)
  {
    hide Identified, Rooted, OneActive, GoodStep;
    var op := OpRollback(s[i].pack.name, s[i].pack.version, None, now);
    InvParts(s);
    FindOwnKey(s, i);
    ParentPrecedes(s, i);
    ActivateIsGood(s, op);
    GoodInv(s, Next(s, op));
  }

  /** Rolling back again and again never fails and leaves the root of the chain active. */
  lemma {:induction false} RollbackReachesRoot(s: Slots, i: nat, now: int)
    requires Inv(s) && i < |s| && IsActiveAt(s, i, s[i].pack.name)
    ensures AllSucceed(s, Rollbacks(s, i, now)) && |Rollbacks(s, i, now)| == |Chain(s, i)| - 1
    ensures var t := RunOps(s, Rollbacks(s, i, now)); var root := Chain(s, i)[|Chain(s, i)| - 1];
            Inv(t) && IsActiveAt(t, root, s[i].pack.name) && t[root].pack.parentVersion.None?
    decreases i
  {
    hide Shaped, OneActive, Step, Next;
    if s[i].pack.parentVersion.Some? {
      var op := OpRollback(s[i].pack.name, s[i].pack.version, None, now);
      RollbackStep(s, i, now);
      var t, p := Next(s, op), ParentOf(s, i).value;
      ParentPrecedes(s, i);
      SameRollbacks(s, t, p, now);
      RollbackReachesRoot(t, p, now);
      assert Rollbacks(s, i, now)[1..] == Rollbacks(t, p, now);
    }
  }

  // -------------------------------------------------- the rollback lock guard

  /** A rollback is locked on the version it leaves, whose lock version moves only if it was the active one: repeating a
      successful rollback is refused exactly then. */
  lemma RollbackGuard(s: Slots, name: string, version: int, expected: int, now: int, i: nat)
    requires Inv(s) && i < |s| && s[i].key == Key(name, version)
    requires Rollback(s, name, version, Some(expected), now).Ok?
    ensures var t := Rollback(s, name, version, Some(expected), now).value;
            Rollback(t, name, version, Some(expected), now) == Err(ConcurrentModification) <==>
              s[i].pack.status == ACTIVE
  {
    hide Identified, Rooted, OneActive;
    InvParts(s);
    FindOwnKey(s, i);
    ParentPrecedes(s, i);
    var p := ParentOf(s, i).value;
    var t := ActivateAt(s, name, p, now);
    assert forall j :: 0 <= j < |s| ==> t[j].key == s[j].key;
    assert Find(t, HasKey(Key(name, version))) == Some(i);
  }
}
