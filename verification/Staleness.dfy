/** How old a served pack can be, over every run of many replicas that share one Redis. */
module StalenessTheorems {
  import opened Common
  import opened Cache

  /** A value with the time it was read from the source. */
  datatype Sample<V> = Sample(value: V, readAt: real)

  /** What Redis holds for the cache key: one complete snapshot, gone at `expires`. */
  datatype Shared<V> = Shared(sample: Sample<V>, expires: real)

  datatype Cluster<V> = Cluster(clock: real, redis: Option<Shared<V>>, replicas: seq<CacheState<Sample<V>>>)

  datatype Kind = KindGet | KindRefresh | KindReload

  /** One instantaneous call on one replica. `source` is what the database gives or None when it fails; a Redis that is
      down reads as a miss and loses writes. */
  datatype Turn<V> = Turn(replica: nat, kind: Kind, now: real, source: Option<V>, readable: bool, writable: bool)

  function Visible<V>(cl: Cluster<V>, now: real): Option<Sample<V>> {
    if cl.redis.Some? && now < cl.redis.value.expires then Some(cl.redis.value.sample) else None
  }

  function Answer<V>(t: Turn<V>): Try<Sample<V>> {
    if t.source.Some? then Done(Sample(t.source.value, t.now)) else Raised
  }

  function Reacts<V>(cl: Cluster<V>, t: Turn<V>): Reaction<Sample<V>>
    requires t.replica < |cl.replicas|
  {
    var c := cl.replicas[t.replica];
    match t.kind
    case KindGet => Served(c, t.now, if t.readable then Visible(cl, t.now) else None, Answer(t))
    case KindRefresh => Refreshed(c, t.now, Answer(t))
    case KindReload => Reaction(Emptied(c), Raised, None)
  }

  predicate CanTurn<V>(cl: Cluster<V>, t: Turn<V>) { t.replica < |cl.replicas| && cl.clock <= t.now }

  function After<V>(cl: Cluster<V>, t: Turn<V>, redisTtl: real): Cluster<V>
    requires CanTurn(cl, t)
  {
    var x := Reacts(cl, t);
    Cluster(t.now,
            if x.write.Some? && t.writable then Some(Shared(x.write.value, t.now + redisTtl)) else cl.redis,
            cl.replicas[t.replica := x.state])
  }

  ghost predicate CanRun<V>(cl: Cluster<V>, turns: seq<Turn<V>>, redisTtl: real)
    decreases |turns|
  {
    turns == [] || (CanTurn(cl, turns[0]) && CanRun(After(cl, turns[0], redisTtl), turns[1..], redisTtl))
  }

  ghost function Run<V>(cl: Cluster<V>, turns: seq<Turn<V>>, redisTtl: real): Cluster<V>
    requires CanRun(cl, turns, redisTtl)
    decreases |turns|
  {
    if turns == [] then cl else Run(After(cl, turns[0], redisTtl), turns[1..], redisTtl)
  }

  ghost predicate Start<V>(cl: Cluster<V>, ttl: real) {
    cl.redis.None? && forall k :: 0 <= k < |cl.replicas| ==> cl.replicas[k] == NewCache(ttl)
  }

  // ------------------------------------------------------------ the invariant

  /** Redis only holds samples straight from the source. */
  predicate RedisIsDirect<V>(cl: Cluster<V>, redisTtl: real) {
    cl.redis.Some? ==> cl.redis.value.expires == cl.redis.value.sample.readAt + redisTtl
  }

  /** How old the value of a warm L1 was when it got there. */
  predicate EntryBound<V>(c: CacheState<Sample<V>>, ttl: real, redisTtl: real) {
    && c.ttl == ttl
    && (c.value.Some? && c.origin == FromSource ==> c.loadedAt == c.value.value.readAt)
    && (c.value.Some? && c.origin == FromRedis ==> c.loadedAt - c.value.value.readAt < redisTtl)
  }

  ghost predicate Bounded<V>(cl: Cluster<V>, ttl: real, redisTtl: real) {
    RedisIsDirect(cl, redisTtl) && forall k :: 0 <= k < |cl.replicas| ==> EntryBound(cl.replicas[k], ttl, redisTtl)
  }

  lemma TurnKeepsEntry<V>(cl: Cluster<V>, t: Turn<V>, ttl: real, redisTtl: real)
    requires CanTurn(cl, t) && RedisIsDirect(cl, redisTtl) && EntryBound(cl.replicas[t.replica], ttl, redisTtl)
    ensures EntryBound(Reacts(cl, t).state, ttl, redisTtl)
    ensures Reacts(cl, t).write.Some? ==> Reacts(cl, t).write == Some(Sample(t.source.value, t.now)) && t.source.Some?
  {
  }

  lemma TurnKeepsBounded<V>(cl: Cluster<V>, t: Turn<V>, ttl: real, redisTtl: real)
    requires CanTurn(cl, t) && Bounded(cl, ttl, redisTtl)
    ensures Bounded(After(cl, t, redisTtl), ttl, redisTtl)
  {
    hide Reacts, EntryBound;
    TurnKeepsEntry(cl, t, ttl, redisTtl);
  }

  lemma {:induction false} RunKeepsBounded<V>(cl: Cluster<V>, turns: seq<Turn<V>>, ttl: real, redisTtl: real)
    requires CanRun(cl, turns, redisTtl) && Bounded(cl, ttl, redisTtl)
    ensures Bounded(Run(cl, turns, redisTtl), ttl, redisTtl)
    decreases |turns|
  {
    hide After, Bounded, CanTurn;
    if turns != [] {
      TurnKeepsBounded(cl, turns[0], ttl, redisTtl);
      RunKeepsBounded(After(cl, turns[0], redisTtl), turns[1..], ttl, redisTtl);
    }
  }

  // ---------------------------------------------------------------- provenance

  /** Turn i read this very value from the source at the time the sample says. */
  predicate ReadAt<V(==)>(turns: seq<Turn<V>>, i: nat, x: Sample<V>) {
    i < |turns| && turns[i].source == Some(x.value) && turns[i].now == x.readAt
  }

  ghost predicate Genuine<V>(turns: seq<Turn<V>>, x: Sample<V>) { exists i :: ReadAt(turns, i, x) }

  /** Turn i wrote what it had just read, and its TTL runs from then. */
  predicate WrittenAt<V(==)>(turns: seq<Turn<V>>, i: nat, shared: Shared<V>, redisTtl: real) {
    && ReadAt(turns, i, shared.sample) && turns[i].writable && !turns[i].kind.KindReload?
    && shared.expires == turns[i].now + redisTtl
  }

  ghost predicate Written<V>(turns: seq<Turn<V>>, shared: Shared<V>, redisTtl: real) {
    exists i :: WrittenAt(turns, i, shared, redisTtl)
  }

  ghost predicate GenuineCache<V>(turns: seq<Turn<V>>, c: CacheState<Sample<V>>) {
    && (c.value.Some? ==> Genuine(turns, c.value.value))
    && (c.lastGood.Some? ==> Genuine(turns, c.lastGood.value))
  }

  /** Everything held anywhere was read from the source by one of `turns`, and Redis holds what one of them wrote. */
  ghost predicate AllGenuine<V>(turns: seq<Turn<V>>, cl: Cluster<V>, redisTtl: real) {
    && (cl.redis.Some? ==> Written(turns, cl.redis.value, redisTtl))
    && forall k :: 0 <= k < |cl.replicas| ==> GenuineCache(turns, cl.replicas[k])
  }

  lemma GenuineLater<V>(turns: seq<Turn<V>>, t: Turn<V>, x: Sample<V>)
    requires Genuine(turns, x)
    ensures Genuine(turns + [t], x)
  {
    var i :| ReadAt(turns, i, x);
    assert ReadAt(turns + [t], i, x);
  }

  lemma GenuineCacheLater<V>(turns: seq<Turn<V>>, t: Turn<V>, c: CacheState<Sample<V>>)
    requires GenuineCache(turns, c)
    ensures GenuineCache(turns + [t], c)
  {
    if c.value.Some? { GenuineLater(turns, t, c.value.value); }
    if c.lastGood.Some? { GenuineLater(turns, t, c.lastGood.value); }
  }

  lemma WrittenIsGenuine<V>(turns: seq<Turn<V>>, shared: Shared<V>, redisTtl: real)
    requires Written(turns, shared, redisTtl)
    ensures Genuine(turns, shared.sample)
  {
    var i :| WrittenAt(turns, i, shared, redisTtl);
    assert ReadAt(turns, i, shared.sample);
  }

  lemma WrittenLater<V>(turns: seq<Turn<V>>, t: Turn<V>, shared: Shared<V>, redisTtl: real)
    requires Written(turns, shared, redisTtl)
    ensures Written(turns + [t], shared, redisTtl)
  {
    var i :| WrittenAt(turns, i, shared, redisTtl);
    assert ReadAt(turns + [t], i, shared.sample);
    assert WrittenAt(turns + [t], i, shared, redisTtl);
  }

  lemma JustRead<V>(turns: seq<Turn<V>>, t: Turn<V>)
    ensures t.source.Some? ==> Genuine(turns + [t], Sample(t.source.value, t.now))
  {
    if t.source.Some? { assert ReadAt(turns + [t], |turns|, Sample(t.source.value, t.now)); }
  }

  /** What a call leaves in its cache, returns or writes was in its cache or in Redis before, or has just been read. */
  lemma ReactsGenuinely<V>(turns: seq<Turn<V>>, cl: Cluster<V>, t: Turn<V>, redisTtl: real)
    requires AllGenuine(turns, cl, redisTtl) && CanTurn(cl, t)
    ensures GenuineCache(turns + [t], Reacts(cl, t).state)
    ensures Reacts(cl, t).result.Done? ==> Genuine(turns + [t], Reacts(cl, t).result.value)
  {
    hide Genuine, Written;
    var c := cl.replicas[t.replica];
    GenuineCacheLater(turns, t, c);
    JustRead(turns, t);
    if cl.redis.Some? {
      WrittenIsGenuine(turns, cl.redis.value, redisTtl);
      GenuineLater(turns, t, cl.redis.value.sample);
    }
  }

  lemma WritesGenuinely<V>(turns: seq<Turn<V>>, cl: Cluster<V>, t: Turn<V>, redisTtl: real)
    requires AllGenuine(turns, cl, redisTtl) && CanTurn(cl, t)
    ensures After(cl, t, redisTtl).redis.Some? ==> Written(turns + [t], After(cl, t, redisTtl).redis.value, redisTtl)
  {
    hide Written, AllGenuine;
    var after := After(cl, t, redisTtl).redis;
    if Reacts(cl, t).write.Some? && t.writable {
      assert ReadAt(turns + [t], |turns|, after.value.sample);
      assert Written(turns + [t], after.value, redisTtl) by {
        WrittenHere(turns + [t], |turns|, after.value, redisTtl);
      }
    } else if cl.redis.Some? {
      assert Written(turns, cl.redis.value, redisTtl) by { RedisIsWritten(turns, cl, redisTtl); }
      WrittenLater(turns, t, cl.redis.value, redisTtl);
    }
  }

  lemma WrittenHere<V>(turns: seq<Turn<V>>, i: nat, shared: Shared<V>, redisTtl: real)
    requires WrittenAt(turns, i, shared, redisTtl)
    ensures Written(turns, shared, redisTtl)
  {
  }

  lemma RedisIsWritten<V>(turns: seq<Turn<V>>, cl: Cluster<V>, redisTtl: real)
    requires AllGenuine(turns, cl, redisTtl) && cl.redis.Some?
    ensures Written(turns, cl.redis.value, redisTtl)
  {
  }

  lemma TurnKeepsGenuine<V>(turns: seq<Turn<V>>, cl: Cluster<V>, t: Turn<V>, redisTtl: real)
    requires AllGenuine(turns, cl, redisTtl) && CanTurn(cl, t)
    ensures AllGenuine(turns + [t], After(cl, t, redisTtl), redisTtl)
  {
    hide GenuineCache, Written, Reacts;
    ReactsGenuinely(turns, cl, t, redisTtl);
    WritesGenuinely(turns, cl, t, redisTtl);
    var after := After(cl, t, redisTtl);
    forall k | 0 <= k < |after.replicas| ensures GenuineCache(turns + [t], after.replicas[k]) {
      if k != t.replica { GenuineCacheLater(turns, t, cl.replicas[k]); }
    }
  }

  lemma {:induction false} RunKeepsGenuine<V>(past: seq<Turn<V>>, cl: Cluster<V>, turns: seq<Turn<V>>, redisTtl: real)
    requires AllGenuine(past, cl, redisTtl) && CanRun(cl, turns, redisTtl)
    ensures AllGenuine(past + turns, Run(cl, turns, redisTtl), redisTtl)
    decreases |turns|
  {
    hide AllGenuine, After, CanTurn;
    if turns == [] {
      assert past + turns == past;
    } else {
      TurnKeepsGenuine(past, cl, turns[0], redisTtl);
      RunKeepsGenuine(past + [turns[0]], After(cl, turns[0], redisTtl), turns[1..], redisTtl);
      assert past + [turns[0]] + turns[1..] == past + turns;
    }
  }

  /** Over every run, every sample anywhere was read from the source by an earlier turn, at the time it says. */
  lemma SamplesAreGenuine<V>(cl: Cluster<V>, turns: seq<Turn<V>>, ttl: real, redisTtl: real)
    requires Start(cl, ttl) && CanRun(cl, turns, redisTtl)
    ensures AllGenuine(turns, Run(cl, turns, redisTtl), redisTtl)
  {
    hide Run, CanRun;
    assert AllGenuine([], cl, redisTtl) by { StartIsGenuine(cl, ttl, redisTtl); }
    RunKeepsGenuine([], cl, turns, redisTtl);
    assert [] + turns == turns;
  }

  lemma StartIsGenuine<V>(cl: Cluster<V>, ttl: real, redisTtl: real)
    requires Start(cl, ttl)
    ensures AllGenuine([], cl, redisTtl)
  {
    forall k | 0 <= k < |cl.replicas| ensures GenuineCache([], cl.replicas[k]) {
      assert cl.replicas[k] == NewCache(ttl);
    }
  }

  /** What Redis holds at the end of any run was written by a turn that had just read it from the source, so no degraded
      serve ever reaches Redis. */
  lemma DegradedNeverReachesRedis<V>(cl: Cluster<V>, turns: seq<Turn<V>>, ttl: real, redisTtl: real)
    requires Start(cl, ttl) && CanRun(cl, turns, redisTtl) && Run(cl, turns, redisTtl).redis.Some?
    ensures exists i :: WrittenAt(turns, i, Run(cl, turns, redisTtl).redis.value, redisTtl)
  {
    hide Run, CanRun, WrittenAt;
    SamplesAreGenuine(cl, turns, ttl, redisTtl);
  }

  // ------------------------------------------------------------------- the bound

  /** Turn i, of this run, read the value from the source no longer than `age` before `now` (or, if strict, less). */
  ghost predicate ReadWithin<V>(turns: seq<Turn<V>>, v: V, now: real, age: real, strict: bool) {
    exists i, r :: ReadAt(turns, i, Sample(v, r)) && (if strict then now - r < age else now - r <= age)
  }

  /** How old the tag of a served sample is. */
  lemma TagsAreRecent<V>(cl: Cluster<V>, turns: seq<Turn<V>>, t: Turn<V>, ttl: real, redisTtl: real)
    requires Start(cl, ttl) && ttl >= 0.0 && CanRun(cl, turns, redisTtl)
    requires CanTurn(Run(cl, turns, redisTtl), t) && t.kind == KindGet
    ensures var x := Reacts(Run(cl, turns, redisTtl), t);
            x.result.Done? ==>
              && (x.state.origin == FromSource ==> t.now - x.result.value.readAt <= ttl)
              && (x.state.origin == FromRedis ==> t.now - x.result.value.readAt < redisTtl + ttl)
  {
    assert Bounded(cl, ttl, redisTtl);
    RunKeepsBounded(cl, turns, ttl, redisTtl);
    var now := Run(cl, turns, redisTtl);
    hide Run, CanRun;
    assert EntryBound(now.replicas[t.replica], ttl, redisTtl);
  }

  /** Bounded staleness: the value a get returns, unless it stems from the last known good, is one that a turn of this
      run read from the source less than the Redis TTL plus the L1 TTL ago, and within the L1 TTL if it did not come
      through Redis. */
  lemma ServedValuesAreRecent<V>(cl: Cluster<V>, turns: seq<Turn<V>>, t: Turn<V>, ttl: real, redisTtl: real)
    requires Start(cl, ttl) && ttl >= 0.0 && CanRun(cl, turns, redisTtl)
    requires CanTurn(Run(cl, turns, redisTtl), t) && t.kind == KindGet
    ensures var x := Reacts(Run(cl, turns, redisTtl), t);
            x.result.Done? ==>
              && (x.state.origin == FromSource ==> ReadWithin(turns + [t], x.result.value.value, t.now, ttl, false))
              && (x.state.origin == FromRedis ==>
                 ReadWithin(turns + [t], x.result.value.value, t.now, redisTtl + ttl, true))
  {
    hide Run, CanRun, AllGenuine, Reacts, Start;
    var now := Run(cl, turns, redisTtl);
    TagsAreRecent(cl, turns, t, ttl, redisTtl);
    SamplesAreGenuine(cl, turns, ttl, redisTtl);
    ReactsGenuinely(turns, now, t, redisTtl);
    var x := Reacts(now, t);
    if x.result.Done? { TaggedWithin(turns + [t], x.result.value, t.now); }
  }

  lemma TaggedWithin<V>(turns: seq<Turn<V>>, x: Sample<V>, now: real)
    requires Genuine(turns, x)
    ensures forall age :: now - x.readAt <= age ==> ReadWithin(turns, x.value, now, age, false)
    ensures forall age :: now - x.readAt < age ==> ReadWithin(turns, x.value, now, age, true)
  {
    var i :| ReadAt(turns, i, x);
    assert ReadAt(turns, i, Sample(x.value, x.readAt));
  }

  /** While Redis can be read and what it holds has not expired, no get raises, whatever the source does; a replica
      whose L1 is cold or older than its TTL serves what Redis holds and keeps it. */
  lemma RedisIsServed<V>(cl: Cluster<V>, t: Turn<V>)
    requires CanTurn(cl, t) && t.kind == KindGet && t.readable
    requires cl.redis.Some? && t.now < cl.redis.value.expires
    ensures var c, x := cl.replicas[t.replica], Reacts(cl, t); var shared := cl.redis.value.sample;
            && x.result.Done? && x.write.None?
            && (if c.value.None? || t.now - c.loadedAt > c.ttl
                then x.result == Done(shared) && x.state.value == x.state.lastGood == Some(shared)
                       && x.state.loadedAt == t.now
                else x.result == Done(c.value.value) && x.state == c)
  {
  }

  predicate NeverThroughRedis<V>(turns: seq<Turn<V>>) { forall i :: 0 <= i < |turns| ==> !turns[i].readable }

  /** No value ever stems from Redis when Redis is never read. */
  predicate NoRedisOrigin<V>(cl: Cluster<V>) {
    forall k :: 0 <= k < |cl.replicas| ==> cl.replicas[k].origin != FromRedis
  }

  lemma {:induction false} WithoutRedisNoOrigin<V>(cl: Cluster<V>, turns: seq<Turn<V>>, redisTtl: real)
    requires NoRedisOrigin(cl) && NeverThroughRedis(turns) && CanRun(cl, turns, redisTtl)
    ensures NoRedisOrigin(Run(cl, turns, redisTtl))
    decreases |turns|
  {
    if turns != [] {
      var next := After(cl, turns[0], redisTtl);
      assert !turns[0].readable;
      assert NeverThroughRedis(turns[1..]) by {
        forall i | 0 <= i < |turns[1..]| ensures !turns[1..][i].readable { assert turns[1..][i] == turns[i + 1]; }
      }
      WithoutRedisNoOrigin(next, turns[1..], redisTtl);
    }
  }

  /** Without Redis, a value that does not stem from the last known good was read at most one L1 TTL ago. */
  lemma WithoutRedisWithinTtl<V>(cl: Cluster<V>, turns: seq<Turn<V>>, t: Turn<V>, ttl: real, redisTtl: real)
    requires Start(cl, ttl) && ttl >= 0.0 && CanRun(cl, turns, redisTtl)
    requires NeverThroughRedis(turns) && !t.readable
    requires CanTurn(Run(cl, turns, redisTtl), t) && t.kind == KindGet
    ensures var x := Reacts(Run(cl, turns, redisTtl), t);
            x.result.Done? && x.state.origin != FromLastGood ==>
              ReadWithin(turns + [t], x.result.value.value, t.now, ttl, false)
  {
    hide ReadWithin;
    ServedValuesAreRecent(cl, turns, t, ttl, redisTtl);
    WithoutRedisNoOrigin(cl, turns, redisTtl);
    hide Run, CanRun;
    assert Run(cl, turns, redisTtl).replicas[t.replica].origin != FromRedis;
  }
}
