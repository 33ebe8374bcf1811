/** The rule cache: a local TTL cache (L1), Redis (L2), the database (L3), and the last known good pack. */
module Cache {
  import opened Common
  import opened Values
  import opened Rules
  import opened Snapshots

  // ---------------------------------------------------- one cache, as a value

  /** Where the value in L1 came from. */
  datatype Origin = FromSource | FromRedis | FromLastGood

  datatype CacheState<V> = CacheState(ttl: real, value: Option<V>, loadedAt: real, lastGood: Option<V>, origin: Origin)

  /** What a call does: the state after, what it returns or that it raises, and what it writes to Redis. */
  datatype Reaction<V> = Reaction(state: CacheState<V>, result: Try<V>, write: Option<V>)

  function NewCache<V>(ttl: real): CacheState<V> { CacheState(ttl, None, 0.0, None, FromSource) }

  predicate Stale<V>(c: CacheState<V>, now: real) { c.value.None? || now - c.loadedAt > c.ttl }

  function Install<V>(c: CacheState<V>, v: V, now: real, origin: Origin): CacheState<V> {
    c.(value := Some(v), loadedAt := now, origin := origin)
  }

  /** _load_from_source_and_propagate, then installing what it gave. */
  function LoadInto<V>(c: CacheState<V>, now: real, source: Try<V>): Reaction<V> {
    match source
    case Done(v) => Reaction(Install(c.(lastGood := Some(v)), v, now, FromSource), Done(v), Some(v))
    case Raised =>
      if c.lastGood.Some? then Reaction(Install(c, c.lastGood.value, now, FromLastGood), Done(c.lastGood.value), None)
      else Reaction(c, Raised, None)
  }

  /** get and warmup: `snapshot` is what Redis has, `source` what the loader would give or that it would raise. */
  function Served<V>(c: CacheState<V>, now: real, snapshot: Option<V>, source: Try<V>): Reaction<V> {
    if !Stale(c, now) then Reaction(c, Done(c.value.value), None)
    else if snapshot.Some? then
      Reaction(Install(c.(lastGood := snapshot), snapshot.value, now, FromRedis), Done(snapshot.value), None)
    else LoadInto(c, now, source)
  }

  /** refresh: Redis is never asked. */
  function Refreshed<V>(c: CacheState<V>, now: real, source: Try<V>): Reaction<V> { LoadInto(c, now, source) }

  /** reload and invalidate */
  function Emptied<V>(c: CacheState<V>): CacheState<V> { c.(value := None, loadedAt := 0.0) }

  const RULE_PACK := "rule_pack"
  const RULE := "rule"

  /** _on_event: eager with a bound loader, lazy without; errors stay inside. */
  function Notified<V>(c: CacheState<V>, entityType: string, bound: bool, now: real, source: Try<V>): Reaction<V> {
    if entityType != RULE_PACK && entityType != RULE then Reaction(c, Raised, None)
    else if !bound then Reaction(Emptied(c), Raised, None)
    else Refreshed(c, now, source)
  }

  // ------------------------------------------------------------- the classes

  class TTLCache {
    const ttl: real
    var value: Option<RulePack>
    var loadedAt: real

    constructor (ttl: real)
      ensures this.ttl == ttl && value == None && loadedAt == 0.0
    {
      this.ttl := ttl;
      value := None;
      loadedAt := 0.0;
    }

    /** The test in `get` that decides whether the loader runs. */
    predicate NeedsLoad(now: real)
      reads this
    {
      value.None? || now - loadedAt > ttl
    }

    method Set(v: RulePack, now: real)
      modifies this
      ensures value == Some(v) && loadedAt == now
    {
      value := Some(v);
      loadedAt := now;
    }

    method Invalidate()
      modifies this
      ensures value == None && loadedAt == 0.0
    {
      value := None;
      loadedAt := 0.0;
    }
  }

  class RuleCache {
    const ttlCache: TTLCache
    const distributed: bool
    var bound: bool
    var lastKnownGood: Option<RulePack>
    ghost var origin: Origin

    constructor (ttl: real, distributed: bool)
      ensures State() == NewCache(ttl) && this.distributed == distributed && !bound && fresh(ttlCache)
    {
      ttlCache := new TTLCache(ttl);
      this.distributed := distributed;
      bound, lastKnownGood := false, None;
      origin := FromSource;
    }

    ghost function State(): CacheState<RulePack>
      reads this, ttlCache
    {
      CacheState(ttlCache.ttl, ttlCache.value, ttlCache.loadedAt, lastKnownGood, origin)
    }

    method BindLoader()
      modifies this`bound
      ensures bound
    {
      bound := true;
    }

    /** A snapshot that cannot be read back is a miss. */
    function Readable(snapshot: Option<Object>): Option<RulePack> {
      if !distributed || snapshot.None? then None
      else match PackFromSnapshot(snapshot.value) case Done(p) => Some(p) case Raised => None
    }

    function ToWrite(pack: Option<RulePack>): Option<Object> {
      if !distributed || pack.None? then None else Some(PackToSnapshot(pack.value))
    }

    method LoadFromSource(source: Try<RulePack>) returns (r: Try<RulePack>, write: Option<Object>)
      modifies this`lastKnownGood, this`origin
      ensures source.Done? ==>
              r == source && lastKnownGood == Some(source.value) && origin == FromSource
                && write == ToWrite(Some(source.value))
      ensures source.Raised? ==> lastKnownGood == old(lastKnownGood) && write == None
      ensures source.Raised? && lastKnownGood.Some? ==> r == Done(lastKnownGood.value) && origin == FromLastGood
      ensures source.Raised? && lastKnownGood.None? ==> r == Raised && origin == old(origin)
    {
      match source {
        case Done(pack) =>
          lastKnownGood := Some(pack);
          origin := FromSource;
          return source, ToWrite(Some(pack));
        case Raised =>
          if lastKnownGood.Some? {
            origin := FromLastGood;
            return Done(lastKnownGood.value), None;
          }
          return Raised, None;
      }
    }

    method Get(now: real, snapshot: Option<Object>, source: Try<RulePack>)
      returns (r: Try<RulePack>, write: Option<Object>)
      modifies this, ttlCache
      ensures var x := Served(old(State()), now, Readable(snapshot), source);
              State() == x.state && r == x.result && write == ToWrite(x.write)
      ensures bound == old(bound)
      ensures r.Raised? <==>
              && (old(ttlCache.value).None? || now - old(ttlCache.loadedAt) > ttlCache.ttl)
              && Readable(snapshot).None? && source.Raised? && old(lastKnownGood).None?
      // A fresh L1 answers, whatever Redis and the source have.
      ensures old(ttlCache.value).Some? && now - old(ttlCache.loadedAt) <= ttlCache.ttl ==>
                r == Done(old(ttlCache.value).value) && State() == old(State()) && write == None
      // Otherwise a readable snapshot does, whatever the source would give, and Redis is left alone.
      ensures (old(ttlCache.value).None? || now - old(ttlCache.loadedAt) > ttlCache.ttl) && Readable(snapshot).Some? ==>
                && r == Done(Readable(snapshot).value) && write == None
                && ttlCache.value == lastKnownGood == Readable(snapshot) && ttlCache.loadedAt == now
      // Otherwise the source does, and what it gave goes to Redis.
      ensures (old(ttlCache.value).None? || now - old(ttlCache.loadedAt) > ttlCache.ttl) && Readable(snapshot).None?
                && source.Done? ==>
                && r == source && write == ToWrite(Some(source.value))
                && ttlCache.value == lastKnownGood == Some(source.value) && ttlCache.loadedAt == now
    {
      hide PackFromSnapshot, PackToSnapshot;
      if !ttlCache.NeedsLoad(now) { return Done(ttlCache.value.value), None; }
      var pack := Readable(snapshot);
      if pack.Some? {
        lastKnownGood := pack;
        origin := FromRedis;
        ttlCache.Set(pack.value, now);
        return Done(pack.value), None;
      }
      r, write := LoadFromSource(source);
      if r.Done? { ttlCache.Set(r.value, now); }
    }

    method Refresh(now: real, source: Try<RulePack>) returns (r: Try<RulePack>, write: Option<Object>)
      modifies this, ttlCache
      ensures var x := Refreshed(old(State()), now, source);
              State() == x.state && r == x.result && write == ToWrite(x.write)
      ensures bound == old(bound)
    {
      hide PackFromSnapshot, PackToSnapshot;
      r, write := LoadFromSource(source);
      if r.Done? { ttlCache.Set(r.value, now); }
    }

    method Reload()
      modifies ttlCache
      ensures State() == Emptied(old(State()))
    {
      ttlCache.Invalidate();
    }

    method OnEvent(entityType: string, now: real, source: Try<RulePack>) returns (write: Option<Object>)
      modifies this, ttlCache
      ensures var x := Notified(old(State()), entityType, bound, now, source);
              State() == x.state && write == ToWrite(x.write)
      ensures bound == old(bound)
    {
      if entityType != RULE_PACK && entityType != RULE { return None; }
      if !bound {
        Reload();
        return None;
      }
      var result;
      result, write := Refresh(now, source);
    }
  }

  /** InMemoryCacheRefreshNotifier: every subscribed cache hears of every event, in order. */
  class InMemoryCacheRefreshNotifier {
    var handlers: seq<RuleCache>

    constructor ()
      ensures handlers == []
    {
      handlers := [];
    }

    /** Subscribers are different caches with TTL caches of their own. */
    ghost predicate Valid()
      reads this
    {
      forall i, j :: 0 <= i < j < |handlers| ==>
        handlers[i] != handlers[j] && handlers[i].ttlCache != handlers[j].ttlCache
    }

    ghost function Footprint(): set<object>
      reads this
    {
      (set i | 0 <= i < |handlers| :: handlers[i] as object)
      + (set i | 0 <= i < |handlers| :: handlers[i].ttlCache as object)
    }

    method Subscribe(handler: RuleCache)
      requires Valid() && forall i :: 0 <= i < |handlers| ==>
               handlers[i] != handler && handlers[i].ttlCache != handler.ttlCache
      modifies this
      ensures Valid() && handlers == old(handlers) + [handler]
    {
      handlers := handlers + [handler];
    }

    /** `writes` is what each handler, in order, hands on to Redis. */
    method Publish(entityType: string, now: real, source: Try<RulePack>) returns (writes: seq<Option<Object>>)
      requires Valid() && this !in Footprint()
      modifies Footprint()
      ensures Valid() && handlers == old(handlers)
      ensures forall i :: 0 <= i < |handlers| ==>
                handlers[i].State() == Notified(old(handlers[i].State()), entityType, old(handlers[i].bound), now,
                  source).state
      ensures |writes| == |handlers|
      ensures forall i :: 0 <= i < |handlers| ==>
                writes[i] == handlers[i].ToWrite(Notified(old(handlers[i].State()), entityType, old(handlers[i].bound),
                  now, source).write)
    {
      hide Notified, PackToSnapshot;
      writes := [];
      for i := 0 to |handlers|
        invariant Valid() && handlers == old(handlers)
        invariant forall j :: 0 <= j < |handlers| ==> handlers[j].bound == old(handlers[j].bound)
        invariant forall j :: 0 <= j < i ==>
                    handlers[j].State() == Notified(old(handlers[j].State()), entityType, old(handlers[j].bound), now,
                      source).state
        invariant forall j :: i <= j < |handlers| ==> handlers[j].State() == old(handlers[j].State())
        invariant |writes| == i
        invariant forall j :: 0 <= j < i ==>
                    writes[j] == handlers[j].ToWrite(Notified(old(handlers[j].State()), entityType,
                      old(handlers[j].bound), now, source).write)
      {
        var handler := handlers[i];
        assert handler in Footprint() && handler.ttlCache in Footprint();
        var write := handler.OnEvent(entityType, now, source);
        writes := writes + [write];
      }
    }
  }
}
