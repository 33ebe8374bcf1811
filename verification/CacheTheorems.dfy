/** The cache over every run: it keeps serving, and it agrees with the store. */
module CacheTheorems {
  import opened Common
  import opened Rules
  import opened Snapshots
  import opened Validation
  import opened Store
  import opened Lifecycle
  import opened LifecycleTheorems
  import opened VettingTheorems
  import opened Repository
  import opened Cache

  // -------------------------------------------------------------- availability

  /** One call into a cache, with what Redis and the loader would answer. */
  datatype Call<V> =
    | CallGet(now: real, snapshot: Option<V>, source: Try<V>)
    | CallRefresh(now: real, source: Try<V>)
    | CallReload
    | CallEvent(entityType: string, bound: bool, now: real, source: Try<V>)

  function React<V>(c: CacheState<V>, call: Call<V>): Reaction<V> {
    match call
    case CallGet(now, snapshot, source) => Served(c, now, snapshot, source)
    case CallRefresh(now, source) => Refreshed(c, now, source)
    case CallReload => Reaction(Emptied(c), Raised, None)
    case CallEvent(entityType, bound, now, source) => Notified(c, entityType, bound, now, source)
  }

  function RunCache<V>(c: CacheState<V>, calls: seq<Call<V>>): CacheState<V>
    decreases |calls|
  {
    if calls == [] then c else RunCache(React(c, calls[0]).state, calls[1..])
  }

  /** A warm L1 holds the last known good value. */
  predicate Warm<V(==)>(c: CacheState<V>) { c.value.Some? ==> c.value == c.lastGood }

  lemma CallKeepsWarm<V>(c: CacheState<V>, call: Call<V>)
    requires Warm(c)
    ensures Warm(React(c, call).state)
    ensures c.lastGood.Some? ==> React(c, call).state.lastGood.Some?
    ensures (call.CallGet? || call.CallRefresh?) && React(c, call).result.Done? ==>
            React(c, call).state.lastGood == Some(React(c, call).result.value)
  {
  }

  lemma {:induction false} RunKeepsWarm<V>(c: CacheState<V>, calls: seq<Call<V>>)
    requires Warm(c)
    ensures Warm(RunCache(c, calls))
    ensures c.lastGood.Some? ==> RunCache(c, calls).lastGood.Some?
    decreases |calls|
  {
    hide React, Warm;
    if calls != [] {
      CallKeepsWarm(c, calls[0]);
      RunKeepsWarm(React(c, calls[0]).state, calls[1..]);
    }
  }

  /** After one successful load, no later get or refresh raises, whatever the loader and Redis do; and a warm L1 is the
      last known good value throughout. */
  lemma NeverRaisesAgain<V>(ttl: real, before: seq<Call<V>>, load: Call<V>, after: seq<Call<V>>, call: Call<V>)
    requires load.CallGet? || load.CallRefresh?
    requires React(RunCache(NewCache(ttl), before), load).result.Done?
    requires call.CallGet? || call.CallRefresh?
    ensures var c := RunCache(React(RunCache(NewCache(ttl), before), load).state, after);
            Warm(c) && React(c, call).result.Done?
  {
    var loaded := React(RunCache(NewCache(ttl), before), load);
    RunKeepsWarm(NewCache(ttl), before);
    CallKeepsWarm(RunCache(NewCache(ttl), before), load);
    RunKeepsWarm(loaded.state, after);
  }

  /** A refresh whose load fails leaves a warm L1's value as it was, returns it, and writes nothing to Redis. */
  lemma FailedRefreshKeepsValue<V>(c: CacheState<V>, now: real)
    requires Warm(c) && c.value.Some?
    ensures var x := Refreshed(c, now, Raised);
            x.state.value == c.value && x.result == Done(c.value.value) && x.write == None
  {
  }

  /** A get raises exactly when L1 is cold or older than its TTL, Redis has nothing readable, the source fails and no
      pack was ever loaded. */
  lemma GetRaisesExactly<V>(c: CacheState<V>, now: real, snapshot: Option<V>, source: Try<V>)
    ensures React(c, CallGet(now, snapshot, source)).result.Raised? <==>
            && (c.value.None? || now - c.loadedAt > c.ttl)
            && snapshot.None? && source.Raised? && c.lastGood.None?
  {
  }

  /** What an event does: of a rule or a rule pack it reloads a cache with a loader, keeping what it has if that fails,
      and empties L1 of one without; of anything else it does nothing. */
  lemma EventsReact<V>(c: CacheState<V>, entityType: string, bound: bool, now: real, source: Try<V>)
    ensures var x := React(c, CallEvent(entityType, bound, now, source));
            if entityType != "rule_pack" && entityType != "rule" then x.state == c && x.write.None?
            else && x.state.ttl == c.ttl
                 && if !bound then x.state.value.None? && x.state.lastGood == c.lastGood && x.write.None?
                    else match source
                         case Done(v) =>
                           x.state.value == x.state.lastGood == x.write == Some(v) && x.state.loadedAt == now
                         case Raised =>
                           && x.write.None? && x.state.lastGood == c.lastGood
                           && x.state.value == if c.lastGood.Some? then c.lastGood else c.value
  {
  }

  /** What one replica writes to Redis another reads back, but for what a snapshot does not carry; without Redis nothing
      is written or read. */
  lemma WritesAreReadable(writer: RuleCache, reader: RuleCache, p: RulePack)
    ensures writer.distributed && reader.distributed ==>
              reader.Readable(writer.ToWrite(Some(p))) == Some(CarriedPack(p))
    ensures !writer.distributed ==> writer.ToWrite(Some(p)).None?
    ensures !reader.distributed ==> forall snapshot :: reader.Readable(snapshot).None?
  {
    hide PackFromSnapshot, PackToSnapshot;
    SnapshotRoundTrip(p);
  }

  // ------------------------------------------------------ agreement with the store

  /** What the loader brings back of a pack: the row without its lock version. */
  function Fetched(p: RulePack): RulePack { p.(lockVersion := 1, deletedAt := None) }

  /** The loader: the active pack of the name without a region, unless it carries a deletion time. */
  function LoadActive(s: Slots, name: string): Try<RulePack> {
    match GetActive(s, name, None)
    case Some(p) => if p.deletedAt.Some? then Raised else Done(Fetched(p))
    case None => Raised
  }

  datatype World = World(slots: Slots, cache: CacheState<RulePack>)

  /** What happens: a use case, a request that reads through the cache, a forced refresh, an invalidation. */
  datatype Action = Use(op: Op, now: real) | Request(now: real) | ForceRefresh(now: real) | Lapse

  /** One process, no Redis, a loader bound for `name`; use cases publish after they change the store. */
  ghost function Act(w: World, name: string, a: Action): World {
    match a
    case Use(op, now) =>
      var t := Next(w.slots, op);
      World(t, if Published(w.slots, op) == [] then w.cache
               else Notified(w.cache, RULE_PACK, true, now, LoadActive(t, name)).state)
    case Request(now) => w.(cache := Served(w.cache, now, None, LoadActive(w.slots, name)).state)
    case ForceRefresh(now) => w.(cache := Refreshed(w.cache, now, LoadActive(w.slots, name)).state)
    case Lapse => w.(cache := Emptied(w.cache))
  }

  ghost function RunWorld(w: World, name: string, actions: seq<Action>): World
    decreases |actions|
  {
    if actions == [] then w else RunWorld(Act(w, name, actions[0]), name, actions[1..])
  }

  /** An update may set the status of a draft to active, and publishes nothing. */
  ghost predicate ActivatesQuietly(s: Slots, op: Op, name: string) {
    && op.OpUpdate? && Step(s, op).Ok? && Find(s, HasId(op.id)).Some?
    && IsActiveIn(name, None)(Next(s, op)[Find(s, HasId(op.id)).value])
  }

  /** Seeding happens before serving starts, and no update activates. */
  ghost predicate LegalAction(w: World, name: string, a: Action) {
    a.Use? ==> Legal(w.slots, a.op) && !a.op.OpSeed? && !ActivatesQuietly(w.slots, a.op, name)
  }

  ghost predicate LegalActions(w: World, name: string, actions: seq<Action>)
    decreases |actions|
  {
    actions == [] || (LegalAction(w, name, actions[0]) && LegalActions(Act(w, name, actions[0]), name, actions[1..]))
  }

  ghost predicate Agrees(w: World, name: string) {
    w.cache.value.Some? && LoadActive(w.slots, name).Done? ==> w.cache.value == Some(LoadActive(w.slots, name).value)
  }

  lemma AppendKeepsActive(s: Slots, x: Slot, name: string)
    requires x.pack.status != ACTIVE
    ensures GetActive(s + [x], name, None) == GetActive(s, name, None)
  {
    var test := IsActiveIn(name, None);
    var t := s + [x];
    assert forall j :: 0 <= j < |s| ==> t[j] == s[j];
    assert !test(t[|s|]);
  }

  lemma EditKeepsActive(s: Slots, i: nat, p: RulePack, name: string)
    requires i < |s| && s[i].pack.status != ACTIVE && p.status != ACTIVE
    ensures GetActive(Put(s, i, p), name, None) == GetActive(s, name, None)
  {
    var test := IsActiveIn(name, None);
    var t := Put(s, i, p);
    assert forall j :: 0 <= j < |s| ==> test(t[j]) == test(s[j]);
  }

  lemma UpdateKeepsActive(s: Slots, op: Op, name: string)
    requires Inv(s) && Legal(s, op) && op.OpUpdate? && Step(s, op).Ok?
    ensures GetActive(Next(s, op), name, None) == GetActive(s, name, None) <==> !ActivatesQuietly(s, op, name)
  {
    hide Inv, Legal, Step, Next, Patched, GoodStep;
    StatusesDiffer();
    UpdateAt(s, op);
    var i, t := Find(s, HasId(op.id)).value, Next(s, op);
    var test := IsActiveIn(name, None);
    assert forall j :: 0 <= j < |s| && j != i ==> t[j] == s[j];
    if !test(t[i]) {
      assert forall j :: 0 <= j < |s| ==> test(t[j]) == test(s[j]);
    } else if GetActive(s, name, None).Some? {
      LegalIsGood(s, op);
      GoodInv(s, t);
      OnlyOneActive(t, name, i, Find(s, test).value);
      assert false;
    }
  }

  /** A use case that publishes nothing leaves the active pack as it is, but for an update that sets the status of a
      draft to active. */
  lemma QuietKeepsActive(s: Slots, op: Op, name: string)
    requires Inv(s) && Legal(s, op) && !op.OpSeed? && Published(s, op) == []
    ensures GetActive(Next(s, op), name, None) == GetActive(s, name, None) <==> !ActivatesQuietly(s, op, name)
  {
    hide Inv, Legal, Fresh, Step, GoodStep, GetActive;
    LegalIsGood(s, op);
    if Step(s, op).Err? {
    } else if op.OpCreate? || op.OpImport? {
      if op.OpCreate? { CreateIsGood(s, op); } else { ImportIsGood(s, op); }
      StatusesDiffer();
      var x :| Next(s, op) == s + [x] && x.pack.status == DRAFT;
      AppendKeepsActive(s, x, name);
    } else if op.OpUpdate? {
      UpdateKeepsActive(s, op, name);
    } else if EditsOne(op) {
      EditIsGood(s, op);
      var i: nat, p :| i < |s| && Edit(s[i].pack, p) && Next(s, op) == Put(s, i, p);
      EditKeepsActive(s, i, p, name);
    } else if op.OpRollback? {
      ActivateIsGood(s, op);
    }
  }

  lemma ActionAgrees(w: World, name: string, a: Action)
    requires Inv(w.slots) && LegalAction(w, name, a) && Agrees(w, name)
    ensures Inv(Act(w, name, a).slots) && Agrees(Act(w, name, a), name)
  {
    hide Inv, Legal, Next, GetActive, Published, GoodStep;
    if a.Use? {
      LegalIsGood(w.slots, a.op);
      GoodInv(w.slots, Next(w.slots, a.op));
      if Published(w.slots, a.op) == [] { QuietKeepsActive(w.slots, a.op, name); }
    }
  }

  lemma {:induction false} RunAgrees(w: World, name: string, actions: seq<Action>)
    requires Inv(w.slots) && LegalActions(w, name, actions) && Agrees(w, name)
    ensures Inv(RunWorld(w, name, actions).slots) && Agrees(RunWorld(w, name, actions), name)
    decreases |actions|
  {
    hide Inv, LegalAction, Act, Agrees;
    if actions != [] {
      ActionAgrees(w, name, actions[0]);
      RunAgrees(Act(w, name, actions[0]), name, actions[1..]);
    }
  }

  /** From a cold cache over any reachable store, a warm L1 always equals what the loader would bring back now, as long
      as no update makes a draft active. */
  lemma CacheAgreesWithStore(startup: seq<Op>, ttl: real, name: string, actions: seq<Action>)
    requires LegalRun([], startup) && LegalActions(World(RunOps([], startup), NewCache(ttl)), name, actions)
    ensures Agrees(RunWorld(World(RunOps([], startup), NewCache(ttl)), name, actions), name)
  {
    hide RunOps, LegalRun, LegalActions, RunWorld, Inv, GoodStep;
    EmptyInv();
    RunIsGood([], startup);
    GoodInv([], RunOps([], startup));
    RunAgrees(World(RunOps([], startup), NewCache(ttl)), name, actions);
  }

  // --------------------------------------- when the loader sees the active pack

  ghost predicate DeletedAt(s: Slots, i: nat)
    requires i < |s|
  {
    s[i].pack.deletedAt.Some? ==> s[i].pack.status == ARCHIVED
  }

  /** Only archived packs carry a deletion time. */
  ghost predicate DeletedAreArchived(s: Slots) { forall i :: 0 <= i < |s| ==> DeletedAt(s, i) }

  /** The step makes a pack active that carries a deletion time, or it is an update that leaves one on a pack that is
      not archived. */
  ghost predicate RevivesDeleted(s: Slots, op: Op) {
    if Step(s, op).Err? then false
    else if op.OpUpdate? then
      Find(s, HasId(op.id)).Some? && !DeletedAt(Next(s, op), Find(s, HasId(op.id)).value)
    else
      && Chosen(s, op).Some? && Find(s, HasKey(Chosen(s, op).value)).Some?
      && s[Find(s, HasKey(Chosen(s, op).value)).value].pack.deletedAt.Some?
  }

  lemma ActivateDeletedExactly(s: Slots, name: string, target: nat, now: int)
    requires target < |s| && forall i :: 0 <= i < |s| && i != target ==> DeletedAt(s, i)
    ensures DeletedAreArchived(ActivateAt(s, name, target, now)) <==> s[target].pack.deletedAt.None?
  {
    StatusesDiffer();
    var t := ActivateAt(s, name, target, now);
    forall i | 0 <= i < |t| ensures i != target ==> DeletedAt(t, i) {
      assert i != target ==> DeletedAt(s, i);
    }
    assert DeletedAt(t, target) <==> s[target].pack.deletedAt.None?;
  }

  /** Only archived packs carry a deletion time after a step exactly when it revives none that does. */
  lemma DeletedExactly(s: Slots, op: Op)
    requires Inv(s) && Fresh(s, op) && DeletedAreArchived(s)
    ensures DeletedAreArchived(Next(s, op)) <==> !RevivesDeleted(s, op)
  {
    hide Inv, Fresh, Step, GoodStep, CanTransition, ValidRules, ActivateAt, DeletedAt;
    if Step(s, op).Err? {
    } else if op.OpCreate? || op.OpImport? {
      NewDraftsAreNotDeleted(s, op);
    } else if op.OpUpdate? {
      UpdateDeletedExactly(s, op);
    } else if EditsOne(op) {
      EditKeepsDeleted(s, op);
    } else if op.OpSeed? {
      SeedDeletedExactly(s, op);
    } else {
      ActivateIsGood(s, op);
      var key := Chosen(s, op).value;
      assert forall i :: 0 <= i < |s| ==> DeletedAt(s, i);
      ActivateDeletedExactly(s, key.name, Find(s, HasKey(key)).value, op.now);
    }
  }

  lemma UpdateDeletedExactly(s: Slots, op: Op)
    requires op.OpUpdate? && Step(s, op).Ok? && DeletedAreArchived(s)
    ensures DeletedAreArchived(Next(s, op)) <==> !RevivesDeleted(s, op)
  {
    hide Patched, Step, Next;
    UpdateAt(s, op);
    forall j | 0 <= j < |s| && j != Find(s, HasId(op.id)).value ensures DeletedAt(Next(s, op), j) {
      assert DeletedAt(s, j);
    }
  }

  lemma EditKeepsDeleted(s: Slots, op: Op)
    requires Inv(s) && EditsOne(op) && Step(s, op).Ok? && DeletedAreArchived(s)
    ensures DeletedAreArchived(Next(s, op))
  {
    hide Inv, Step, GoodStep, ValidRules;
    EditIsGood(s, op);
    var i: nat, p :| i < |s| && Edit(s[i].pack, p) && Next(s, op) == Put(s, i, p);
    StatusesDiffer();
    forall j | 0 <= j < |s| ensures DeletedAt(Put(s, i, p), j) {
      assert DeletedAt(s, j) && DeletedAt(s, i);
    }
  }

  lemma SeedDeletedExactly(s: Slots, op: Op)
    requires Inv(s) && Fresh(s, op) && op.OpSeed? && Step(s, op).Ok? && DeletedAreArchived(s)
    ensures DeletedAreArchived(Next(s, op)) <==> !RevivesDeleted(s, op)
  {
    hide Inv, Step, GoodStep, ActivateAt, GetActive, Save, DeletedAreArchived;
    SeedIsGood(s, op);
    if Chosen(s, op).Some? {
      var key := Chosen(s, op).value;
      var t, i := SeededSlot(s, op);
      SeedOthersDeleted(s, op, t, i);
      ActivateDeletedExactly(t, op.name, i, op.now);
    }
  }

  /** Where a seeding that takes effect finds its pack: the stored version, or the fixture just added. */
  lemma SeededSlot(s: Slots, op: Op) returns (t: Slots, i: nat)
    requires Inv(s) && Fresh(s, op) && op.OpSeed? && Step(s, op).Ok? && Chosen(s, op).Some?
    ensures t == WithFixture(s, op.name, op.fixture, op.freshId, op.now) && i < |t|
            && Next(s, op) == ActivateAt(t, op.name, i, op.now)
    ensures Shaped(t) && OneActive(t, Some(op.name)) && t[i].pack.name == op.name
    ensures match Find(s, HasKey(Chosen(s, op).value))
            case Some(j) => t == s && i == j
            case None =>
              i == |s| && t == s + [t[i]] && t[i].pack.region == op.fixture.region && t[i].pack.deletedAt.None?
  {
    hide Inv, Step, GoodStep, ActivateAt, GetActive, Save;
    t := WithFixture(s, op.name, op.fixture, op.freshId, op.now);
    SeedIsGood(s, op);
    FixtureShape(s, op.name, op.fixture, op.freshId, op.now);
    FixtureFound(s, op);
    var key := Chosen(s, op).value;
    i := Find(t, HasKey(key)).value;
    assert t[i].key == key;
    if Find(s, HasKey(key)).None? {
      InvParts(s);
      SaveNew(s, FixturePack(op.name, op.fixture), op.freshId, op.now);
    }
  }

  lemma SeedOthersDeleted(s: Slots, op: Op, t: Slots, i: nat)
    requires DeletedAreArchived(s) && i < |t| && (t == s || (i == |s| && t == s + [t[i]]))
    ensures forall j :: 0 <= j < |t| && j != i ==> DeletedAt(t, j)
  {
    forall j | 0 <= j < |t| && j != i ensures DeletedAt(t, j) { assert DeletedAt(s, j); }
  }

  lemma NewDraftsAreNotDeleted(s: Slots, op: Op)
    requires Inv(s) && Fresh(s, op) && (op.OpCreate? || op.OpImport?) && Step(s, op).Ok? && DeletedAreArchived(s)
    ensures DeletedAreArchived(Next(s, op))
  {
    hide ReadDocument;
    forall i | 0 <= i < |Next(s, op)| ensures DeletedAt(Next(s, op), i) {
      if i < |s| { assert DeletedAt(s, i); }
    }
  }

  lemma ActiveIsVisible(s: Slots, name: string)
    requires DeletedAreArchived(s) && GetActive(s, name, None).Some?
    ensures LoadActive(s, name) == Done(Fetched(GetActive(s, name, None).value))
  {
    StatusesDiffer();
    var i := Find(s, IsActiveIn(name, None)).value;
    assert DeletedAt(s, i);
  }

  /** Activations, rollbacks of live packs and updates that set no deletion time revive nothing. */
  lemma SanctionedRevivesNothing(s: Slots, op: Op)
    requires Inv(s) && DeletedAreArchived(s) && Sanctioned(s, op)
    requires op.OpUpdate? ==> op.patch.deletedAt.None?
    ensures !RevivesDeleted(s, op)
  {
    hide CanTransition, Activate, Live;
    LiveStatuses();
    if Step(s, op).Err? {
    } else if op.OpUpdate? {
      UpdateAt(s, op);
      assert DeletedAt(s, Find(s, HasId(op.id)).value);
    } else if RevivesDeleted(s, op) {
      var i := Find(s, HasKey(Chosen(s, op).value)).value;
      assert DeletedAt(s, i);
      if op.OpActivate? {
        var k := Find(s, HasId(op.id)).value;
        assert s[k].key == s[i].key;
        OnlyDraftsPublish(s[k].pack.status);
      }
    }
  }

  /** No use case of the run makes a deleted pack active. */
  ghost predicate RevivalFree(s: Slots, ops: seq<Op>)
    decreases |ops|
  {
    ops == [] || (!RevivesDeleted(s, ops[0]) && RevivalFree(Next(s, ops[0]), ops[1..]))
  }

  ghost predicate RevivalFreeActions(w: World, name: string, actions: seq<Action>)
    decreases |actions|
  {
    actions == []
    || ((actions[0].Use? ==> !RevivesDeleted(w.slots, actions[0].op))
       && RevivalFreeActions(Act(w, name, actions[0]), name, actions[1..]))
  }

  lemma {:induction false} RevivalFreeKeepsDeleted(s: Slots, ops: seq<Op>)
    requires Inv(s) && DeletedAreArchived(s) && LegalRun(s, ops) && RevivalFree(s, ops)
    ensures DeletedAreArchived(RunOps(s, ops))
    decreases |ops|
  {
    hide Inv, Legal, Fresh, Next, DeletedAreArchived, RevivesDeleted, GoodStep;
    if ops != [] {
      LegalIsGood(s, ops[0]);
      DeletedExactly(s, ops[0]);
      GoodInv(s, Next(s, ops[0]));
      RevivalFreeKeepsDeleted(Next(s, ops[0]), ops[1..]);
    }
  }

  lemma {:induction false} WorldKeepsDeleted(w: World, name: string, actions: seq<Action>)
    requires Inv(w.slots) && DeletedAreArchived(w.slots) && LegalActions(w, name, actions)
             && RevivalFreeActions(w, name, actions)
    ensures DeletedAreArchived(RunWorld(w, name, actions).slots)
    decreases |actions|
  {
    hide Inv, Legal, Fresh, RevivesDeleted, Next, GetActive, DeletedAreArchived, Published, GoodStep;
    if actions != [] {
      var a := actions[0];
      if a.Use? {
        LegalIsGood(w.slots, a.op);
        DeletedExactly(w.slots, a.op);
        GoodInv(w.slots, Next(w.slots, a.op));
      }
      WorldKeepsDeleted(Act(w, name, a), name, actions[1..]);
    }
  }

  /** From the empty store through any startup, seeding included: as long as no use case makes a deleted pack active and
      no update makes a draft active or deleted, a warm L1 is the store's active pack whenever there is one. */
  lemma WarmCacheIsTheActivePack(startup: seq<Op>, ttl: real, name: string, actions: seq<Action>)
    requires LegalRun([], startup) && RevivalFree([], startup)
    requires var w := World(RunOps([], startup), NewCache(ttl));
             LegalActions(w, name, actions) && RevivalFreeActions(w, name, actions)
    ensures var z := RunWorld(World(RunOps([], startup), NewCache(ttl)), name, actions);
            var active := GetActive(z.slots, name, None);
            z.cache.value.Some? && active.Some? ==> z.cache.value == Some(Fetched(active.value))
  {
    hide Inv, LegalActions, RevivalFreeActions, RunWorld, DeletedAreArchived, GetActive, LoadActive, RunOps, LegalRun,
         RevivalFree, GoodStep;
    var w := World(RunOps([], startup), NewCache(ttl));
    EmptyInv();
    RunIsGood([], startup);
    GoodInv([], w.slots);
    assert DeletedAreArchived([]) by { NothingDeleted(); }
    RevivalFreeKeepsDeleted([], startup);
    RunAgrees(w, name, actions);
    WorldKeepsDeleted(w, name, actions);
    var z := RunWorld(w, name, actions);
    if GetActive(z.slots, name, None).Some? { ActiveIsVisible(z.slots, name); }
  }

  lemma NothingDeleted()
    ensures DeletedAreArchived([])
  {
  }

  /** A seeding that takes effect leaves a pack the loader finds exactly when the version it activates is stored without
      a region and without a deletion time, or is new and the fixture has no region. */
  lemma SeedVisibility(s: Slots, op: Op)
    requires Inv(s) && Fresh(s, op) && op.OpSeed? && Step(s, op).Ok? && Chosen(s, op).Some?
    ensures LoadActive(Next(s, op), op.name).Done? <==>
            match Find(s, HasKey(Chosen(s, op).value))
            case Some(j) => s[j].pack.region.None? && s[j].pack.deletedAt.None?
            case None => op.fixture.region.None?
  {
    hide Inv, Legal, Step, GoodStep, ActivateAt, LoadActive, WithFixture;
    var t, i := SeededSlot(s, op);
    LoadAfterActivation(t, op.name, i, op.now);
  }

  /** After an activation the loader finds the pack exactly when it has no region and no deletion time. */
  lemma LoadAfterActivation(s: Slots, name: string, i: nat, now: int)
    requires Shaped(s) && OneActive(s, Some(name)) && i < |s| && s[i].pack.name == name
    ensures var t := ActivateAt(s, name, i, now);
            && (GetActive(t, name, None).Some? <==> s[i].pack.region.None?)
            && (LoadActive(t, name).Done? <==> s[i].pack.region.None? && s[i].pack.deletedAt.None?)
  {
    hide Shaped, GoodStep, ActivateAt;
    var t := ActivateAt(s, name, i, now);
    ActivateOne(s, name, i, now);
    ActivatedSlot(s, name, i, now);
    GoodInv(s, t);
    var test := IsActiveIn(name, None);
    assert forall j :: 0 <= j < |t| && test(t[j]) ==> j == i by {
      forall j | 0 <= j < |t| && test(t[j]) ensures j == i {
        assert IsActiveAt(t, j, name) && IsActiveAt(t, i, name);
        OnlyOneActive(t, name, i, j);
      }
    }
    assert test(t[i]) <==> s[i].pack.region.None?;
  }

  lemma OnlyOneActive(t: Slots, name: string, i: nat, j: nat)
    requires Inv(t) && IsActiveAt(t, i, name) && IsActiveAt(t, j, name)
    ensures i == j
  {
    hide Shaped;
  }

  /** Where it fails: after a rollback to a parent without a region, the loader brings the now active pack back exactly
      when the parent had not been deleted. */
  lemma RollbackVisibility(s: Slots, name: string, version: int, now: int, i: nat, parent: nat)
    requires Inv(s) && i < |s| && s[i].key == Key(name, version) && s[i].pack.parentVersion.Some?
    requires parent < |s| && s[parent].key == Key(name, s[i].pack.parentVersion.value)
    requires s[parent].pack.region.None?
    ensures Rollback(s, name, version, None, now).Ok?
    ensures var t := Rollback(s, name, version, None, now).value;
            GetActive(t, name, None).Some? && (LoadActive(t, name).Done? <==> s[parent].pack.deletedAt.None?)
  {
    hide Identified, Rooted, GoodStep, ActivateAt;
    InvParts(s);
    assert HasKey(Key(name, version))(s[i]) && HasKey(Key(name, s[i].pack.parentVersion.value))(s[parent]);
    assert Find(s, HasKey(Key(name, version))) == Some(i);
    assert Find(s, HasKey(Key(name, s[i].pack.parentVersion.value))) == Some(parent);
    OneActiveSpares(s, name);
    LoadAfterActivation(s, name, parent, now);
  }

  lemma ActivatedSlot(s: Slots, name: string, i: nat, now: int)
    requires i < |s|
    ensures var p := ActivateAt(s, name, i, now)[i].pack;
            p.deletedAt == s[i].pack.deletedAt && p.region == s[i].pack.region
  {
  }
}
