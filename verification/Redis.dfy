/** The shared Redis layer: a snapshot under a fresh token, then a pointer to it, under any interleaving. */
module Redis {
  import opened Common
  import opened Values

  // --------------------------------------------------------------------- keys

  predicate HexDigit(c: char) { '0' <= c <= '9' || 'a' <= c <= 'f' }

  /** uuid4().hex */
  predicate IsToken(token: string) { |token| == 32 && forall i :: 0 <= i < |token| ==> HexDigit(token[i]) }

  function PointerKey(prefix: string, key: string): string { prefix + ":" + key + ":pointer" }

  function SnapshotKey(prefix: string, key: string, token: string): string { prefix + ":" + key + ":snapshot:" + token }

  /** Whatever the cache keys look like, no two of these Redis keys are confused. */
  lemma KeysApart(prefix: string, key: string, token: string, key': string, token': string)
    requires IsToken(token) && IsToken(token')
    ensures SnapshotKey(prefix, key, token) != PointerKey(prefix, key')
    ensures SnapshotKey(prefix, key, token) == SnapshotKey(prefix, key', token') ==> key == key' && token == token'
    ensures PointerKey(prefix, key) == PointerKey(prefix, key') ==> key == key'
  {
    var head, head' := prefix + ":" + key + ":snapshot:", prefix + ":" + key' + ":snapshot:";
    var s, s', p, p' := SnapshotKey(prefix, key, token), SnapshotKey(prefix, key', token'), PointerKey(prefix, key),
        PointerKey(prefix, key');
    assert s[|s| - 1] == token[31];
    assert p'[|p'| - 1] == 'r';
    if s == s' {
      assert |head| == |head'|;
      assert token == s[|head|..] == s'[|head'|..] == token';
      MiddleEqual(prefix + ":", key, key', ":snapshot:" + token, s, s');
    }
    if p == p' { MiddleEqual(prefix + ":", key, key', ":pointer", p, p'); }
  }

  lemma MiddleEqual(head: string, a: string, b: string, tail: string, x: string, y: string)
    requires x == head + a + tail && y == head + b + tail && x == y
    ensures a == b
  {
    assert a == x[|head|..|head| + |a|] && b == y[|head|..|head| + |b|];
  }

  // ------------------------------------------------------------ keys and values

  /** A stored string: a token, or a snapshot's JSON text. */
  datatype Cell = Token(token: string) | Payload(snapshot: Object)

  datatype Entry = Entry(cell: Cell, expires: real)

  type Entries = map<string, Entry>

  /** GET */
  function Lookup(entries: Entries, key: string, now: real): Option<Cell> {
    if key in entries && now < entries[key].expires then Some(entries[key].cell) else None
  }

  /** SET key value EX ttl */
  function Set(entries: Entries, key: string, cell: Cell, now: real, ttl: real): Entries {
    entries[key := Entry(cell, now + ttl)]
  }

  /** `max(1, int(ttl))` seconds. */
  function WholeSeconds(ttl: real): (r: real)
    ensures r >= 1.0
    ensures ttl >= 1.0 ==> r <= ttl < r + 1.0
  {
    if ttl.Floor < 1 then 1.0 else ttl.Floor as real
  }

  // ------------------------------------------------------------ interleaved runs

  /** Where one process is inside write_active or read_active. */
  datatype Phase =
    | Idle
    | ToWrite(key: string, token: string, snapshot: Object)
    | HalfWritten(key: string, token: string, snapshot: Object)
    | HalfRead(key: string, token: string)

  datatype Write = Write(key: string, snapshot: Object)

  /** Redis, the processes, and the history of tokens issued and of writes that got to their second SET. */
  datatype State = State(entries: Entries, clock: real, phases: map<nat, Phase>, issued: map<string, Write>,
    flipped: set<string>)

  datatype Step =
    | BeginWrite(p: nat, key: string, snapshot: Object, token: string)
    | SetSnapshot(p: nat)
    | SetPointer(p: nat)
    | GetPointer(p: nat, key: string)
    | GetSnapshot(p: nat)
    | Die(p: nat)
    | Tick(now: real)
    | Evict(redisKey: string)

  function PhaseOf(st: State, p: nat): Phase { if p in st.phases then st.phases[p] else Idle }

  predicate Enabled(st: State, step: Step) {
    match step
    case BeginWrite(p, _, _, token) => PhaseOf(st, p).Idle? && IsToken(token) && token !in st.issued
    case SetSnapshot(p) => PhaseOf(st, p).ToWrite?
    case SetPointer(p) => PhaseOf(st, p).HalfWritten?
    case GetPointer(p, _) => PhaseOf(st, p).Idle?
    case GetSnapshot(p) => PhaseOf(st, p).HalfRead?
    case Die(_) => true
    case Tick(now) => st.clock <= now
    case Evict(_) => true
  }

  /** Death stands for a crash and for a command that fails: the call gives up. */
  function Apply(st: State, step: Step, prefix: string, ttl: real): State
    requires Enabled(st, step)
  {
    match step
    case BeginWrite(p, key, snapshot, token) =>
      st.(phases := st.phases[p := ToWrite(key, token, snapshot)], issued := st.issued[token := Write(key, snapshot)])
    case SetSnapshot(p) =>
      var w := PhaseOf(st, p);
      st.(entries := Set(st.entries, SnapshotKey(prefix, w.key, w.token), Payload(w.snapshot), st.clock, ttl),
          phases := st.phases[p := HalfWritten(w.key, w.token, w.snapshot)])
    case SetPointer(p) =>
      var w := PhaseOf(st, p);
      st.(entries := Set(st.entries, PointerKey(prefix, w.key), Token(w.token), st.clock, ttl),
          phases := st.phases[p := Idle], flipped := st.flipped + {w.token})
    case GetPointer(p, key) =>
      var found := Lookup(st.entries, PointerKey(prefix, key), st.clock);
      if found.Some? && found.value.Token? then st.(phases := st.phases[p := HalfRead(key, found.value.token)]) else st
    case GetSnapshot(p) => st.(phases := st.phases[p := Idle])
    case Die(p) => st.(phases := st.phases[p := Idle])
    case Tick(now) => st.(clock := now)
    case Evict(redisKey) => st.(entries := st.entries - {redisKey})
  }

  /** What read_active returns at its second GET. */
  function Returned(st: State, p: nat, prefix: string): Option<Object>
    requires PhaseOf(st, p).HalfRead?
  {
    var r := PhaseOf(st, p);
    match Lookup(st.entries, SnapshotKey(prefix, r.key, r.token), st.clock)
    case Some(Payload(snapshot)) => Some(snapshot)
    case _ => None
  }

  ghost predicate CanRun(st: State, steps: seq<Step>, prefix: string, ttl: real)
    decreases |steps|, 0
  {
    steps == [] ||
    (var last := |steps| - 1;
     CanRun(st, steps[..last], prefix, ttl) && Enabled(Run(st, steps[..last], prefix, ttl), steps[last]))
  }

  ghost function Run(st: State, steps: seq<Step>, prefix: string, ttl: real): State
    requires CanRun(st, steps, prefix, ttl)
    decreases |steps|, 1
  {
    if steps == [] then st
    else
      var last := |steps| - 1;
      Apply(Run(st, steps[..last], prefix, ttl), steps[last], prefix, ttl)
  }

  const EMPTY := State(map[], 0.0, map[], map[], {})

  // ------------------------------------------------------------------ invariant

  ghost predicate IsPointer(st: State, redisKey: string, token: string, prefix: string) {
    token in st.issued && token in st.flipped && redisKey == PointerKey(prefix, st.issued[token].key)
  }

  ghost predicate IsSnapshot(st: State, redisKey: string, snapshot: Object, prefix: string) {
    exists token :: IsSnapshotOf(st, redisKey, snapshot, token, prefix)
  }

  ghost predicate IsSnapshotOf(st: State, redisKey: string, snapshot: Object, token: string, prefix: string) {
    token in st.issued && redisKey == SnapshotKey(prefix, st.issued[token].key, token)
      && snapshot == st.issued[token].snapshot
  }

  ghost predicate GoodCell(st: State, redisKey: string, cell: Cell, prefix: string) {
    match cell
    case Token(token) => IsPointer(st, redisKey, token, prefix)
    case Payload(snapshot) => IsSnapshot(st, redisKey, snapshot, prefix)
  }

  predicate GoodPhase(st: State, phase: Phase) {
    match phase
    case Idle => true
    case ToWrite(key, token, snapshot) => token in st.issued && st.issued[token] == Write(key, snapshot)
    case HalfWritten(key, token, snapshot) => token in st.issued && st.issued[token] == Write(key, snapshot)
    case HalfRead(key, token) => token in st.issued && token in st.flipped && st.issued[token].key == key
  }

  ghost predicate Inv(st: State, prefix: string) {
    && (forall token :: token in st.issued ==> IsToken(token))
    && (forall k :: k in st.entries ==> GoodCell(st, k, st.entries[k].cell, prefix))
    && (forall p :: p in st.phases ==> GoodPhase(st, st.phases[p]))
  }

  /** History only grows. */
  ghost predicate Grows(st: State, st': State) {
    st.flipped <= st'.flipped && forall token :: token in st.issued ==>
      token in st'.issued && st'.issued[token] == st.issued[token]
  }

  lemma CellStaysGood(st: State, st': State, redisKey: string, cell: Cell, prefix: string)
    requires Grows(st, st') && GoodCell(st, redisKey, cell, prefix)
    ensures GoodCell(st', redisKey, cell, prefix)
  {
    if cell.Payload? {
      var token :| IsSnapshotOf(st, redisKey, cell.snapshot, token, prefix);
      assert IsSnapshotOf(st', redisKey, cell.snapshot, token, prefix);
    }
  }

  lemma StepGrows(st: State, step: Step, prefix: string, ttl: real)
    requires Enabled(st, step)
    ensures Grows(st, Apply(st, step, prefix, ttl))
  {
  }

  lemma StepKeepsInv(st: State, step: Step, prefix: string, ttl: real)
    requires Enabled(st, step) && Inv(st, prefix)
    ensures Inv(Apply(st, step, prefix, ttl), prefix)
  {
    hide IsToken, GoodCell, PointerKey, SnapshotKey;
    var st' := Apply(st, step, prefix, ttl);
    StepGrows(st, step, prefix, ttl);
    forall k | k in st'.entries ensures GoodCell(st', k, st'.entries[k].cell, prefix) {
      if k in st.entries && st'.entries[k] == st.entries[k] {
        CellStaysGood(st, st', k, st.entries[k].cell, prefix);
      } else {
        NewCellIsGood(st, step, k, prefix, ttl);
      }
    }
    forall p | p in st'.phases ensures GoodPhase(st', st'.phases[p]) {
      if step.GetPointer? && p == step.p && st'.phases[p] != PhaseOf(st, p) {
        PointerSeen(st, step, prefix, ttl);
      } else if p in st.phases {
        assert GoodPhase(st, st.phases[p]);
      }
    }
  }

  lemma NewCellIsGood(st: State, step: Step, k: string, prefix: string, ttl: real)
    requires Enabled(st, step) && Inv(st, prefix)
    requires k in Apply(st, step, prefix, ttl).entries
    requires !(k in st.entries && Apply(st, step, prefix, ttl).entries[k] == st.entries[k])
    ensures GoodCell(Apply(st, step, prefix, ttl), k, Apply(st, step, prefix, ttl).entries[k].cell, prefix)
  {
    hide IsToken, PointerKey, SnapshotKey;
    var st' := Apply(st, step, prefix, ttl);
    var w := PhaseOf(st, step.p);
    assert GoodPhase(st, w);
    if step.SetSnapshot? {
      assert IsSnapshotOf(st', k, w.snapshot, w.token, prefix);
    }
  }

  lemma PointerSeen(st: State, step: Step, prefix: string, ttl: real)
    requires step.GetPointer? && Enabled(st, step) && Inv(st, prefix)
             && PhaseOf(Apply(st, step, prefix, ttl), step.p) != PhaseOf(st, step.p)
    ensures GoodPhase(Apply(st, step, prefix, ttl), PhaseOf(Apply(st, step, prefix, ttl), step.p))
  {
    var redisKey := PointerKey(prefix, step.key);
    var token := Lookup(st.entries, redisKey, st.clock).value.token;
    assert GoodCell(st, redisKey, Token(token), prefix);
    KeysMatch(prefix, st.issued[token].key, step.key);
  }

  lemma KeysMatch(prefix: string, a: string, b: string)
    ensures PointerKey(prefix, a) == PointerKey(prefix, b) ==> a == b
  {
    var zeros := "00000000000000000000000000000000";
    KeysApart(prefix, a, zeros, b, zeros);
  }

  lemma {:induction false} RunKeepsInv(steps: seq<Step>, prefix: string, ttl: real)
    requires CanRun(EMPTY, steps, prefix, ttl)
    ensures Inv(Run(EMPTY, steps, prefix, ttl), prefix)
    decreases |steps|
  {
    hide Inv, Apply, Enabled;
    if steps == [] {
      EmptyInv(prefix);
    } else {
      var last := |steps| - 1;
      RunKeepsInv(steps[..last], prefix, ttl);
      StepKeepsInv(Run(EMPTY, steps[..last], prefix, ttl), steps[last], prefix, ttl);
    }
  }

  lemma EmptyInv(prefix: string)
    ensures Inv(EMPTY, prefix)
  {
  }

  // ------------------------------------------------------------------- the theorem

  predicate IsBy(step: Step, p: nat) {
    match step
    case BeginWrite(q, _, _, _) => q == p
    case SetSnapshot(q) => q == p
    case SetPointer(q) => q == p
    case GetPointer(q, _) => q == p
    case GetSnapshot(q) => q == p
    case Die(q) => q == p
    case Tick(_) => false
    case Evict(_) => false
  }

  /** Step i was p's first GET: it found this token under the key's pointer, and p has done nothing since. */
  ghost predicate FirstGet(steps: seq<Step>, i: nat, p: nat, key: string, token: string, prefix: string, ttl: real) {
    && i < |steps| && steps[i] == GetPointer(p, key) && CanRun(EMPTY, steps[..i], prefix, ttl)
    && (var st := Run(EMPTY, steps[..i], prefix, ttl);
       Lookup(st.entries, PointerKey(prefix, key), st.clock) == Some(Token(token)))
    && forall j :: i < j < |steps| ==> !IsBy(steps[j], p)
  }

  lemma {:induction false} ReaderSawPointer(steps: seq<Step>, p: nat, key: string, token: string, prefix: string,
                                            ttl: real)
    requires CanRun(EMPTY, steps, prefix, ttl) && PhaseOf(Run(EMPTY, steps, prefix, ttl), p) == HalfRead(key, token)
    ensures exists i :: FirstGet(steps, i, p, key, token, prefix, ttl)
    decreases |steps|
  {
    hide PointerKey, SnapshotKey, IsToken;
    if steps != [] {
      var last := |steps| - 1;
      var before, st := steps[..last], Run(EMPTY, steps[..last], prefix, ttl);
      if IsBy(steps[last], p) {
        assert steps[..last] == before;
        assert FirstGet(steps, last, p, key, token, prefix, ttl);
      } else {
        assert PhaseOf(st, p) == HalfRead(key, token);
        ReaderSawPointer(before, p, key, token, prefix, ttl);
        var i: nat :| FirstGet(before, i, p, key, token, prefix, ttl);
        assert steps[..i] == before[..i];
        assert forall j :: i < j < |steps| ==> !IsBy(steps[j], p) by {
          forall j | i < j < |steps| ensures !IsBy(steps[j], p) {
            if j < last { assert before[j] == steps[j]; }
          }
        }
        assert FirstGet(steps, i, p, key, token, prefix, ttl);
      }
    }
  }

  /** Step i was the second SET of the write with this token. */
  ghost predicate SecondSet(steps: seq<Step>, i: nat, token: string, write: Write, prefix: string, ttl: real) {
    && i < |steps| && steps[i].SetPointer? && CanRun(EMPTY, steps[..i], prefix, ttl)
    && PhaseOf(Run(EMPTY, steps[..i], prefix, ttl), steps[i].p) == HalfWritten(write.key, token, write.snapshot)
  }

  lemma {:induction false} FlippedBySecondSet(steps: seq<Step>, token: string, prefix: string, ttl: real)
    requires CanRun(EMPTY, steps, prefix, ttl) && token in Run(EMPTY, steps, prefix, ttl).flipped
    ensures token in Run(EMPTY, steps, prefix, ttl).issued
    ensures exists i :: SecondSet(steps, i, token, Run(EMPTY, steps, prefix, ttl).issued[token], prefix, ttl)
    decreases |steps|
  {
    hide PointerKey, SnapshotKey, IsToken, GoodCell;
    if steps != [] {
      var last := |steps| - 1;
      var before := steps[..last];
      var st := Run(EMPTY, before, prefix, ttl);
      RunKeepsInv(before, prefix, ttl);
      StepGrows(st, steps[last], prefix, ttl);
      if token in st.flipped {
        FlippedBySecondSet(before, token, prefix, ttl);
        var i: nat :| SecondSet(before, i, token, st.issued[token], prefix, ttl);
        assert steps[..i] == before[..i];
        assert SecondSet(steps, i, token, st.issued[token], prefix, ttl);
      } else {
        assert GoodPhase(st, PhaseOf(st, steps[last].p));
        assert SecondSet(steps, last, token, st.issued[token], prefix, ttl);
      }
    }
  }

  /** Under any interleaving of readers, writers, deaths, expiry and eviction: a snapshot a reader returns is the
      complete payload of one write to that cache key, whose token was the pointer at the reader's first GET and whose
      second SET was carried out. */
  lemma ReadsAreWholeWrites(steps: seq<Step>, p: nat, prefix: string, ttl: real)
    requires CanRun(EMPTY, steps, prefix, ttl) && PhaseOf(Run(EMPTY, steps, prefix, ttl), p).HalfRead?
    requires Returned(Run(EMPTY, steps, prefix, ttl), p, prefix).Some?
    ensures var st := Run(EMPTY, steps, prefix, ttl); var read := PhaseOf(st, p);
            && read.token in st.issued && st.issued[read.token] == Write(read.key, Returned(st, p, prefix).value)
            && (exists i :: FirstGet(steps, i, p, read.key, read.token, prefix, ttl))
            && (exists i :: SecondSet(steps, i, read.token, st.issued[read.token], prefix, ttl))
  {
    hide Run, CanRun, FirstGet, SecondSet, PointerKey, SnapshotKey, IsToken;
    var st := Run(EMPTY, steps, prefix, ttl);
    var read := PhaseOf(st, p);
    RunKeepsInv(steps, prefix, ttl);
    assert GoodPhase(st, read);
    ReaderSawPointer(steps, p, read.key, read.token, prefix, ttl);
    FlippedBySecondSet(steps, read.token, prefix, ttl);
    var redisKey := SnapshotKey(prefix, read.key, read.token);
    var snapshot := Returned(st, p, prefix).value;
    assert GoodCell(st, redisKey, Payload(snapshot), prefix);
    var token :| IsSnapshotOf(st, redisKey, snapshot, token, prefix);
    KeysApart(prefix, read.key, read.token, st.issued[token].key, token);
  }

  /** Step i was the first SET of the write with this token. */
  ghost predicate FirstSet(steps: seq<Step>, i: nat, token: string, write: Write, prefix: string, ttl: real) {
    && i < |steps| && steps[i].SetSnapshot? && CanRun(EMPTY, steps[..i], prefix, ttl)
    && PhaseOf(Run(EMPTY, steps[..i], prefix, ttl), steps[i].p) == ToWrite(write.key, token, write.snapshot)
  }

  /** Step i put this entry there. */
  ghost predicate SetAt(steps: seq<Step>, i: nat, redisKey: string, entry: Entry, token: string, write: Write,
                        prefix: string, ttl: real) {
    && FirstSet(steps, i, token, write, prefix, ttl) && redisKey == SnapshotKey(prefix, write.key, token)
    && entry == Entry(Payload(write.snapshot), Run(EMPTY, steps[..i], prefix, ttl).clock + ttl)
  }

  lemma {:induction false} EntryWasSet(steps: seq<Step>, redisKey: string, prefix: string, ttl: real)
    requires CanRun(EMPTY, steps, prefix, ttl) && redisKey in Run(EMPTY, steps, prefix, ttl).entries
    requires Run(EMPTY, steps, prefix, ttl).entries[redisKey].cell.Payload?
    ensures exists i: nat, token, write ::
              SetAt(steps, i, redisKey, Run(EMPTY, steps, prefix, ttl).entries[redisKey], token, write, prefix, ttl)
    decreases |steps|
  {
    hide PointerKey, SnapshotKey, IsToken;
    var last := |steps| - 1;
    var before := steps[..last];
    var st := Run(EMPTY, before, prefix, ttl);
    var entry := Run(EMPTY, steps, prefix, ttl).entries[redisKey];
    if redisKey in st.entries && st.entries[redisKey] == entry {
      EntryWasSet(before, redisKey, prefix, ttl);
      var i: nat, token, write :| SetAt(before, i, redisKey, entry, token, write, prefix, ttl);
      assert steps[..i] == before[..i];
      assert SetAt(steps, i, redisKey, entry, token, write, prefix, ttl);
    } else {
      var w := PhaseOf(st, steps[last].p);
      assert SetAt(steps, last, redisKey, entry, w.token, Write(w.key, w.snapshot), prefix, ttl);
    }
  }

  /** And it is recent: the first SET of that write was carried out less than the TTL before the reader's second GET. */
  lemma ReadsAreRecent(steps: seq<Step>, p: nat, prefix: string, ttl: real)
    requires CanRun(EMPTY, steps, prefix, ttl) && PhaseOf(Run(EMPTY, steps, prefix, ttl), p).HalfRead?
    requires Returned(Run(EMPTY, steps, prefix, ttl), p, prefix).Some?
    ensures var st := Run(EMPTY, steps, prefix, ttl); var read := PhaseOf(st, p);
            exists i: nat ::
              && FirstSet(steps, i, read.token, Write(read.key, Returned(st, p, prefix).value), prefix, ttl)
              && st.clock - Run(EMPTY, steps[..i], prefix, ttl).clock < ttl
  {
    hide Run, CanRun, FirstSet, PointerKey, SnapshotKey, IsToken;
    var st := Run(EMPTY, steps, prefix, ttl);
    var read := PhaseOf(st, p);
    var redisKey := SnapshotKey(prefix, read.key, read.token);
    EntryWasSet(steps, redisKey, prefix, ttl);
    var i: nat, token, write :| SetAt(steps, i, redisKey, st.entries[redisKey], token, write, prefix, ttl);
    FirstSetIssued(steps, i, token, write, prefix, ttl);
    RunKeepsInv(steps, prefix, ttl);
    assert GoodPhase(st, read);
    KeysApart(prefix, read.key, read.token, write.key, token);
    assert FirstSet(steps, i, read.token, Write(read.key, Returned(st, p, prefix).value), prefix, ttl);
  }

  lemma FirstSetIssued(steps: seq<Step>, i: nat, token: string, write: Write, prefix: string, ttl: real)
    requires FirstSet(steps, i, token, write, prefix, ttl)
    ensures IsToken(token) && CanRun(EMPTY, steps[..i], prefix, ttl)
  {
    hide Run, CanRun, IsToken;
    var st := Run(EMPTY, steps[..i], prefix, ttl);
    RunKeepsInv(steps[..i], prefix, ttl);
    assert GoodPhase(st, PhaseOf(st, steps[i].p));
  }

  // ------------------------------------------------------------- one call at a time

  class RedisClient {
    var entries: Entries

    constructor ()
      ensures entries == map[]
    {
      entries := map[];
    }

    method SetEx(key: string, cell: Cell, now: real, ttl: real)
      modifies this
      ensures entries == Set(old(entries), key, cell, now, ttl)
    {
      entries := entries[key := Entry(cell, now + ttl)];
    }
  }

  /** What write_active leaves behind when nothing else happens in between; a SET that fails is the last thing sent. */
  function WriteOut(entries: Entries, prefix: string, key: string, token: string, snapshot: Object, now: real,
                    ttl: real, firstWorks: bool, secondWorks: bool): Entries {
    if !firstWorks then entries
    else
      var half := Set(entries, SnapshotKey(prefix, key, token), Payload(snapshot), now, ttl);
      if secondWorks then Set(half, PointerKey(prefix, key), Token(token), now, ttl) else half
  }

  /** The steps of one such write. */
  function WriteSteps(p: nat, key: string, snapshot: Object, token: string, firstWorks: bool, secondWorks: bool)
    : seq<Step> {
    [BeginWrite(p, key, snapshot, token)]
    + if !firstWorks then [Die(p)] else [SetSnapshot(p), if secondWorks then SetPointer(p) else Die(p)]
  }

  /** What read_active gives when nothing else happens in between. */
  function ReadBack(entries: Entries, prefix: string, key: string, now: real): Option<Object> {
    match Lookup(entries, PointerKey(prefix, key), now)
    case Some(Token(token)) =>
      (match Lookup(entries, SnapshotKey(prefix, key, token), now)
       case Some(Payload(snapshot)) => Some(snapshot)
       case _ => None)
    case _ => None
  }

  class RedisCacheBackend {
    const client: RedisClient
    const prefix: string
    const ttl: real

    constructor (client: RedisClient, prefix: string, snapshotTtl: real)
      ensures this.client == client && this.prefix == prefix && ttl == WholeSeconds(snapshotTtl)
    {
      this.client := client;
      this.prefix := prefix;
      ttl := WholeSeconds(snapshotTtl);
    }

    /** write_active: either SET may fail, and then nothing more is sent. */
    method WriteActive(key: string, snapshot: Object, token: string, now: real, firstWorks: bool, secondWorks: bool)
      modifies client
      ensures client.entries ==
              WriteOut(old(client.entries), prefix, key, token, snapshot, now, ttl, firstWorks, secondWorks)
    {
      if !firstWorks { return; }
      client.SetEx(SnapshotKey(prefix, key, token), Payload(snapshot), now, ttl);
      if !secondWorks { return; }
      client.SetEx(PointerKey(prefix, key), Token(token), now, ttl);
    }

    /** read_active: a GET that fails is a miss. */
    method ReadActive(key: string, now: real, firstWorks: bool, secondWorks: bool) returns (r: Option<Object>)
      ensures r == if firstWorks && secondWorks then ReadBack(client.entries, prefix, key, now) else None
    {
      hide PointerKey, SnapshotKey;
      if !firstWorks { return None; }
      var pointer := Lookup(client.entries, PointerKey(prefix, key), now);
      if pointer.None? || !pointer.value.Token? || !secondWorks { return None; }
      var found := Lookup(client.entries, SnapshotKey(prefix, key, pointer.value.token), now);
      r := if found.Some? && found.value.Payload? then Some(found.value.snapshot) else None;
    }
  }

  lemma OneMoreStep(st: State, steps: seq<Step>, step: Step, prefix: string, ttl: real)
    requires CanRun(st, steps, prefix, ttl) && Enabled(Run(st, steps, prefix, ttl), step)
    ensures CanRun(st, steps + [step], prefix, ttl)
    ensures Run(st, steps + [step], prefix, ttl) == Apply(Run(st, steps, prefix, ttl), step, prefix, ttl)
  {
    assert (steps + [step])[..|steps|] == steps;
  }

  /** write_active does what its steps do when no other process takes one in between, and leaves the process idle. */
  lemma WriteIsItsSteps(st: State, p: nat, key: string, snapshot: Object, token: string, prefix: string, ttl: real,
                        firstWorks: bool, secondWorks: bool)
    requires Enabled(st, BeginWrite(p, key, snapshot, token))
    ensures var steps := WriteSteps(p, key, snapshot, token, firstWorks, secondWorks);
            && CanRun(st, steps, prefix, ttl)
            && PhaseOf(Run(st, steps, prefix, ttl), p).Idle?
            && Run(st, steps, prefix, ttl).entries ==
               WriteOut(st.entries, prefix, key, token, snapshot, st.clock, ttl, firstWorks, secondWorks)
  {
    hide Run, CanRun, PointerKey, SnapshotKey, IsToken;
    var begin := BeginWrite(p, key, snapshot, token);
    NoSteps(st, prefix, ttl);
    OneMoreStep(st, [], begin, prefix, ttl);
    assert [] + [begin] == [begin];
    if !firstWorks {
      OneMoreStep(st, [begin], Die(p), prefix, ttl);
    } else {
      var second := if secondWorks then SetPointer(p) else Die(p);
      OneMoreStep(st, [begin], SetSnapshot(p), prefix, ttl);
      OneMoreStep(st, [begin] + [SetSnapshot(p)], second, prefix, ttl);
      assert [begin] + [SetSnapshot(p)] + [second] == [begin] + [SetSnapshot(p), second];
    }
  }

  lemma NoSteps(st: State, prefix: string, ttl: real)
    ensures CanRun(st, [], prefix, ttl) && Run(st, [], prefix, ttl) == st
  {
  }

  /** read_active returns what its two steps return when no other process takes one in between. */
  lemma ReadIsItsSteps(st: State, p: nat, key: string, prefix: string, ttl: real)
    requires Enabled(st, GetPointer(p, key))
    ensures var seen := Apply(st, GetPointer(p, key), prefix, ttl);
            ReadBack(st.entries, prefix, key, st.clock) ==
              if Enabled(seen, GetSnapshot(p)) then Returned(seen, p, prefix) else None
  {
    hide PointerKey, SnapshotKey;
  }

  /** A complete write is read back until its TTL has passed and not a moment longer. */
  lemma WriteThenRead(entries: Entries, prefix: string, key: string, token: string, snapshot: Object, now: real,
                      ttl: real, later: real)
    requires IsToken(token) && now <= later
    ensures var written := WriteOut(entries, prefix, key, token, snapshot, now, ttl, true, true);
            ReadBack(written, prefix, key, later) == if later < now + ttl then Some(snapshot) else None
  {
    KeysApart(prefix, key, token, key, token);
  }

  /** A write that dies between its SETs changes what no reader gets, for any cache key. */
  lemma HalfWriteIsInvisible(entries: Entries, prefix: string, key: string, token: string, snapshot: Object, now: real,
                             ttl: real, other: string, later: real)
    requires IsToken(token)
    requires forall k :: k in entries && entries[k].cell.Token? ==>
             IsToken(entries[k].cell.token) && entries[k].cell.token != token
    ensures var half := WriteOut(entries, prefix, key, token, snapshot, now, ttl, true, false);
            ReadBack(half, prefix, other, later) == ReadBack(entries, prefix, other, later)
  {
    hide PointerKey, SnapshotKey, IsToken;
    KeysApart(prefix, key, token, other, token);
    match Lookup(entries, PointerKey(prefix, other), later) {
      case Some(Token(seen)) => KeysApart(prefix, key, token, other, seen);
      case _ =>
    }
  }
}
