/** The rule-pack store: what each repository operation does to its contents. */
module Store {
  import opened Common
  import opened Rules

  const DRAFT := "draft"
  const PUBLISHED := "published"
  const ACTIVE := "active"
  const DEPRECATED := "deprecated"
  const ARCHIVED := "archived"

  datatype Key = Key(name: string, version: int)

  /** One slot of the dictionary `_store`; slots are listed in insertion order. */
  datatype Slot = Slot(key: Key, pack: RulePack)

  type Slots = seq<Slot>

  datatype Error = ValueError | ConcurrentModification | BadDocument
  datatype Result<+T> = Ok(value: T) | Err(error: Error)

  /** can_transition */
  predicate CanTransition(current: string, target: string) {
    if current == DRAFT then target == PUBLISHED || target == ARCHIVED
    else if current == PUBLISHED then target == ACTIVE || target == ARCHIVED || target == DRAFT
    else if current == ACTIVE then target == DEPRECATED || target == ARCHIVED
    else if current == DEPRECATED then target == ACTIVE || target == ARCHIVED
    else false
  }

  // ---------------------------------------------------------------- look-ups

  /** The first slot that passes the test. */
  function Find(s: Slots, test: Slot -> bool): (r: Option<nat>)
    ensures r.Some? ==> r.value < |s| && test(s[r.value]) && forall j :: 0 <= j < r.value ==> !test(s[j])
    ensures r.None? ==> forall j :: 0 <= j < |s| ==> !test(s[j])
  {
    if s == [] then None
    else if test(s[0]) then Some(0)
    else
      match Find(s[1..], test)
      case None => None
      case Some(i) =>
        assert forall j :: 0 < j < |s| ==> s[j] == s[1..][j - 1];
        Some(i + 1)
  }

  function HasKey(key: Key): Slot -> bool { (x: Slot) => x.key == key }

  function HasId(id: string): Slot -> bool { (x: Slot) => x.pack.id == Some(id) }

  function IsActiveIn(name: string, region: Option<string>): Slot -> bool {
    (x: Slot) => x.pack.name == name && x.pack.status == ACTIVE && x.pack.region == region
  }

  /** repository.get_active */
  function GetActive(s: Slots, name: string, region: Option<string>): Option<RulePack> {
    match Find(s, IsActiveIn(name, region)) case Some(i) => Some(s[i].pack) case None => None
  }

  function VersionsOf(s: Slots, name: string): seq<int> {
    if s == [] then []
    else (if s[0].pack.name == name then [s[0].pack.version] else []) + VersionsOf(s[1..], name)
  }

  /** The highest version of a name; None for a new name. */
  function Latest(s: Slots, name: string): (v: Option<int>)
    ensures v.Some? ==> exists i :: 0 <= i < |s| && s[i].pack.name == name && s[i].pack.version == v.value
    ensures forall i :: 0 <= i < |s| && s[i].pack.name == name ==> v.Some? && s[i].pack.version <= v.value
  {
    if s == [] then None
    else
      var rest := Latest(s[1..], name);
      assert forall j :: 0 < j < |s| ==> s[j] == s[1..][j - 1];
      var first := s[0].pack;
      if first.name == name && (rest.None? || first.version > rest.value) then
        Some(first.version)
      else
        assert rest.Some? ==> exists i :: 0 < i < |s| && s[i].pack.name == name && s[i].pack.version == rest.value by {
          if rest.Some? {
            var i :| 0 <= i < |s[1..]| && s[1..][i].pack.name == name && s[1..][i].pack.version == rest.value;
            assert s[i + 1].pack == s[1..][i].pack;
          }
        }
        rest
  }

  // ----------------------------------------------------------------- changes

  function Put(s: Slots, i: nat, pack: RulePack): Slots
    requires i < |s|
  {
    s[i := s[i].(pack := pack)]
  }

  /** save: stamps a missing id and creation time, then assigns the dictionary slot. */
  function Save(s: Slots, pack: RulePack, freshId: string, now: int): Slots {
    var saved := pack.(id := if pack.id.None? then Some(freshId) else pack.id,
                       createdAt := if pack.createdAt.None? then Some(now) else pack.createdAt);
    var key := Key(pack.name, pack.version);
    match Find(s, HasKey(key))
    case Some(i) => Put(s, i, saved)
    case None => s + [Slot(key, saved)]
  }

  predicate LockOk(pack: RulePack, expected: Option<int>) { expected.None? || pack.lockVersion == expected.value }

  /** A change to the pack with an id, behind the optimistic lock, which goes up by one after the change. */
  function ChangeById(s: Slots, id: string, expected: Option<int>, change: RulePack -> RulePack): Result<Slots> {
    match Find(s, HasId(id))
    case None => Err(ValueError)
    case Some(i) =>
      if !LockOk(s[i].pack, expected) then Err(ConcurrentModification)
      else
        var changed := change(s[i].pack);
        Ok(Put(s, i, changed.(lockVersion := changed.lockVersion + 1)))
  }

  /** The fields an update sets, which may be any of a pack's; absent ones are left alone. */
  datatype Patch = Patch(
    name: Option<string> := None,
    version: Option<int> := None,
    status: Option<string> := None,
    region: Option<Option<string>> := None,
    rules: Option<seq<Rule>> := None,
    parentVersion: Option<Option<int>> := None,
    id: Option<Option<string>> := None,
    tenantId: Option<Option<string>> := None,
    createdBy: Option<string> := None,
    createdAt: Option<Option<int>> := None,
    activatedAt: Option<Option<int>> := None,
    deletedAt: Option<Option<int>> := None,
    lockVersion: Option<int> := None)

  function Or<T>(wanted: Option<T>, now: T): T { if wanted.Some? then wanted.value else now }

  /** The field is not set, or set to what it is. */
  predicate Leaves<T(==)>(wanted: Option<T>, now: T) { wanted.None? || wanted.value == now }

  function Patched(patch: Patch): RulePack -> RulePack {
    (p: RulePack) =>
      RulePack(Or(patch.name, p.name), Or(patch.version, p.version), Or(patch.status, p.status),
               Or(patch.region, p.region), Or(patch.rules, p.rules), Or(patch.parentVersion, p.parentVersion),
               Or(patch.id, p.id), Or(patch.tenantId, p.tenantId), Or(patch.createdBy, p.createdBy),
               Or(patch.createdAt, p.createdAt), Or(patch.activatedAt, p.activatedAt),
               Or(patch.deletedAt, p.deletedAt), Or(patch.lockVersion, p.lockVersion))
  }

  function WithStatus(status: string): RulePack -> RulePack { (p: RulePack) => p.(status := status) }

  function Archived(now: int): RulePack -> RulePack {
    (p: RulePack) => p.(status := ARCHIVED, deletedAt := Some(now))
  }

  function UpdateMetadata(s: Slots, id: string, expected: Option<int>, patch: Patch): Result<Slots> {
    ChangeById(s, id, expected, Patched(patch))
  }

  function UpdateStatus(s: Slots, id: string, status: string, expected: Option<int>): Result<Slots> {
    ChangeById(s, id, expected, WithStatus(status))
  }

  function SoftDelete(s: Slots, id: string, expected: Option<int>, now: int): Result<Slots> {
    ChangeById(s, id, expected, Archived(now))
  }

  /** Every active version of the name steps down, in every region. */
  function Deprecated(p: RulePack, name: string): RulePack {
    if p.name == name && p.status == ACTIVE then p.(status := DEPRECATED, lockVersion := p.lockVersion + 1) else p
  }

  function Activated(p: RulePack, now: int): RulePack {
    p.(status := ACTIVE, activatedAt := Some(now), lockVersion := p.lockVersion + 1)
  }

  function ActivateAt(s: Slots, name: string, target: nat, now: int): (t: Slots)
    ensures |t| == |s|
  {
    seq(|s|, j requires 0 <= j < |s| =>
      var stepped := Deprecated(s[j].pack, name);
      s[j].(pack := if j == target then Activated(stepped, now) else stepped))
  }

  function Activate(s: Slots, name: string, version: int, expected: Option<int>, now: int): Result<Slots> {
    match Find(s, HasKey(Key(name, version)))
    case None => Err(ValueError)
    case Some(i) =>
      if !LockOk(s[i].pack, expected) then Err(ConcurrentModification) else Ok(ActivateAt(s, name, i, now))
  }

  // ----------------------------------------------------------- lost updates

  /** One call into the repository. */
  datatype Call =
    | CallUpdateMetadata(id: string, expected: Option<int>, patch: Patch)
    | CallUpdateStatus(id: string, status: string, expected: Option<int>)
    | CallSoftDelete(id: string, expected: Option<int>, now: int)
    | CallActivate(name: string, version: int, expected: Option<int>, now: int)

  function Perform(s: Slots, c: Call): Result<Slots> {
    match c
    case CallUpdateMetadata(id, expected, patch) => UpdateMetadata(s, id, expected, patch)
    case CallUpdateStatus(id, status, expected) => UpdateStatus(s, id, status, expected)
    case CallSoftDelete(id, expected, now) => SoftDelete(s, id, expected, now)
    case CallActivate(name, version, expected, now) => Activate(s, name, version, expected, now)
  }

  function After(s: Slots, c: Call): Slots { match Perform(s, c) case Ok(t) => t case Err(_) => s }

  function RunCalls(s: Slots, cs: seq<Call>): Slots
    decreases |cs|
  {
    if cs == [] then s else RunCalls(After(s, cs[0]), cs[1..])
  }

  /** The slot a call is about. */
  function Target(s: Slots, c: Call): Option<nat> {
    if c.CallActivate? then Find(s, HasKey(Key(c.name, c.version))) else Find(s, HasId(c.id))
  }

  /** The call does not set the lock version of its pack below what it is. */
  predicate SetsNoLowerLock(s: Slots, c: Call) {
    c.CallUpdateMetadata? && c.patch.lockVersion.Some? && Find(s, HasId(c.id)).Some? ==>
      c.patch.lockVersion.value >= s[Find(s, HasId(c.id)).value].pack.lockVersion
  }

  predicate SetNoLowerLock(s: Slots, cs: seq<Call>)
    decreases |cs|
  {
    cs == [] || (SetsNoLowerLock(s, cs[0]) && SetNoLowerLock(After(s, cs[0]), cs[1..]))
  }

  /** A call keeps the slots and lowers no other pack's lock version. One that succeeds has passed the lock check, and
      moves its own target's lock version up exactly when it does not set it below what it was. */
  lemma CallRaisesLock(s: Slots, c: Call, i: nat)
    requires i < |s|
    ensures |After(s, c)| == |s|
    ensures Perform(s, c).Err? || Target(s, c) != Some(i) ==>
              After(s, c)[i].pack.lockVersion >= s[i].pack.lockVersion
    ensures Perform(s, c).Ok? && Target(s, c) == Some(i) ==>
              && LockOk(s[i].pack, c.expected)
              && (After(s, c)[i].pack.lockVersion > s[i].pack.lockVersion <==> SetsNoLowerLock(s, c))
  {
  }

  lemma {:induction false} LocksOnlyRise(s: Slots, cs: seq<Call>, i: nat)
    requires i < |s| && SetNoLowerLock(s, cs)
    ensures |RunCalls(s, cs)| == |s|
    ensures RunCalls(s, cs)[i].pack.lockVersion >= s[i].pack.lockVersion
    decreases |cs|
  {
    hide After, Perform, SetsNoLowerLock;
    if cs != [] {
      CallRaisesLock(s, cs[0], i);
      LocksOnlyRise(After(s, cs[0]), cs[1..], i);
    }
  }

  /** No lost update: whatever is called in between, of two calls on one pack that pass the same expected lock version,
      the second fails if the first succeeded, as long as no update sets a lock version below what it is. */
  lemma NoLostUpdate(s: Slots, first: Call, between: seq<Call>, second: Call, i: nat, expected: int)
    requires i < |s| && first.expected == second.expected == Some(expected)
    requires SetsNoLowerLock(s, first) && SetNoLowerLock(After(s, first), between)
    requires Target(s, first) == Some(i) && Perform(s, first).Ok?
    requires var t := RunCalls(After(s, first), between); Target(t, second) == Some(i)
    ensures Perform(RunCalls(After(s, first), between), second) == Err(ConcurrentModification)
  {
    CallRaisesLock(s, first, i);
    LocksOnlyRise(After(s, first), between, i);
  }

  /** Why updates must not set the lock version: a second call with the lock version that the first one passed is turned
      away exactly when the first one did not set the lock back by one. */
  lemma LostUpdateExactly(s: Slots, first: Call, second: Call, i: nat, expected: int)
    requires first.CallUpdateMetadata? && first.expected == second.expected == Some(expected)
    requires Target(s, first) == Some(i) && Perform(s, first).Ok? && Target(After(s, first), second) == Some(i)
    ensures Perform(After(s, first), second) == Err(ConcurrentModification) <==>
            first.patch.lockVersion != Some(expected - 1)
  {
  }
}
