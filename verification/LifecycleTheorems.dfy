/** What every run of the use cases keeps: one active version, frozen packs, vetted rules. */
module LifecycleTheorems {
  import opened Common
  import opened Rules
  import opened Validation
  import opened Store
  import Pipeline
  import Policy
  import opened Snapshots
  import opened Lifecycle

  // ------------------------------------------------------------- the invariant

  ghost predicate Keyed(s: Slots) {
    && (forall i :: 0 <= i < |s| ==> s[i].key == Key(s[i].pack.name, s[i].pack.version))
    && (forall i, j :: 0 <= i < j < |s| ==> s[i].key != s[j].key)
  }

  ghost predicate Identified(s: Slots) {
    && (forall i :: 0 <= i < |s| ==> s[i].pack.id.Some?)
    && (forall i, j :: 0 <= i < j < |s| ==> s[i].pack.id != s[j].pack.id)
  }

  ghost predicate HasParent(s: Slots, i: nat)
    requires i < |s|
  {
    s[i].pack.parentVersion.Some? ==>
      exists j :: 0 <= j < i && s[j].key == Key(s[i].pack.name, s[i].pack.parentVersion.value)
  }

  /** A parent was there first. */
  ghost predicate Rooted(s: Slots) { forall i :: 0 <= i < |s| ==> HasParent(s, i) }

  /** At most one active version of each name (but for the spared one). */
  ghost predicate OneActive(s: Slots, spared: Option<string>) {
    forall i, j :: 0 <= i < j < |s| && s[i].pack.status == ACTIVE && s[j].pack.status == ACTIVE
      && Some(s[i].pack.name) != spared
      ==> s[i].pack.name != s[j].pack.name
  }

  ghost predicate Shaped(s: Slots) { Keyed(s) && Identified(s) && Rooted(s) }

  ghost predicate Inv(s: Slots) { Shaped(s) && OneActive(s, None) }

  ghost predicate IsActiveAt(s: Slots, i: nat, name: string) {
    i < |s| && s[i].pack.name == name && s[i].pack.status == ACTIVE
  }

  ghost predicate HasActive(s: Slots, name: string) { exists i :: IsActiveAt(s, i, name) }

  /** What no step does to a pack; leaving Draft freezes it. */
  ghost predicate Kept(a: RulePack, b: RulePack) {
    && b.name == a.name && b.version == a.version && b.parentVersion == a.parentVersion && b.id == a.id
    && b.lockVersion >= a.lockVersion
    && (a.status != DRAFT ==>
       b.status != DRAFT && b.rules == a.rules && b.region == a.region && b.tenantId == a.tenantId)
  }

  ghost predicate Evolves(s: Slots, t: Slots) {
    |s| <= |t| && forall i :: 0 <= i < |s| ==> t[i].key == s[i].key && Kept(s[i].pack, t[i].pack)
  }

  ghost predicate KeepsActives(s: Slots, t: Slots) { forall name :: HasActive(s, name) ==> HasActive(t, name) }

  /** Everything a good step does at once. */
  ghost predicate GoodStep(s: Slots, t: Slots) { Inv(t) && Evolves(s, t) && KeepsActives(s, t) }

  /** What an update may set: anything but the name, version, id and parent, as long as the lock version does not come
      out lower and no second version of the name becomes active. */
  ghost predicate KeepsStore(patch: Patch, s: Slots, p: RulePack) {
    && Leaves(patch.name, p.name) && Leaves(patch.version, p.version) && Leaves(patch.id, p.id)
    && Leaves(patch.parentVersion, p.parentVersion)
    && (patch.lockVersion.Some? ==> patch.lockVersion.value + 1 >= p.lockVersion)
    && (patch.status == Some(ACTIVE) ==> !HasActive(s, p.name))
  }

  /** Generated ids are new, and an update that takes effect sets only what it may. */
  ghost predicate Legal(s: Slots, op: Op) {
    && Fresh(s, op)
    && (op.OpUpdate? && Step(s, op).Ok? && Find(s, HasId(op.id)).Some? ==>
       KeepsStore(op.patch, s, s[Find(s, HasId(op.id)).value].pack))
  }

  ghost predicate LegalRun(s: Slots, ops: seq<Op>)
    decreases |ops|
  {
    ops == [] || (Legal(s, ops[0]) && LegalRun(Next(s, ops[0]), ops[1..]))
  }

  // -------------------------------------------------------------- three moves

  lemma ParentsStay(s: Slots, t: Slots)
    requires Rooted(s) && |t| == |s|
    requires forall i :: 0 <= i < |s| ==> t[i].key == s[i].key && t[i].pack.name == s[i].pack.name
                                          && t[i].pack.parentVersion == s[i].pack.parentVersion
    ensures Rooted(t)
  {
    forall i | 0 <= i < |t| ensures HasParent(t, i) {
      if t[i].pack.parentVersion.Some? {
        assert HasParent(s, i);
        var j :| 0 <= j < i && s[j].key == Key(s[i].pack.name, s[i].pack.parentVersion.value);
        assert t[j].key == Key(t[i].pack.name, t[i].pack.parentVersion.value);
      }
    }
  }

  lemma AppendShaped(s: Slots, x: Slot)
    requires Shaped(s)
    requires x.key == Key(x.pack.name, x.pack.version) && x.pack.id.Some?
    requires forall i :: 0 <= i < |s| ==> s[i].key != x.key && s[i].pack.id != x.pack.id
    requires HasParent(s + [x], |s|)
    ensures Shaped(s + [x]) && Evolves(s, s + [x])
  {
    var t := s + [x];
    forall i | 0 <= i < |t| ensures HasParent(t, i) {
      if i < |s| && t[i].pack.parentVersion.Some? {
        assert HasParent(s, i);
        var j :| 0 <= j < i && s[j].key == Key(s[i].pack.name, s[i].pack.parentVersion.value);
        assert t[j].key == s[j].key;
      }
    }
  }

  lemma ActivesStay(s: Slots, t: Slots)
    requires |s| <= |t| && forall i :: 0 <= i < |s| ==> t[i].pack.name == s[i].pack.name
    requires forall i :: 0 <= i < |s| && s[i].pack.status == ACTIVE ==> t[i].pack.status == ACTIVE
    ensures KeepsActives(s, t)
  {
    forall name | HasActive(s, name) ensures HasActive(t, name) {
      var i :| IsActiveAt(s, i, name);
      assert IsActiveAt(t, i, name);
    }
  }

  lemma AppendDraft(s: Slots, x: Slot)
    requires Inv(s) && x.pack.status != ACTIVE
    requires x.key == Key(x.pack.name, x.pack.version) && x.pack.id.Some?
    requires forall i :: 0 <= i < |s| ==> s[i].key != x.key && s[i].pack.id != x.pack.id
    requires HasParent(s + [x], |s|)
    ensures GoodStep(s, s + [x])
  {
    AppendShaped(s, x);
    hide Keyed, Identified, Rooted;
    ActivesStay(s, s + [x]);
  }

  lemma EditOne(s: Slots, i: nat, p: RulePack)
    requires Inv(s) && i < |s| && Kept(s[i].pack, p) && (p.status == ACTIVE <==> s[i].pack.status == ACTIVE)
    ensures GoodStep(s, Put(s, i, p))
  {
    ParentsStay(s, Put(s, i, p));
    hide Rooted;
    ActivesStay(s, Put(s, i, p));
  }

  lemma DeprecatedKeeps(p: RulePack, name: string, now: int)
    ensures Kept(p, Deprecated(p, name)) && Kept(p, Activated(p, now)) && Kept(p, Activated(Deprecated(p, name), now))
  {
  }

  lemma ActivateShape(s: Slots, name: string, target: nat, now: int)
    requires target < |s|
    ensures Evolves(s, ActivateAt(s, name, target, now))
  {
    forall i | 0 <= i < |s| ensures Kept(s[i].pack, ActivateAt(s, name, target, now)[i].pack) {
      DeprecatedKeeps(s[i].pack, name, now);
    }
  }

  lemma ActivateOne(s: Slots, name: string, target: nat, now: int)
    requires Shaped(s) && OneActive(s, Some(name)) && target < |s| && s[target].pack.name == name
    ensures GoodStep(s, ActivateAt(s, name, target, now))
    ensures IsActiveAt(ActivateAt(s, name, target, now), target, name)
  {
    var t := ActivateAt(s, name, target, now);
    ActivateShape(s, name, target, now);
    ParentsStay(s, t);
    hide Rooted;
    assert DEPRECATED != ACTIVE;
    assert OneActive(t, None);
    forall other | HasActive(s, other) ensures HasActive(t, other) {
      if other == name {
        assert IsActiveAt(t, target, name);
      } else {
        var i :| IsActiveAt(s, i, other);
        assert IsActiveAt(t, i, other);
      }
    }
  }

  lemma EvolvesTransitive(s: Slots, t: Slots, u: Slots)
    requires Evolves(s, t) && Evolves(t, u)
    ensures Evolves(s, u)
  {
  }

  // ------------------------------------------------------------ every use case

  /** The pack a Save stores, with what it stamps. */
  function Stamped(p: RulePack, freshId: string, now: int): RulePack {
    p.(id := if p.id.None? then Some(freshId) else p.id,
       createdAt := if p.createdAt.None? then Some(now) else p.createdAt)
  }

  lemma SaveNew(s: Slots, p: RulePack, freshId: string, now: int)
    requires forall i :: 0 <= i < |s| ==> s[i].key != Key(p.name, p.version)
    ensures Save(s, p, freshId, now) == s + [Slot(Key(p.name, p.version), Stamped(p, freshId, now))]
  {
  }

  lemma LatestIsParent(s: Slots, x: Slot)
    requires Keyed(s) && x.pack.parentVersion == Latest(s, x.pack.name)
    ensures HasParent(s + [x], |s|)
  {
    var latest := Latest(s, x.pack.name);
    if latest.Some? {
      var i :| 0 <= i < |s| && s[i].pack.name == x.pack.name && s[i].pack.version == latest.value;
      assert (s + [x])[i].key == Key(x.pack.name, latest.value);
    }
  }

  lemma NewVersionIsNew(s: Slots, name: string, version: int)
    requires Keyed(s) && (Latest(s, name).Some? ==> version > Latest(s, name).value)
    ensures forall i :: 0 <= i < |s| ==> s[i].key != Key(name, version)
  {
  }

  lemma DraftIsGood(s: Slots, p: RulePack, freshId: string, now: int)
    requires Inv(s) && p.status == DRAFT && p.id.None? && p.parentVersion == Latest(s, p.name)
    requires forall i :: 0 <= i < |s| ==> s[i].key != Key(p.name, p.version) && s[i].pack.id != Some(freshId)
    ensures GoodStep(s, Save(s, p, freshId, now))
    ensures Save(s, p, freshId, now) == s + [Slot(Key(p.name, p.version), Stamped(p, freshId, now))]
  {
    var x := Slot(Key(p.name, p.version), Stamped(p, freshId, now));
    SaveNew(s, p, freshId, now);
    LatestIsParent(s, x);
    assert DRAFT != ACTIVE;
    hide Keyed, Rooted, OneActive, GoodStep, Save, HasParent, Latest;
    AppendDraft(s, x);
  }

  lemma CreateIsGood(s: Slots, op: Op)
    requires Inv(s) && op.OpCreate? && Fresh(s, op)
    ensures GoodStep(s, Next(s, op))
    ensures exists x :: Next(s, op) == s + [x] && x.pack.status == DRAFT
  {
    hide GoodStep, Save, HasParent, Inv;
    assert Keyed(s) by { InvParts(s); }
    var latest := Latest(s, op.name);
    var version := if latest.Some? then latest.value + 1 else 1;
    NewVersionIsNew(s, op.name, version);
    var p := NewPack(op.name, version, op.region, op.rules, op.tenantId, op.actor, latest);
    DraftIsGood(s, p, op.freshId, op.now);
    assert Next(s, op) == s + [Slot(Key(p.name, p.version), Stamped(p, op.freshId, op.now))];
  }

  lemma InvParts(s: Slots)
    requires Inv(s)
    ensures Keyed(s) && Identified(s) && Rooted(s) && OneActive(s, None) && Shaped(s)
  {
  }

  lemma ImportIsGood(s: Slots, op: Op)
    requires Inv(s) && op.OpImport? && Fresh(s, op) && Step(s, op).Ok?
    ensures GoodStep(s, Next(s, op))
    ensures exists x :: Next(s, op) == s + [x] && x.pack.status == DRAFT
  {
    hide GoodStep, Save, HasParent, Inv, ReadDocument;
    assert Keyed(s) by { InvParts(s); }
    var d := ReadDocument(op.document).value;
    var latest := Latest(s, d.name);
    var version := ImportVersion(d.requested, latest);
    if d.requested.Some? && d.requested.value != 0 {
    } else {
      NewVersionIsNew(s, d.name, version);
    }
    var p := NewPack(d.name, version, d.region, d.rules, d.tenantId, op.actor, latest);
    DraftIsGood(s, p, op.freshId, op.now);
    assert Next(s, op) == s + [Slot(Key(p.name, p.version), Stamped(p, op.freshId, op.now))];
  }

  /** A creation adds one draft whose version follows the highest of its name, which becomes its parent; a new name
      starts at 1 without a parent. */
  lemma NewVersionFollows(s: Slots, op: Op)
    requires Inv(s) && op.OpCreate? && Fresh(s, op)
    ensures |Next(s, op)| == |s| + 1 && Next(s, op)[..|s|] == s
    ensures var x := Next(s, op)[|s|].pack;
            && x.name == op.name && x.rules == op.rules && x.region == op.region && x.status == DRAFT
               && x.lockVersion == 1
            && (forall i :: 0 <= i < |s| && s[i].pack.name == x.name ==> s[i].pack.version < x.version)
            && if x.parentVersion.None? then x.version == 1 && forall i :: 0 <= i < |s| ==> s[i].pack.name != x.name
               else x.version == x.parentVersion.value + 1
                    && exists i ::
                         0 <= i < |s| && s[i].pack.name == x.name && s[i].pack.version == x.parentVersion.value
  {
    hide Save, Inv, Latest;
    InvParts(s);
    var latest := Latest(s, op.name);
    var version := if latest.Some? then latest.value + 1 else 1;
    NewVersionIsNew(s, op.name, version);
    SaveNew(s, NewPack(op.name, version, op.region, op.rules, op.tenantId, op.actor, latest), op.freshId, op.now);
  }

  /** Export and import: into a store without that version the pack arrives as a draft of its own name, region and
      (nonzero) version, nothing else changes, and its rules decide every incident as the original's do. */
  lemma ExportImports(s: Slots, p: RulePack, actor: string, freshId: string, now: int,
                      incident: Policy.Incident, matrix: Option<Pipeline.Matrix>)
    requires Keyed(s) && Find(s, HasKey(Key(p.name, p.version))).None?
    ensures Import(s, ExportPack(p), actor, freshId, now).Ok?
    ensures var t := Import(s, ExportPack(p), actor, freshId, now).value;
            && |t| == |s| + 1 && t[..|s|] == s
            && (var x := t[|s|].pack;
                && x.name == p.name && x.region == p.region && x.status == DRAFT
                   && (p.version != 0 ==> x.version == p.version)
                && x.rules == Map(Carried(), p.rules)
                && Pipeline.Run(x.rules, incident, matrix) == Pipeline.Run(p.rules, incident, matrix))
  {
    hide ExportPack, ReadDocument, Pipeline.Run, Carried, Save, Latest;
    ExportReadsBack(p);
    CarriedDecides(p.rules, incident, matrix);
    var latest := Latest(s, p.name);
    var version := ImportVersion(Some(p.version), latest);
    if p.version == 0 { NewVersionIsNew(s, p.name, version); }
    SaveNew(s, NewPack(p.name, version, p.region, Map(Carried(), p.rules), None, actor, latest), freshId, now);
  }

  /** The use cases but updates that change one slot and make nothing active. */
  predicate EditsOne(op: Op) {
    op.OpDelete? || op.OpPublish? || op.OpCreateRule? || op.OpUpdateRule? || op.OpDeleteRule?
  }

  /** Saving an edited pack finds its own slot again. */
  lemma SaveInPlace(s: Slots, i: nat, rules: seq<Rule>, freshId: string, now: int)
    requires Keyed(s) && i < |s|
    ensures SaveRules(s, i, rules, freshId, now) == Put(s, i, Stamped(s[i].pack.(rules := rules), freshId, now))
  {
    var edited := s[i].pack.(rules := rules);
    var t := Put(s, i, edited);
    assert t[i].key == Key(edited.name, edited.version);
    forall j | 0 <= j < i ensures t[j].key != Key(edited.name, edited.version) { }
    assert Find(t, HasKey(Key(edited.name, edited.version))) == Some(i);
  }

  /** What one edit may do: rules change in a draft only; a status moves draft to published, or to archived. */
  ghost predicate Edit(a: RulePack, b: RulePack) {
    && Kept(a, b) && a.status != ACTIVE && b.status != ACTIVE
    && (b.status == a.status || b.status == ARCHIVED
       || (a.status == DRAFT && b.status == PUBLISHED && b.rules == a.rules && ValidRules(b.rules)))
    && (b.deletedAt == a.deletedAt || b.status == ARCHIVED)
    && (b.rules != a.rules ==> b.status == DRAFT)
  }

  lemma StatusesDiffer()
    ensures DRAFT != PUBLISHED && DRAFT != ACTIVE && DRAFT != DEPRECATED && DRAFT != ARCHIVED
    ensures PUBLISHED != ACTIVE && PUBLISHED != DEPRECATED && PUBLISHED != ARCHIVED
    ensures ACTIVE != DEPRECATED && ACTIVE != ARCHIVED && DEPRECATED != ARCHIVED
  {
  }

  lemma OnlyDraftsPublish(status: string)
    ensures CanTransition(status, PUBLISHED) ==> status == DRAFT
    ensures CanTransition(status, ACTIVE) ==> status == PUBLISHED || status == DEPRECATED
  {
  }

  lemma IdChangeEdits(s: Slots, op: Op)
    requires Inv(s) && (op.OpDelete? || op.OpPublish?) && Step(s, op).Ok?
    ensures exists i: nat, p :: i < |s| && Edit(s[i].pack, p) && Next(s, op) == Put(s, i, p)
  {
    hide ValidRules, Inv, CanTransition;
    StatusesDiffer();
    var i := Find(s, HasId(op.id)).value;
    OnlyDraftsPublish(s[i].pack.status);
    var p := Next(s, op)[i].pack;
    assert Next(s, op) == Put(s, i, p);
    assert Edit(s[i].pack, p);
  }

  lemma RuleEditEdits(s: Slots, op: Op)
    requires Inv(s) && (op.OpCreateRule? || op.OpUpdateRule? || op.OpDeleteRule?) && Step(s, op).Ok?
    ensures exists i: nat, p :: i < |s| && Edit(s[i].pack, p) && Next(s, op) == Put(s, i, p)
  {
    hide ValidRules, Inv, CanTransition, RuleFromJson, RuleToJson, RuleAt, Save, FindRule, SaveRules;
    InvParts(s);
    StatusesDiffer();
    var found := if op.OpCreateRule? then Find(s, HasId(op.packId)) else FindRule(s, op.ruleId);
    var i := found.value;
    var rules :| Next(s, op) == SaveRules(s, i, rules, op.freshId, op.now);
    SaveInPlace(s, i, rules, op.freshId, op.now);
    assert Edit(s[i].pack, Stamped(s[i].pack.(rules := rules), op.freshId, op.now));
  }

  lemma EditIsGood(s: Slots, op: Op)
    requires Inv(s) && EditsOne(op) && Step(s, op).Ok?
    ensures GoodStep(s, Next(s, op))
    ensures exists i: nat, p :: i < |s| && Edit(s[i].pack, p) && Next(s, op) == Put(s, i, p)
  {
    hide Inv, GoodStep, Step, Kept, ValidRules, Next;
    if op.OpDelete? || op.OpPublish? { IdChangeEdits(s, op); } else { RuleEditEdits(s, op); }
    var i: nat, p :| i < |s| && Edit(s[i].pack, p) && Next(s, op) == Put(s, i, p);
    EditOne(s, i, p);
  }

  lemma InvActivates(s: Slots, name: string, version: int, expected: Option<int>, now: int)
    requires Shaped(s) && OneActive(s, Some(name)) && Activate(s, name, version, expected, now).Ok?
    ensures Find(s, HasKey(Key(name, version))).Some?
    ensures var i := Find(s, HasKey(Key(name, version))).value;
            && Activate(s, name, version, expected, now).value == ActivateAt(s, name, i, now)
            && GoodStep(s, ActivateAt(s, name, i, now)) && IsActiveAt(ActivateAt(s, name, i, now), i, name)
  {
    hide Rooted, Identified, OneActive, GoodStep, ActivateAt;
    ActivateOne(s, name, Find(s, HasKey(Key(name, version))).value, now);
  }

  /** The slot an activation, a rollback or a seeding that takes effect makes active. */
  ghost function Chosen(s: Slots, op: Op): Option<Key> {
    match op
    case OpActivate(id, _, _) =>
      (match Find(s, HasId(id)) case Some(i) => Some(Key(s[i].pack.name, s[i].pack.version)) case None => None)
    case OpRollback(name, version, _, _) =>
      (match Find(s, HasKey(Key(name, version)))
       case Some(i) => if s[i].pack.parentVersion.Some? then Some(Key(name, s[i].pack.parentVersion.value)) else None
       case None => None)
    case OpSeed(name, fixture, _, _) =>
      if GetActive(s, name, None).Some? then None else Some(Key(name, fixture.version))
    case _ => None
  }

  lemma ActivateIsGood(s: Slots, op: Op)
    requires Inv(s) && (op.OpActivate? || op.OpRollback?) && Step(s, op).Ok?
    ensures GoodStep(s, Next(s, op))
    ensures Chosen(s, op).Some? && Find(s, HasKey(Chosen(s, op).value)).Some?
    ensures Next(s, op) == ActivateAt(s, Chosen(s, op).value.name, Find(s, HasKey(Chosen(s, op).value)).value, op.now)
    ensures IsActiveAt(Next(s, op), Find(s, HasKey(Chosen(s, op).value)).value, Chosen(s, op).value.name)
  {
    hide Inv, GoodStep, ActivateAt, CanTransition, Keyed, Identified, Rooted, IsActiveAt, Activate;
    InvParts(s);
    OneActiveSpares(s, Chosen(s, op).value.name);
    var key := Chosen(s, op).value;
    if op.OpActivate? {
      InvActivates(s, key.name, key.version, op.expected, op.now);
    } else {
      InvActivates(s, key.name, key.version, None, op.now);
    }
  }

  lemma OneActiveSpares(s: Slots, name: string)
    requires OneActive(s, None)
    ensures OneActive(s, Some(name))
  {
  }

  lemma FixtureShape(s: Slots, name: string, f: Fixture, freshId: string, now: int)
    requires Inv(s) && forall i :: 0 <= i < |s| ==> s[i].pack.id != Some(freshId)
    ensures var t := WithFixture(s, name, f, freshId, now);
            && Shaped(t) && OneActive(t, Some(name)) && Evolves(s, t) && KeepsActives(s, t)
            && (t == s || t == s + [Slot(Key(name, f.version), Stamped(FixturePack(name, f), freshId, now))])
  {
    hide Rooted, KeepsActives, HasParent, Save;
    InvParts(s);
    var t := WithFixture(s, name, f, freshId, now);
    if t != s {
      var p := FixturePack(name, f);
      SaveNew(s, p, freshId, now);
      var x := Slot(Key(name, f.version), Stamped(p, freshId, now));
      assert HasParent(s + [x], |s|) by { NoParent(s, x); }
      AppendShaped(s, x);
    }
    ActivesStay(s, t);
  }

  lemma NoParent(s: Slots, x: Slot)
    requires x.pack.parentVersion.None?
    ensures HasParent(s + [x], |s|)
  {
  }

  lemma KeepsTransitive(s: Slots, t: Slots, u: Slots)
    requires KeepsActives(s, t) && KeepsActives(t, u)
    ensures KeepsActives(s, u)
  {
  }

  lemma SeedIsGood(s: Slots, op: Op)
    requires Inv(s) && op.OpSeed? && Fresh(s, op) && Step(s, op).Ok?
    ensures GoodStep(s, Next(s, op))
    ensures Chosen(s, op).None? ==> Next(s, op) == s
    ensures Chosen(s, op).Some? ==>
              var t := WithFixture(s, op.name, op.fixture, op.freshId, op.now);
              && Find(t, HasKey(Chosen(s, op).value)).Some?
              && Next(s, op) == ActivateAt(t, op.name, Find(t, HasKey(Chosen(s, op).value)).value, op.now)
  {
    hide ActivateAt, Keyed, Identified, Rooted, IsActiveAt, OneActive, Activate, GetActive, WithFixture, HasActive,
         Kept;
    if GetActive(s, op.name, None).Some? {
      SameIsGood(s);
    } else {
      FixtureShape(s, op.name, op.fixture, op.freshId, op.now);
      var t := WithFixture(s, op.name, op.fixture, op.freshId, op.now);
      InvActivates(t, op.name, op.fixture.version, None, op.now);
      EvolvesTransitive(s, t, Next(s, op));
      KeepsTransitive(s, t, Next(s, op));
    }
  }

  lemma SameIsGood(s: Slots)
    requires Inv(s)
    ensures GoodStep(s, s)
  {
  }

  /** Making a pack active keeps everything if no version of its name is. */
  lemma RaiseOne(s: Slots, i: nat, p: RulePack)
    requires Inv(s) && i < |s| && Kept(s[i].pack, p) && s[i].pack.status != ACTIVE && !HasActive(s, p.name)
    ensures GoodStep(s, Put(s, i, p))
  {
    ParentsStay(s, Put(s, i, p));
    hide Rooted, Kept, HasActive;
    forall j | 0 <= j < |s| && s[j].pack.name == p.name ensures s[j].pack.status != ACTIVE {
      if s[j].pack.status == ACTIVE { ActiveThere(s, j, p.name); }
    }
    ActivesStay(s, Put(s, i, p));
  }

  lemma ActiveThere(s: Slots, j: nat, name: string)
    requires j < |s| && s[j].pack.name == name && s[j].pack.status == ACTIVE
    ensures HasActive(s, name)
  {
    assert IsActiveAt(s, j, name);
  }

  lemma UpdateAt(s: Slots, op: Op)
    requires op.OpUpdate? && Step(s, op).Ok?
    ensures Find(s, HasId(op.id)).Some?
    ensures var i := Find(s, HasId(op.id)).value; var p := Patched(op.patch)(s[i].pack);
            s[i].pack.status == DRAFT && Next(s, op) == Put(s, i, p.(lockVersion := p.lockVersion + 1))
  {
  }

  /** Updates may set any field of a draft, and some break the store: an update keeps everything a step should keep
      exactly when it sets only what it may. */
  lemma UpdateIsGoodExactly(s: Slots, op: Op)
    requires Inv(s) && op.OpUpdate? && Step(s, op).Ok?
    ensures GoodStep(s, Next(s, op)) <==> KeepsStore(op.patch, s, s[Find(s, HasId(op.id)).value].pack)
  {
    hide Identified, Rooted, KeepsActives, HasActive, Step, Next, Patched;
    UpdateAt(s, op);
    StatusesDiffer();
    var i := Find(s, HasId(op.id)).value;
    var t, was := Next(s, op), s[i].pack;
    var p := t[i].pack;
    PatchedFields(op.patch, was);
    if KeepsStore(op.patch, s, was) {
      if p.status == ACTIVE { RaiseOne(s, i, p); } else { EditOne(s, i, p); }
    } else if GoodStep(s, t) {
      assert t[i].key == s[i].key && Kept(was, p);
      assert op.patch.status == Some(ACTIVE) && HasActive(s, was.name);
      TwoActive(s, i, p);
    }
  }

  lemma PatchedFields(patch: Patch, p: RulePack)
    ensures var q := Patched(patch)(p);
            && (q.name == p.name <==> Leaves(patch.name, p.name))
            && (q.version == p.version <==> Leaves(patch.version, p.version))
            && (q.id == p.id <==> Leaves(patch.id, p.id))
            && (q.parentVersion == p.parentVersion <==> Leaves(patch.parentVersion, p.parentVersion))
            && q.status == Or(patch.status, p.status) && q.lockVersion == Or(patch.lockVersion, p.lockVersion)
  {
  }

  /** A second active version is one too many. */
  lemma TwoActive(s: Slots, i: nat, p: RulePack)
    requires i < |s| && s[i].pack.status != ACTIVE && p.status == ACTIVE && HasActive(s, p.name)
    ensures !OneActive(Put(s, i, p), None)
  {
    var t := Put(s, i, p);
    var j: nat :| IsActiveAt(s, j, p.name);
    assert t[j] == s[j] && t[i].pack == p && j != i;
    assert IsActiveAt(t, j, p.name) && IsActiveAt(t, i, p.name);
  }

  /** One step of any use case, successful or not, keeps everything a step should keep, with one exception: an update
      that sets what it may not. */
  lemma StepIsGood(s: Slots, op: Op)
    requires Inv(s) && Fresh(s, op)
    ensures GoodStep(s, Next(s, op)) <==> Legal(s, op)
  {
    hide Inv, GoodStep, Step, KeepsStore, Fresh;
    if Step(s, op).Err? { SameIsGood(s); }
    else if op.OpCreate? { CreateIsGood(s, op); }
    else if op.OpImport? { ImportIsGood(s, op); }
    else if op.OpUpdate? { UpdateAt(s, op); UpdateIsGoodExactly(s, op); }
    else if EditsOne(op) { EditIsGood(s, op); }
    else if op.OpSeed? { SeedIsGood(s, op); }
    else { ActivateIsGood(s, op); }
  }

  lemma LegalIsGood(s: Slots, op: Op)
    requires Inv(s) && Legal(s, op)
    ensures Fresh(s, op) && GoodStep(s, Next(s, op))
  {
    hide Inv, GoodStep, Fresh, Next;
    StepIsGood(s, op);
  }

  // --------------------------------------------------------------- every run

  lemma GoodTransitive(s: Slots, t: Slots, u: Slots)
    requires GoodStep(s, t) && GoodStep(t, u)
    ensures GoodStep(s, u)
  {
    hide Inv, Kept, HasActive;
    EvolvesTransitive(s, t, u) by { KeptTransitive(); }
    KeepsTransitive(s, t, u);
  }

  lemma KeptTransitive()
    ensures forall a, b, c :: Kept(a, b) && Kept(b, c) ==> Kept(a, c)
  {
  }

  lemma {:induction false} RunIsGood(s: Slots, ops: seq<Op>)
    requires Inv(s) && LegalRun(s, ops)
    ensures GoodStep(s, RunOps(s, ops))
    decreases |ops|
  {
    hide Inv, GoodStep, Next, Legal;
    if ops == [] {
      SameIsGood(s);
    } else {
      LegalIsGood(s, ops[0]);
      assert Inv(Next(s, ops[0])) by { GoodInv(s, Next(s, ops[0])); }
      RunIsGood(Next(s, ops[0]), ops[1..]);
      GoodTransitive(s, Next(s, ops[0]), RunOps(s, ops));
    }
  }

  lemma GoodInv(s: Slots, t: Slots)
    requires GoodStep(s, t)
    ensures Inv(t)
  {
  }

  /** Exactly one active: never two, and never none again once there was one. */
  lemma ExactlyOneActive(before: seq<Op>, after: seq<Op>, name: string)
    requires LegalRun([], before) && LegalRun(RunOps([], before), after)
    ensures var s := RunOps([], before); var t := RunOps(s, after);
            && (forall i, j :: IsActiveAt(t, i, name) && IsActiveAt(t, j, name) ==> i == j)
            && (HasActive(s, name) ==> HasActive(t, name))
  {
    hide Shaped, Evolves, Legal, Next;
    assert Inv([]) by { EmptyInv(); }
    RunIsGood([], before);
    RunIsGood(RunOps([], before), after);
  }

  lemma EmptyInv()
    ensures Inv([])
  {
  }

  /** Freeze: a pack that left Draft keeps its rules, name, region and parent, and stays out of Draft. */
  lemma FrozenOnceOut(before: seq<Op>, after: seq<Op>, i: nat)
    requires LegalRun([], before) && LegalRun(RunOps([], before), after)
    requires i < |RunOps([], before)|
    ensures i < |RunOps(RunOps([], before), after)|
    ensures var a := RunOps([], before)[i].pack; var b := RunOps(RunOps([], before), after)[i].pack;
            && b.name == a.name && b.version == a.version && b.parentVersion == a.parentVersion && b.id == a.id
            && b.lockVersion >= a.lockVersion
            && (a.status != DRAFT ==> b.status != DRAFT && b.rules == a.rules && b.region == a.region)
  {
    hide Inv, KeepsActives, Legal, Next;
    assert Inv([]) by { EmptyInv(); }
    RunIsGood([], before);
    RunIsGood(RunOps([], before), after);
  }
}
