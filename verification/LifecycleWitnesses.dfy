/** Runs of the use cases that end where one would not expect. */
module LifecycleWitnesses {
  import opened Common
  import opened Values
  import opened Engine
  import opened Rules
  import opened Validation
  import opened Store
  import opened Lifecycle
  import opened LifecycleTheorems
  import opened CacheTheorems
  import Repository

  ghost predicate SucceedLegally(s: Slots, ops: seq<Op>)
    decreases |ops|
  {
    ops == [] || (Legal(s, ops[0]) && Step(s, ops[0]).Ok? && SucceedLegally(Next(s, ops[0]), ops[1..]))
  }

  lemma OneMore(s: Slots, op: Op, t: Slots, ops: seq<Op>)
    requires Legal(s, op) && Step(s, op) == Ok(t) && SucceedLegally(t, ops)
    ensures SucceedLegally(s, [op] + ops) && RunOps(s, [op] + ops) == RunOps(t, ops)
  {
    hide Legal, Step;
    assert ([op] + ops)[1..] == ops;
  }

  // ----------------------------------------------------------- the same rollback twice

  function Creation(name: string, rules: seq<Rule>, id: string): Op {
    OpCreate(name, None, None, rules, "system", id, 0)
  }

  function Pack(name: string, version: int, status: string, rules: seq<Rule>, parent: Option<int>, id: string,
                activated: Option<int>, deleted: Option<int>, lock: int): Slot {
    Slot(Key(name, version),
      RulePack(name, version, status, None, rules, parent, Some(id), None, "system", Some(0), activated, deleted, lock))
  }

  lemma FindsFirst(s: Slots, test: Slot -> bool)
    requires |s| > 0 && test(s[0])
    ensures Find(s, test) == Some(0)
  {
  }

  lemma FindsSecond(s: Slots, test: Slot -> bool)
    requires |s| > 1 && !test(s[0]) && test(s[1])
    ensures Find(s, test) == Some(1)
  {
    var i := Find(s, test).value;
    assert forall j :: 0 <= j < i ==> !test(s[j]);
  }

  lemma CreatesFirst(name: string, rules: seq<Rule>, id: string)
    ensures Step([], Creation(name, rules, id)) == Ok([Pack(name, 1, DRAFT, rules, None, id, None, None, 1)])
    ensures Legal([], Creation(name, rules, id))
  {
    var p := NewPack(name, 1, None, rules, None, "system", None);
    SaveNew([], p, id, 0);
    assert [] + [Slot(Key(name, 1), Stamped(p, id, 0))] == [Pack(name, 1, DRAFT, rules, None, id, None, None, 1)];
  }

  lemma CreatesSecond(first: Slot, name: string, rules: seq<Rule>, id: string)
    requires first.key == Key(name, 1) && first.pack.name == name && first.pack.version == 1
             && first.pack.id != Some(id)
    ensures Step([first], Creation(name, rules, id)) ==
            Ok([first, Pack(name, 2, DRAFT, rules, Some(1), id, None, None, 1)])
    ensures Legal([first], Creation(name, rules, id))
  {
    hide Save;
    var s := [first];
    assert s[1..] == [];
    assert Latest(s, name) == Some(1);
    var p := NewPack(name, 2, None, rules, None, "system", Some(1));
    SaveNew(s, p, id, 0);
    assert Slot(Key(name, 2), Stamped(p, id, 0)) == Pack(name, 2, DRAFT, rules, Some(1), id, None, None, 1);
    assert s + [Pack(name, 2, DRAFT, rules, Some(1), id, None, None, 1)] ==
           [first, Pack(name, 2, DRAFT, rules, Some(1), id, None, None, 1)];
  }

  lemma RollsBack(s: Slots, name: string, expected: Option<int>)
    requires |s| == 2 && s[0].key == Key(name, 1) && s[1].key == Key(name, 2) && s[1].pack.parentVersion == Some(1)
    requires LockOk(s[1].pack, expected)
    ensures Step(s, OpRollback(name, 2, expected, 0)) == Ok(ActivateAt(s, name, 0, 0))
  {
    hide ActivateAt;
    FindsSecond(s, HasKey(Key(name, 2)));
    FindsFirst(s, HasKey(Key(name, 1)));
  }

  /** Two drafts, and a rollback of the second under its lock version: the identical call succeeds again. */
  lemma RollbackRepeats(name: string)
    ensures var again := OpRollback(name, 2, Some(1), 0);
            SucceedLegally([], [Creation(name, [], "a"), Creation(name, [], "b"), again, again])
  {
    hide Legal, Step;
    var a, b := Creation(name, [], "a"), Creation(name, [], "b");
    var again := OpRollback(name, 2, Some(1), 0);
    var first := Pack(name, 1, DRAFT, [], None, "a", None, None, 1);
    var s2 := [first, Pack(name, 2, DRAFT, [], Some(1), "b", None, None, 1)];
    var s3 := ActivateAt(s2, name, 0, 0);
    var s4 := ActivateAt(s3, name, 0, 0);
    assert "a"[0] == 'a' && "b"[0] == 'b';
    StatusesDiffer();
    CreatesFirst(name, [], "a");
    CreatesSecond(first, name, [], "b");
    RollsBack(s2, name, Some(1));
    RollsBack(s3, name, Some(1));
    RollbackIsLegal(s2, again);
    RollbackIsLegal(s3, again);
    OneMore(s3, again, s4, []);
    OneMore(s2, again, s3, [again]);
    OneMore([first], b, s2, [again, again]);
    OneMore([], a, [first], [b, again, again]);
    assert [again] + [] == [again] && [again] + [again] == [again, again];
    assert [b] + [again, again] == [b, again, again] && [a] + [b, again, again] == [a, b, again, again];
  }

  lemma RollbackIsLegal(s: Slots, op: Op)
    requires !op.OpCreate? && !op.OpImport? && !op.OpSeed? && !op.OpUpdate?
    ensures Legal(s, op)
  {
  }

  // -------------------------------------------------------------- the deleted parent

  /** One rule that always matches. */
  function OneRule(): seq<Rule> {
    [Rule("R", "R", "", "OPERATIONAL_FEASIBILITY", 99, 50, None, None, Bool(true), None, None, [], false, false, 0,
          map[], map[], None, None, "ACTIVE", true, None)]
  }

  lemma OneRuleIsValid()
    ensures ValidRules(OneRule())
  {
    hide ByCode;
    var rules := OneRule();
    assert rules[0] in rules;
    assert Specificity(Bool(true)) == Some(0);
    forall r | r in rules ensures SoundRule(rules, r) { assert r == rules[0] && r.conflictsWith == []; }
  }

  lemma Transitions()
    ensures CanTransition(DRAFT, PUBLISHED) && CanTransition(PUBLISHED, ACTIVE)
  {
    StatusesDiffer();
  }

  lemma ChangesAt(s: Slots, i: nat, id: string, change: RulePack -> RulePack)
    requires i < |s| && Find(s, HasId(id)) == Some(i)
    ensures var p := change(s[i].pack);
            ChangeById(s, id, None, change) == Ok(Put(s, i, p.(lockVersion := p.lockVersion + 1)))
  {
    hide Find, Put;
  }

  lemma PublishesAt(s: Slots, i: nat, id: string)
    requires i < |s| && Find(s, HasId(id)) == Some(i) && s[i].pack.status == DRAFT && ValidRules(s[i].pack.rules)
    ensures Step(s, OpPublish(id)) ==
            Ok(Put(s, i, s[i].pack.(status := PUBLISHED, lockVersion := s[i].pack.lockVersion + 1)))
  {
    hide ValidRules, CanTransition, Find, ChangeById, Put;
    Transitions();
    ChangesAt(s, i, id, WithStatus(PUBLISHED));
  }

  lemma ActivatesAt(s: Slots, i: nat, id: string, name: string, version: int)
    requires i < |s| && Find(s, HasId(id)) == Some(i) && s[i].pack.status == PUBLISHED
    requires s[i].pack.name == name && s[i].pack.version == version && Find(s, HasKey(Key(name, version))) == Some(i)
    ensures Step(s, OpActivate(id, None, 0)) == Ok(ActivateAt(s, name, i, 0))
  {
    hide ActivateAt, CanTransition, Find;
    Transitions();
  }

  lemma DeletesAt(s: Slots, i: nat, id: string)
    requires i < |s| && Find(s, HasId(id)) == Some(i) && s[i].pack.status != ACTIVE
    ensures Step(s, OpDelete(id, None, 0)) ==
            Ok(Put(s, i, s[i].pack.(status := ARCHIVED, deletedAt := Some(0),
                                    lockVersion := s[i].pack.lockVersion + 1)))
  {
    hide Find, ChangeById, Put;
    ChangesAt(s, i, id, Archived(0));
  }

  function First(name: string, status: string, activated: Option<int>, deleted: Option<int>, lock: int): Slot {
    Pack(name, 1, status, OneRule(), None, "a", activated, deleted, lock)
  }

  function Second(name: string, status: string, activated: Option<int>, lock: int): Slot {
    Pack(name, 2, status, OneRule(), Some(1), "b", activated, None, lock)
  }

  /** Each version is created, published and activated; then the first is deleted. */
  function Releases(name: string): seq<Op> {
    [Creation(name, OneRule(), "a"), OpPublish("a"), OpActivate("a", None, 0),
     Creation(name, OneRule(), "b"), OpPublish("b"), OpActivate("b", None, 0), OpDelete("a", None, 0)]
  }

  function Released(name: string): Slots {
    [First(name, ARCHIVED, Some(0), Some(0), 5), Second(name, ACTIVE, Some(0), 3)]
  }

  lemma FirstRelease(name: string)
    ensures var s0, s1, s2, s3 := [], [First(name, DRAFT, None, None, 1)], [First(name, PUBLISHED, None, None, 2)],
                                  [First(name, ACTIVE, Some(0), None, 3)];
            && Step(s0, Creation(name, OneRule(), "a")) == Ok(s1)
            && Step(s1, OpPublish("a")) == Ok(s2)
            && Step(s2, OpActivate("a", None, 0)) == Ok(s3)
  {
    hide OneRule, ValidRules, Find, Step;
    OneRuleIsValid();
    StatusesDiffer();
    CreatesFirst(name, OneRule(), "a");
    var s1, s2, s3 := [First(name, DRAFT, None, None, 1)], [First(name, PUBLISHED, None, None, 2)],
        [First(name, ACTIVE, Some(0), None, 3)];
    FindsFirst(s1, HasId("a"));
    PublishesAt(s1, 0, "a");
    assert Put(s1, 0, s1[0].pack.(status := PUBLISHED, lockVersion := 2)) == s2;
    FindsFirst(s2, HasId("a"));
    FindsFirst(s2, HasKey(Key(name, 1)));
    ActivatesAt(s2, 0, "a", name, 1);
    assert ActivateAt(s2, name, 0, 0) == s3;
  }

  lemma SecondRelease(name: string)
    ensures var s3 := [First(name, ACTIVE, Some(0), None, 3)];
            var s4 := [First(name, ACTIVE, Some(0), None, 3), Second(name, DRAFT, None, 1)];
            var s5 := [First(name, ACTIVE, Some(0), None, 3), Second(name, PUBLISHED, None, 2)];
            var s6 := [First(name, DEPRECATED, Some(0), None, 4), Second(name, ACTIVE, Some(0), 3)];
            && Step(s3, Creation(name, OneRule(), "b")) == Ok(s4) && Legal(s3, Creation(name, OneRule(), "b"))
            && Step(s4, OpPublish("b")) == Ok(s5)
            && Step(s5, OpActivate("b", None, 0)) == Ok(s6)
            && Step(s6, OpDelete("a", None, 0)) == Ok(Released(name))
  {
    hide OneRule, ValidRules, Find, Step, Legal;
    OneRuleIsValid();
    StatusesDiffer();
    assert "a"[0] == 'a' && "b"[0] == 'b';
    var s3 := [First(name, ACTIVE, Some(0), None, 3)];
    var s4 := [First(name, ACTIVE, Some(0), None, 3), Second(name, DRAFT, None, 1)];
    var s5 := [First(name, ACTIVE, Some(0), None, 3), Second(name, PUBLISHED, None, 2)];
    var s6 := [First(name, DEPRECATED, Some(0), None, 4), Second(name, ACTIVE, Some(0), 3)];
    CreatesSecond(s3[0], name, OneRule(), "b");
    FindsSecond(s4, HasId("b"));
    PublishesAt(s4, 1, "b");
    assert Put(s4, 1, s4[1].pack.(status := PUBLISHED, lockVersion := 2)) == s5;
    FindsSecond(s5, HasId("b"));
    FindsSecond(s5, HasKey(Key(name, 2)));
    ActivatesAt(s5, 1, "b", name, 2);
    assert ActivateAt(s5, name, 1, 0) == s6;
    FindsFirst(s6, HasId("a"));
    DeletesAt(s6, 0, "a");
    assert Put(s6, 0, s6[0].pack.(status := ARCHIVED, deletedAt := Some(0), lockVersion := 5)) == Released(name);
  }

  lemma ReleasesRun(name: string, last: Op)
    requires Legal(Released(name), last) && Step(Released(name), last).Ok?
    ensures SucceedLegally([], Releases(name) + [last])
            && RunOps([], Releases(name) + [last]) == Next(Released(name), last)
  {
    hide OneRule, Step, Legal, Next;
    FirstRelease(name);
    SecondRelease(name);
    CreatesFirst(name, OneRule(), "a");
    var ops := Releases(name) + [last];
    var s1, s2, s3 := [First(name, DRAFT, None, None, 1)], [First(name, PUBLISHED, None, None, 2)],
        [First(name, ACTIVE, Some(0), None, 3)];
    var s4 := [First(name, ACTIVE, Some(0), None, 3), Second(name, DRAFT, None, 1)];
    var s5 := [First(name, ACTIVE, Some(0), None, 3), Second(name, PUBLISHED, None, 2)];
    var s6 := [First(name, DEPRECATED, Some(0), None, 4), Second(name, ACTIVE, Some(0), 3)];
    RollbackIsLegal(s1, ops[1]);
    RollbackIsLegal(s2, ops[2]);
    RollbackIsLegal(s4, ops[4]);
    RollbackIsLegal(s5, ops[5]);
    RollbackIsLegal(s6, ops[6]);
    LastStep(Released(name), last);
    assert ops[7..] == [last];
    Chained(s6, ops, 6, Released(name));
    Chained(s5, ops, 5, s6);
    Chained(s4, ops, 4, s5);
    Chained(s3, ops, 3, s4);
    Chained(s2, ops, 2, s3);
    Chained(s1, ops, 1, s2);
    Chained([], ops, 0, s1);
    assert ops[0..] == ops;
  }

  lemma LastStep(s: Slots, op: Op)
    requires Legal(s, op) && Step(s, op).Ok?
    ensures SucceedLegally(s, [op]) && RunOps(s, [op]) == Next(s, op)
  {
    hide Legal, Step;
    OneMore(s, op, Next(s, op), []);
    assert [op] + [] == [op];
  }

  lemma Chained(s: Slots, ops: seq<Op>, i: nat, t: Slots)
    requires i < |ops| && Legal(s, ops[i]) && Step(s, ops[i]) == Ok(t) && SucceedLegally(t, ops[i + 1..])
    ensures SucceedLegally(s, ops[i..]) && RunOps(s, ops[i..]) == RunOps(t, ops[i + 1..])
  {
    hide Legal, Step, RunOps, SucceedLegally;
    OneMore(s, ops[i], t, ops[i + 1..]);
    assert ops[i..] == [ops[i]] + ops[i + 1..];
  }

  /** Two releases, the first deleted, the second rolled back: every use case succeeds, the first version is active, and
      the loader of the hot path finds nothing. */
  lemma RollbackToADeletedParent(name: string)
    ensures var ops := Releases(name) + [OpRollback(name, 2, None, 0)];
            && SucceedLegally([], ops)
            && GetActive(RunOps([], ops), name, None).Some? && LoadActive(RunOps([], ops), name) == Raised
  {
    hide OneRule, Step, Legal, RunOps, SucceedLegally, ActivateAt;
    var s, last := Released(name), OpRollback(name, 2, None, 0);
    RollsBack(s, name, None);
    RollbackIsLegal(s, last);
    ReleasesRun(name, last);
    ReleasedShape(name);
    LoadAfterActivation(s, name, 0, 0);
    assert Next(s, last) == ActivateAt(s, name, 0, 0);
  }

  lemma ReleasedShape(name: string)
    ensures Shaped(Released(name)) && OneActive(Released(name), Some(name))
  {
    hide OneRule;
    assert "a"[0] == 'a' && "b"[0] == 'b';
    var s := Released(name);
    assert s[0].key == Key(name, 1);
  }

  // ---------------------------------------------------------------- the renamed draft

  function Renaming(id: string, name: string): Op { OpUpdate(id, None, Patch(name := Some(name))) }

  /** A slot whose pack is called something else than its key. */
  function Renamed(name: string, other: string, status: string, lock: int): Slot {
    Slot(Key(name, 1), Pack(other, 1, status, OneRule(), None, "a", None, None, lock).pack)
  }

  lemma RenamesAt(s: Slots, i: nat, id: string, name: string)
    requires i < |s| && Find(s, HasId(id)) == Some(i) && s[i].pack.status == DRAFT
    ensures Step(s, Renaming(id, name)) ==
            Ok(Put(s, i, s[i].pack.(name := name, lockVersion := s[i].pack.lockVersion + 1)))
  {
    hide Find, ChangeById, Put;
    var patch := Patch(name := Some(name));
    ChangesAt(s, i, id, Patched(patch));
    assert Patched(patch)(s[i].pack) == s[i].pack.(name := name);
  }

  lemma CannotActivate(s: Slots, i: nat, id: string)
    requires i < |s| && Find(s, HasId(id)) == Some(i) && s[i].pack.status == PUBLISHED
    requires Find(s, HasKey(Key(s[i].pack.name, s[i].pack.version))).None?
    ensures Step(s, OpActivate(id, None, 0)) == Err(ValueError)
  {
    hide Find, ActivateAt, CanTransition;
    Transitions();
  }

  /** A draft is created, renamed and published, each successfully; activating it then fails, because its key still
      has the old name. */
  lemma RenamedDraftCannotBeActivated(name: string, other: string)
    requires name != other
    ensures var s1 := [First(name, DRAFT, None, None, 1)];
            var s2, s3 := [Renamed(name, other, DRAFT, 2)], [Renamed(name, other, PUBLISHED, 3)];
            && Step([], Creation(name, OneRule(), "a")) == Ok(s1)
            && Step(s1, Renaming("a", other)) == Ok(s2)
            && Step(s2, OpPublish("a")) == Ok(s3)
            && Step(s3, OpActivate("a", None, 0)) == Err(ValueError)
  {
    hide OneRule, ValidRules, Step;
    OneRuleIsValid();
    CreatesFirst(name, OneRule(), "a");
    var s1 := [First(name, DRAFT, None, None, 1)];
    var s2, s3 := [Renamed(name, other, DRAFT, 2)], [Renamed(name, other, PUBLISHED, 3)];
    FindsFirst(s1, HasId("a"));
    RenamesAt(s1, 0, "a", other);
    assert Put(s1, 0, s1[0].pack.(name := other, lockVersion := 2)) == s2;
    FindsFirst(s2, HasId("a"));
    PublishesAt(s2, 0, "a");
    assert Put(s2, 0, s2[0].pack.(status := PUBLISHED, lockVersion := 3)) == s3;
    FindsFirst(s3, HasId("a"));
    assert s3[1..] == [];
    CannotActivate(s3, 0, "a");
  }

  // ------------------------------------------------------------- the other updates

  /** An update that sets the status makes a draft active, unvalidated, and no cache is told. */
  lemma UpdateActivatesQuietly(name: string)
    ensures var s1 := [Pack(name, 1, DRAFT, [], None, "a", None, None, 1)];
            var op := OpUpdate("a", None, Patch(status := Some(ACTIVE)));
            && Step([], Creation(name, [], "a")) == Ok(s1) && Step(s1, op).Ok? && Repository.Published(s1, op) == []
            && GetActive(s1, name, None).None? && GetActive(Next(s1, op), name, None).Some?
            && !ValidRules(GetActive(Next(s1, op), name, None).value.rules)
  {
    var s1 := [Pack(name, 1, DRAFT, [], None, "a", None, None, 1)];
    CreatesFirst(name, [], "a");
    FindsFirst(s1, HasId("a"));
  }

  /** Two updates of one draft that both pass lock version 1 succeed, because the first sets it back. */
  lemma SettingTheLockLosesAnUpdate(name: string)
    ensures var s1 := [First(name, DRAFT, None, None, 1)];
            var first := OpUpdate("a", Some(1), Patch(tenantId := Some(Some("t")), lockVersion := Some(0)));
            var second := OpUpdate("a", Some(1), Patch(tenantId := Some(Some("u"))));
            Step(s1, first).Ok? && Step(Next(s1, first), second).Ok?
  {
    hide OneRule;
    var s1 := [First(name, DRAFT, None, None, 1)];
    var first := OpUpdate("a", Some(1), Patch(tenantId := Some(Some("t")), lockVersion := Some(0)));
    FindsFirst(s1, HasId("a"));
    FindsFirst(Next(s1, first), HasId("a"));
  }
}
