/** Which runs only ever show validated rules to the evaluator. */
module VettingTheorems {
  import opened Common
  import opened Rules
  import opened Validation
  import opened Store
  import opened Lifecycle
  import opened LifecycleTheorems

  predicate Live(status: string) { status == PUBLISHED || status == ACTIVE || status == DEPRECATED }

  ghost predicate VettedAt(s: Slots, i: nat)
    requires i < |s|
  {
    Live(s[i].pack.status) ==> ValidRules(s[i].pack.rules)
  }

  /** Every published, active or deprecated pack holds rules the validator accepts. */
  ghost predicate Vetted(s: Slots) { forall i :: 0 <= i < |s| ==> VettedAt(s, i) }

  /** The rules a use case is about to make active, or an update to make live, if it does. */
  ghost function AboutToGoLive(s: Slots, op: Op): Option<seq<Rule>> {
    if Step(s, op).Err? then None
    else if op.OpUpdate? then
      match Find(s, HasId(op.id))
      case Some(i) => if Live(Next(s, op)[i].pack.status) then Some(Next(s, op)[i].pack.rules) else None
      case None => None
    else if Chosen(s, op).None? then None
    else
      match Find(s, HasKey(Chosen(s, op).value))
      case Some(i) => Some(s[i].pack.rules)
      case None => if op.OpSeed? then Some(op.fixture.rules) else None
  }

  lemma LiveStatuses()
    ensures !Live(DRAFT) && !Live(ARCHIVED) && Live(PUBLISHED) && Live(ACTIVE) && Live(DEPRECATED)
  {
    StatusesDiffer();
  }

  lemma DeprecatedLive(p: RulePack, name: string)
    ensures Live(Deprecated(p, name).status) == Live(p.status) && Deprecated(p, name).rules == p.rules
  {
  }

  lemma ActivateVets(s: Slots, name: string, target: nat, now: int)
    requires target < |s| && forall i :: 0 <= i < |s| && i != target ==> VettedAt(s, i)
    ensures Vetted(ActivateAt(s, name, target, now)) <==> ValidRules(s[target].pack.rules)
  {
    hide ValidRules, Live, Deprecated;
    var t := ActivateAt(s, name, target, now);
    LiveStatuses();
    forall i | 0 <= i < |s| ensures i != target ==> VettedAt(t, i) {
      DeprecatedLive(s[i].pack, name);
      assert i != target ==> VettedAt(s, i);
    }
    DeprecatedLive(s[target].pack, name);
    assert VettedAt(t, target) <==> ValidRules(s[target].pack.rules);
  }

  lemma AppendVets(s: Slots, x: Slot)
    requires Vetted(s) && (Live(x.pack.status) ==> ValidRules(x.pack.rules))
    ensures Vetted(s + [x])
  {
    hide ValidRules, Live;
    forall i | 0 <= i < |s + [x]| ensures VettedAt(s + [x], i) {
      if i < |s| { assert VettedAt(s, i); }
    }
  }

  lemma EditVets(s: Slots, i: nat, p: RulePack)
    requires Vetted(s) && i < |s| && Edit(s[i].pack, p)
    ensures Vetted(Put(s, i, p))
  {
    hide ValidRules, Live;
    LiveStatuses();
    forall j | 0 <= j < |s| ensures VettedAt(Put(s, i, p), j) {
      assert VettedAt(s, j);
    }
  }

  lemma SeedVets(s: Slots, op: Op)
    requires Inv(s) && Fresh(s, op) && op.OpSeed? && Step(s, op).Ok? && Vetted(s)
    ensures Vetted(Next(s, op)) <==> (AboutToGoLive(s, op).Some? ==> ValidRules(AboutToGoLive(s, op).value))
  {
    hide Inv, Step, Vetted, ValidRules, Live, ActivateAt, GetActive, GoodStep, Save;
    SeedIsGood(s, op);
    if Chosen(s, op).Some? {
      var t := WithFixture(s, op.name, op.fixture, op.freshId, op.now);
      var key := Chosen(s, op).value;
      var i := Find(t, HasKey(key)).value;
      FixtureShape(s, op.name, op.fixture, op.freshId, op.now);
      assert AboutToGoLive(s, op) == Some(t[i].pack.rules) by { FixtureFound(s, op); }
      assert forall j :: 0 <= j < |t| && j != i ==> VettedAt(t, j) by {
        OthersVetted(s, t, i, op);
      }
      ActivateVets(t, op.name, i, op.now);
    }
  }

  lemma FixtureFound(s: Slots, op: Op)
    requires Inv(s) && Fresh(s, op) && op.OpSeed? && Step(s, op).Ok? && Chosen(s, op).Some?
    ensures var t := WithFixture(s, op.name, op.fixture, op.freshId, op.now); var key := Chosen(s, op).value;
            Find(t, HasKey(key)).Some? && AboutToGoLive(s, op) == Some(t[Find(t, HasKey(key)).value].pack.rules)
            && (t != s ==> Find(t, HasKey(key)) == Some(|s|))
  {
    hide Inv, GoodStep, Save, GetActive, ActivateAt, Step;
    SeedIsGood(s, op);
    FixtureShape(s, op.name, op.fixture, op.freshId, op.now);
    var key := Chosen(s, op).value;
    var t := WithFixture(s, op.name, op.fixture, op.freshId, op.now);
    var k := Find(t, HasKey(key)).value;
    if Find(s, HasKey(key)).None? {
      assert t == s + [Slot(key, Stamped(FixturePack(op.name, op.fixture), op.freshId, op.now))] by {
        InvParts(s);
        SaveNew(s, FixturePack(op.name, op.fixture), op.freshId, op.now);
      }
      assert forall j :: 0 <= j < |s| ==> !HasKey(key)(s[j]) && t[j] == s[j];
      assert k == |s|;
    } else {
      assert t == s;
    }
  }

  lemma OthersVetted(s: Slots, t: Slots, i: nat, op: Op)
    requires Vetted(s) && i < |t| && op.OpSeed?
    requires t == s || (t ==
             s + [Slot(Key(op.name, op.fixture.version),
               Stamped(FixturePack(op.name, op.fixture), op.freshId, op.now))] && i == |s|)
    ensures forall j :: 0 <= j < |t| && j != i ==> VettedAt(t, j)
  {
    hide ValidRules, Live;
    forall j | 0 <= j < |t| && j != i ensures VettedAt(t, j) {
      assert VettedAt(s, j);
    }
  }

  lemma UpdateVets(s: Slots, op: Op)
    requires op.OpUpdate? && Step(s, op).Ok? && Vetted(s)
    ensures Vetted(Next(s, op)) <==> (AboutToGoLive(s, op).Some? ==> ValidRules(AboutToGoLive(s, op).value))
  {
    hide ValidRules, Live, Patched;
    UpdateAt(s, op);
    var i := Find(s, HasId(op.id)).value;
    forall j | 0 <= j < |s| && j != i ensures VettedAt(Next(s, op), j) { assert VettedAt(s, j); }
    assert VettedAt(Next(s, op), i) <==> (Live(Next(s, op)[i].pack.status) ==> ValidRules(Next(s, op)[i].pack.rules));
  }

  /** Validation is kept by a step exactly when what the step makes active, or an update makes live, is itself valid. */
  lemma VettedExactly(s: Slots, op: Op)
    requires Inv(s) && Fresh(s, op) && Vetted(s)
    ensures Vetted(Next(s, op)) <==> (AboutToGoLive(s, op).Some? ==> ValidRules(AboutToGoLive(s, op).value))
  {
    hide Inv, Fresh, Step, Vetted, ValidRules, Live, ActivateAt, GoodStep;
    if Step(s, op).Err? {
    } else if op.OpCreate? || op.OpImport? {
      if op.OpCreate? { CreateIsGood(s, op); } else { ImportIsGood(s, op); }
      LiveStatuses();
      var x :| Next(s, op) == s + [x] && x.pack.status == DRAFT;
      AppendVets(s, x);
    } else if op.OpUpdate? {
      UpdateVets(s, op);
    } else if EditsOne(op) {
      EditIsGood(s, op);
      var i: nat, p :| i < |s| && Edit(s[i].pack, p) && Next(s, op) == Put(s, i, p);
      EditVets(s, i, p);
    } else if op.OpSeed? {
      SeedVets(s, op);
    } else {
      ActivateIsGood(s, op);
      var key := Chosen(s, op).value;
      var i := Find(s, HasKey(key)).value;
      assert forall j :: 0 <= j < |s| ==> VettedAt(s, j) by { VettedAll(s); }
      ActivateVets(s, key.name, i, op.now);
    }
  }

  lemma VettedAll(s: Slots)
    requires Vetted(s)
    ensures forall j :: 0 <= j < |s| ==> VettedAt(s, j)
  {
  }

  /** Activation through the use case only brings back what was published; seeding, rollback and updates of the status
      answer for themselves. */
  ghost predicate Sanctioned(s: Slots, op: Op) {
    && !op.OpSeed? && (op.OpUpdate? ==> AboutToGoLive(s, op).None?)
    && (op.OpRollback? && Chosen(s, op).Some? && Find(s, HasKey(Chosen(s, op).value)).Some? ==>
          Live(s[Find(s, HasKey(Chosen(s, op).value)).value].pack.status))
  }

  ghost predicate SanctionedRun(s: Slots, ops: seq<Op>)
    decreases |ops|
  {
    ops == [] || (Sanctioned(s, ops[0]) && SanctionedRun(Next(s, ops[0]), ops[1..]))
  }

  lemma SanctionedIsValid(s: Slots, op: Op)
    requires Inv(s) && Vetted(s) && Sanctioned(s, op) && AboutToGoLive(s, op).Some?
    ensures ValidRules(AboutToGoLive(s, op).value)
  {
    hide ValidRules, CanTransition, Activate, Live;
    LiveStatuses();
    var key := Chosen(s, op).value;
    var i := Find(s, HasKey(key)).value;
    assert VettedAt(s, i);
    if op.OpActivate? {
      var k := Find(s, HasId(op.id)).value;
      assert s[k].key == key && s[i].key == key;
      OnlyDraftsPublish(s[k].pack.status);
    }
  }

  lemma {:induction false} SanctionedRunsStayVetted(s: Slots, ops: seq<Op>)
    requires Inv(s) && Vetted(s) && LegalRun(s, ops) && SanctionedRun(s, ops)
    ensures Vetted(RunOps(s, ops)) && Inv(RunOps(s, ops))
    decreases |ops|
  {
    hide Inv, Vetted, Next, Legal, Fresh, Sanctioned, AboutToGoLive, ValidRules, GoodStep;
    if ops != [] {
      LegalIsGood(s, ops[0]);
      VettedExactly(s, ops[0]);
      if AboutToGoLive(s, ops[0]).Some? { SanctionedIsValid(s, ops[0]); }
      GoodInv(s, Next(s, ops[0]));
      SanctionedRunsStayVetted(Next(s, ops[0]), ops[1..]);
    }
  }

  /** The promise behind the publish gate: in a sanctioned run the evaluator only ever sees validated rules. */
  lemma ActiveRulesAreValid(ops: seq<Op>, name: string, region: Option<string>)
    requires LegalRun([], ops) && SanctionedRun([], ops)
    ensures var active := GetActive(RunOps([], ops), name, region); active.Some? ==> ValidRules(active.value.rules)
  {
    hide Inv, ValidRules, RunOps, LegalRun, SanctionedRun, Live;
    EmptyInv();
    SanctionedRunsStayVetted([], ops);
    var s := RunOps([], ops);
    match Find(s, IsActiveIn(name, region)) {
      case Some(i) =>
        LiveStatuses();
        assert VettedAt(s, i);
      case None =>
    }
  }

  // -------------------------------------------------- where the promise fails

  /** Two empty drafts and a rollback: an unvalidated pack with no rules at all is active. */
  lemma RollbackCanActivateADraft(name: string)
    ensures var create := (id: string) => OpCreate(name, None, None, [], "system", id, 0);
            var ops := [create("a"), create("b"), OpRollback(name, 2, None, 0)];
            && LegalRun([], ops)
            && (var s := RunOps([], ops);
               |s| == 2 && s[0].pack.status == ACTIVE && s[0].pack.rules == [] && !ValidRules(s[0].pack.rules))
  {
    var first := OpCreate(name, None, None, [], "system", "a", 0);
    var second := OpCreate(name, None, None, [], "system", "b", 0);
    var third := OpRollback(name, 2, None, 0);
    var p1 := NewPack(name, 1, None, [], None, "system", None).(id := Some("a"), createdAt := Some(0));
    var p2 := NewPack(name, 2, None, [], None, "system", Some(1)).(id := Some("b"), createdAt := Some(0));
    var s1, s2 := [Slot(Key(name, 1), p1)], [Slot(Key(name, 1), p1), Slot(Key(name, 2), p2)];
    assert Next([], first) == s1;
    assert Next(s1, second) == s2 by { assert Latest(s1, name) == Some(1); }
    assert Find(s2, HasKey(Key(name, 2))) == Some(1);
    assert Find(s2, HasKey(Key(name, 1))) == Some(0);
    var s3 := ActivateAt(s2, name, 0, 0);
    assert Next(s2, third) == s3;
    RunOfThree(first, second, third, s1, s2, s3);
  }

  lemma RunOfThree(a: Op, b: Op, c: Op, s1: Slots, s2: Slots, s3: Slots)
    requires Next([], a) == s1 && Next(s1, b) == s2 && Next(s2, c) == s3
    requires Legal([], a) && Legal(s1, b) && Legal(s2, c)
    ensures RunOps([], [a, b, c]) == s3 && LegalRun([], [a, b, c])
  {
    hide Next, Legal;
    assert [a, b, c][1..] == [b, c] && [b, c][1..] == [c] && [c][1..] == [];
    assert RunOps(s3, []) == s3 && LegalRun(s3, []);
    assert RunOps(s2, [c]) == s3 && LegalRun(s2, [c]);
    assert RunOps(s1, [b, c]) == s3 && LegalRun(s1, [b, c]);
  }
}
