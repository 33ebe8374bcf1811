/** InMemoryRulePackRepository and the use cases that drive it, against the steps of the store. */
module Repository {
  import opened Common
  import opened Values
  import opened Rules
  import opened Validation
  import opened Store
  import opened Snapshots
  import Lifecycle
  import RuleEdits

  class InMemoryRulePackRepository {
    /** The dictionary, in insertion order. */
    var store: Slots

    constructor ()
      ensures store == []
    {
      store := [];
    }

    method FindSlot(test: Slot -> bool) returns (r: Option<nat>)
      ensures r == Find(store, test)
    {
      r := None;
      for i := 0 to |store|
        invariant r.None?
        invariant forall j :: 0 <= j < i ==> !test(store[j])
      {
        if test(store[i]) { return Some(i); }
      }
    }

    method Get(name: string, version: int) returns (r: Option<RulePack>)
      ensures var i := Find(store, HasKey(Key(name, version))); r == if i.Some? then Some(store[i.value].pack) else None
    {
      var i := FindSlot(HasKey(Key(name, version)));
      r := if i.Some? then Some(store[i.value].pack) else None;
    }

    method GetById(id: string) returns (r: Option<RulePack>)
      ensures var i := Find(store, HasId(id)); r == if i.Some? then Some(store[i.value].pack) else None
    {
      var i := FindSlot(HasId(id));
      r := if i.Some? then Some(store[i.value].pack) else None;
    }

    method ActivePack(name: string, region: Option<string>) returns (r: Option<RulePack>)
      ensures r == GetActive(store, name, region)
    {
      var i := FindSlot(IsActiveIn(name, region));
      r := if i.Some? then Some(store[i.value].pack) else None;
    }

    /** `max(p.version for p in list_versions(name))`, None when there is none. */
    method LatestVersion(name: string) returns (r: Option<int>)
      ensures r == Latest(store, name)
    {
      r := None;
      for i := |store| downto 0
        invariant r == Latest(store[i..], name)
      {
        assert store[i..][1..] == store[i + 1..];
        var pack := store[i].pack;
        if pack.name == name && (r.None? || pack.version > r.value) { r := Some(pack.version); }
      }
      assert store[0..] == store;
    }

    method SavePack(pack: RulePack, freshId: string, now: int) returns (saved: RulePack)
      modifies this
      ensures store == Save(old(store), pack, freshId, now)
      ensures exists i :: 0 <= i < |store| && store[i] == Slot(Key(pack.name, pack.version), saved)
      ensures saved.rules == pack.rules && saved.status == pack.status
    {
      saved := pack;
      if saved.id.None? { saved := saved.(id := Some(freshId)); }
      if saved.createdAt.None? { saved := saved.(createdAt := Some(now)); }
      var i := FindSlot(HasKey(Key(pack.name, pack.version)));
      if i.Some? {
        store := Put(store, i.value, saved);
        assert store[i.value] == Slot(Key(pack.name, pack.version), saved);
      } else {
        store := store + [Slot(Key(pack.name, pack.version), saved)];
        assert store[|store| - 1] == Slot(Key(pack.name, pack.version), saved);
      }
    }

    /** update_metadata, update_status and soft_delete share their look-up, lock check and lock bump. */
    method Change(id: string, expected: Option<int>, change: RulePack -> RulePack) returns (r: Result<RulePack>)
      modifies this
      ensures match ChangeById(old(store), id, expected, change)
              case Ok(t) => store == t && r == Ok(t[Find(old(store), HasId(id)).value].pack)
              case Err(e) => store == old(store) && r == Err(e)
    {
      var i := FindSlot(HasId(id));
      if i.None? { return Err(ValueError); }
      var pack := store[i.value].pack;
      if expected.Some? && pack.lockVersion != expected.value { return Err(ConcurrentModification); }
      pack := change(pack);
      pack := pack.(lockVersion := pack.lockVersion + 1);
      store := Put(store, i.value, pack);
      r := Ok(pack);
    }

    /** activate: lock check, then every active version steps down, then the target steps up. */
    method ActivateVersion(name: string, version: int, expected: Option<int>, now: int) returns (r: Result<RulePack>)
      modifies this
      ensures match Activate(old(store), name, version, expected, now)
              case Ok(t) => store == t && r == Ok(t[Find(old(store), HasKey(Key(name, version))).value].pack)
              case Err(e) => store == old(store) && r == Err(e)
    {
      var found := FindSlot(HasKey(Key(name, version)));
      if found.None? { return Err(ValueError); }
      var target := found.value;
      if expected.Some? && store[target].pack.lockVersion != expected.value { return Err(ConcurrentModification); }
      ghost var before := store;
      for i := 0 to |store|
        invariant |store| == |before|
        invariant forall j :: 0 <= j < |store| ==>
                  store[j] == if j < i then before[j].(pack := Deprecated(before[j].pack, name)) else before[j]
      {
        var pack := store[i].pack;
        if pack.name == name && pack.status == ACTIVE {
          store := Put(store, i, pack.(status := DEPRECATED, lockVersion := pack.lockVersion + 1));
        }
      }
      var pack := store[target].pack;
      pack := pack.(status := ACTIVE, activatedAt := Some(now), lockVersion := pack.lockVersion + 1);
      store := Put(store, target, pack);
      assert store == ActivateAt(before, name, target, now);
      r := Ok(pack);
    }
  }

  /** What a subscriber is told. */
  datatype Event = Event(entityId: Option<string>, action: string)

  /** The event a successful use case publishes, if any. */
  ghost function Published(s: Slots, op: Lifecycle.Op): seq<Event> {
    if Lifecycle.Step(s, op).Err? then []
    else
      match op
      case OpDelete(id, _, _) => [Event(Some(id), "deleted")]
      case OpActivate(id, _, _) => [Event(Some(id), "activated")]
      case OpRollback(name, version, _, _) =>
        (match Find(s, HasKey(Key(name, version)))
         case Some(i) =>
           if s[i].pack.parentVersion.None? then []
           else
             (match Find(s, HasKey(Key(name, s[i].pack.parentVersion.value)))
              case Some(j) => [Event(s[j].pack.id, "rolled_back")]
              case None => [])
         case None => [])
      case _ => []
  }

  /** The store and the events after a use case are those of its step. */
  ghost predicate Performed(op: Lifecycle.Op, before: Slots, after: Slots, published: seq<Event>, r: Result<RulePack>) {
    && after == Lifecycle.Next(before, op)
    && published == Published(before, op)
    && match Lifecycle.Step(before, op)
       case Ok(_) => r.Ok? && exists i :: 0 <= i < |after| && after[i].pack == r.value
       case Err(e) => r == Err(e)
  }

  /** A rule use case returns the rule that is now in the draft it changed, under the id asked for if any. */
  ghost predicate RulePerformed(op: Lifecycle.Op, before: Slots, after: Slots, published: seq<Event>, r: Result<Rule>) {
    && after == Lifecycle.Next(before, op)
    && published == Published(before, op)
    && match Lifecycle.Step(before, op)
       case Ok(_) =>
         && r.Ok? && (exists i :: 0 <= i < |after| && after[i].pack.status == DRAFT && r.value in after[i].pack.rules)
         && r.value.id == Some(if op.OpCreateRule? then op.freshId else RuleAsked(op))
         && (op.OpDeleteRule? ==> !r.value.enabled)
       case Err(e) => r == Err(e)
  }

  ghost predicate StoredRule(s: Slots, rule: Rule, id: string) {
    rule.id == Some(id) && exists i :: 0 <= i < |s| && s[i].pack.status == DRAFT && rule in s[i].pack.rules
  }

  function RuleAsked(op: Lifecycle.Op): string {
    match op case OpUpdateRule(ruleId, _, _, _) => ruleId case OpDeleteRule(ruleId, _, _) => ruleId case _ => ""
  }

  /** The use cases over one repository and one notifier's event queue. */
  class UseCases {
    const repository: InMemoryRulePackRepository

    constructor (repository: InMemoryRulePackRepository)
      ensures this.repository == repository
    {
      this.repository := repository;
    }

    method CreateRulePack(name: string, region: Option<string>, tenant: Option<string>, rules: seq<Rule>, actor: string,
                          freshId: string, now: int) returns (r: Result<RulePack>, published: seq<Event>)
      modifies repository
      ensures Performed(Lifecycle.OpCreate(name, region, tenant, rules, actor, freshId, now), old(repository.store),
              repository.store, published, r)
    {
      hide Save, Latest, Find;
      var latest := repository.LatestVersion(name);
      var version := if latest.Some? then latest.value + 1 else 1;
      var pack := Lifecycle.NewPack(name, version, region, rules, tenant, actor, latest);
      var saved := repository.SavePack(pack, freshId, now);
      r, published := Ok(saved), [];
    }

    method ImportRulePack(document: Object, actor: string, freshId: string, now: int)
      returns (r: Result<RulePack>, published: seq<Event>)
      modifies repository
      ensures Performed(Lifecycle.OpImport(document, actor, freshId, now), old(repository.store), repository.store,
              published, r)
    {
      hide RulesFromJson, Lifecycle.ReadDocument, Save, Latest;
      var read := Lifecycle.ReadDocument(document);
      if read.Raised? { return Err(BadDocument), []; }
      var d := read.value;
      if d.requested.Some? {
        var existing := repository.Get(d.name, d.requested.value);
        if existing.Some? { return Err(ValueError), []; }
      }
      var latest := repository.LatestVersion(d.name);
      var version := if d.requested.Some? && d.requested.value != 0 then d.requested.value
          else (if latest.Some? then latest.value else 0) + 1;
      var pack := Lifecycle.NewPack(d.name, version, d.region, d.rules, d.tenantId, actor, latest);
      var saved := repository.SavePack(pack, freshId, now);
      r, published := Ok(saved), [];
    }

    method UpdateRulePackMetadata(id: string, expected: Option<int>, patch: Patch)
      returns (r: Result<RulePack>, published: seq<Event>)
      modifies repository
      ensures Performed(Lifecycle.OpUpdate(id, expected, patch), old(repository.store), repository.store, published, r)
    {
      var pack := repository.GetById(id);
      if pack.None? { return Err(ValueError), []; }
      if pack.value.status != DRAFT { return Err(ValueError), []; }
      r := repository.Change(id, expected, Patched(patch));
      published := [];
    }

    method SoftDeleteRulePack(id: string, expected: Option<int>, now: int)
      returns (r: Result<RulePack>, published: seq<Event>)
      modifies repository
      ensures Performed(Lifecycle.OpDelete(id, expected, now), old(repository.store), repository.store, published, r)
    {
      var pack := repository.GetById(id);
      if pack.None? { return Err(ValueError), []; }
      if pack.value.status == ACTIVE { return Err(ValueError), []; }
      r := repository.Change(id, expected, Archived(now));
      published := if r.Ok? then [Event(Some(id), "deleted")] else [];
    }

    method PublishRulePack(id: string) returns (r: Result<RulePack>, published: seq<Event>)
      modifies repository
      ensures Performed(Lifecycle.OpPublish(id), old(repository.store), repository.store, published, r)
    {
      hide ValidRules;
      var pack := repository.GetById(id);
      if pack.None? { return Err(ValueError), []; }
      if !CanTransition(pack.value.status, PUBLISHED) { return Err(ValueError), []; }
      var problems := Validate(pack.value.rules);
      if problems != [] { return Err(ValueError), []; }
      r := repository.Change(id, None, WithStatus(PUBLISHED));
      published := [];
    }

    method ActivateRulePack(id: string, expected: Option<int>, now: int)
      returns (r: Result<RulePack>, published: seq<Event>)
      modifies repository
      ensures Performed(Lifecycle.OpActivate(id, expected, now), old(repository.store), repository.store, published, r)
    {
      var pack := repository.GetById(id);
      if pack.None? { return Err(ValueError), []; }
      if !CanTransition(pack.value.status, ACTIVE) { return Err(ValueError), []; }
      r := repository.ActivateVersion(pack.value.name, pack.value.version, expected, now);
      published := if r.Ok? then [Event(Some(id), "activated")] else [];
    }

    method RollbackRulePack(name: string, version: int, expected: Option<int>, now: int)
      returns (r: Result<RulePack>, published: seq<Event>)
      modifies repository
      ensures Performed(Lifecycle.OpRollback(name, version, expected, now), old(repository.store), repository.store,
              published, r)
    {
      var current := repository.Get(name, version);
      if current.None? { return Err(ValueError), []; }
      if current.value.parentVersion.None? { return Err(ValueError), []; }
      if expected.Some? && current.value.lockVersion != expected.value { return Err(ConcurrentModification), []; }
      r := repository.ActivateVersion(name, current.value.parentVersion.value, None, now);
      published := if r.Ok? then [Event(r.value.id, "rolled_back")] else [];
    }

    method CreateRule(packId: string, data: Object, freshId: string, now: int)
      returns (r: Result<Rule>, published: seq<Event>)
      modifies repository
      ensures RulePerformed(Lifecycle.OpCreateRule(packId, data, freshId, now), old(repository.store),
              repository.store, published, r)
      ensures r.Ok? ==> RuleEdits.Names(data) && RuleEdits.FieldsFrom(data, RuleEdits.DEFAULTS, r.value)
    {
      hide RuleFromJson, Lifecycle.SaveRules, Save, RuleEdits.FieldsFrom;
      var i := repository.FindSlot(HasId(packId));
      if i.None? { return Err(ValueError), []; }
      var pack := repository.store[i.value].pack;
      if pack.status != DRAFT { return Err(ValueError), []; }
      var read := RuleFromJson(data);
      if read.Raised? { return Err(BadDocument), []; }
      var rule := read.value;
      if exists x :: x in pack.rules && x.code == rule.code { return Err(ValueError), []; }
      RuleEdits.RuleReads(data, rule);
      RuleEdits.IdIsNoField(data, RuleEdits.DEFAULTS, rule, Some(freshId));
      rule := rule.(id := Some(freshId));
      SaveEdited(i.value, pack.rules + [rule], freshId, now);
      r, published := Ok(rule), [];
    }

    /** Rules are edited in place; then the pack is saved. */
    method SaveEdited(i: nat, rules: seq<Rule>, freshId: string, now: int)
      requires i < |repository.store|
      modifies repository
      ensures repository.store == Lifecycle.SaveRules(old(repository.store), i, rules, freshId, now)
      ensures exists k :: 0 <= k < |repository.store|
                && repository.store[k].pack.rules == rules
                   && repository.store[k].pack.status == old(repository.store[i].pack.status)
    {
      var pack := repository.store[i].pack.(rules := rules);
      repository.store := Put(repository.store, i, pack);
      var saved := repository.SavePack(pack, freshId, now);
    }

    method FindRule(ruleId: string) returns (r: Option<nat>)
      ensures r == Lifecycle.FindRule(repository.store, ruleId)
    {
      var page := Lifecycle.Page(repository.store);
      for i := 0 to |page|
        invariant Lifecycle.FirstCarrier(repository.store, page, ruleId) ==
                  Lifecycle.FirstCarrier(repository.store, page[i..], ruleId)
      {
        if Lifecycle.RuleAt(repository.store[page[i]].pack.rules, ruleId).Some? { return Some(page[i]); }
        assert page[i..][1..] == page[i + 1..];
      }
      r := None;
    }

    method UpdateRule(ruleId: string, data: Object, freshId: string, now: int)
      returns (r: Result<Rule>, published: seq<Event>)
      modifies repository
      ensures RulePerformed(Lifecycle.OpUpdateRule(ruleId, data, freshId, now), old(repository.store),
              repository.store, published, r)
      ensures r.Ok? ==> exists was ::
                StoredRule(old(repository.store), was, ruleId) && RuleEdits.FieldsFrom(data, was, r.value)
    {
      hide RuleFromJson, RuleToJson, Lifecycle.SaveRules, Lifecycle.FindRule, Save, Find, RuleEdits.FieldsFrom;
      var i := FindRule(ruleId);
      if i.None? { return Err(ValueError), []; }
      var pack := repository.store[i.value].pack;
      if pack.status != DRAFT { return Err(ValueError), []; }
      var k := Lifecycle.RuleAt(pack.rules, ruleId).value;
      var read := RuleFromJson(RuleToJson(pack.rules[k]) + data);
      if read.Raised? { return Err(BadDocument), []; }
      RuleEdits.MergedReads(pack.rules[k], data, read.value);
      RuleEdits.IdIsNoField(data, pack.rules[k], read.value, pack.rules[k].id);
      assert StoredRule(repository.store, pack.rules[k], ruleId);
      var updated := read.value.(id := pack.rules[k].id);
      var rules := Map(Lifecycle.Replacing(ruleId, updated), pack.rules);
      assert rules[k] == updated;
      SaveEdited(i.value, rules, freshId, now);
      r, published := Ok(updated), [];
    }

    method DeleteRule(ruleId: string, freshId: string, now: int) returns (r: Result<Rule>, published: seq<Event>)
      modifies repository
      ensures RulePerformed(Lifecycle.OpDeleteRule(ruleId, freshId, now), old(repository.store), repository.store,
              published, r)
      ensures r.Ok? ==> exists was ::
                StoredRule(old(repository.store), was, ruleId) && r.value == was.(enabled := false)
    {
      var i := FindRule(ruleId);
      if i.None? { return Err(ValueError), []; }
      var pack := repository.store[i.value].pack;
      if pack.status != DRAFT { return Err(ValueError), []; }
      var k := Lifecycle.RuleAt(pack.rules, ruleId).value;
      var rules := pack.rules[k := pack.rules[k].(enabled := false)];
      assert rules[k] in rules && StoredRule(repository.store, pack.rules[k], ruleId);
      SaveEdited(i.value, rules, freshId, now);
      r, published := Ok(rules[k]), [];
    }

    method SeedActivePolicy(name: string, fixture: Lifecycle.Fixture, freshId: string, now: int)
      returns (r: Result<RulePack>, published: seq<Event>)
      modifies repository
      ensures Performed(Lifecycle.OpSeed(name, fixture, freshId, now), old(repository.store), repository.store,
              published, r)
    {
      var existing := repository.ActivePack(name, None);
      if existing.Some? { return Ok(existing.value), []; }
      var found := repository.Get(name, fixture.version);
      if found.None? { var saved := repository.SavePack(Lifecycle.FixturePack(name, fixture), freshId, now); }
      r := repository.ActivateVersion(name, fixture.version, None, now);
      published := [];
    }
  }
}
