/** The rule-pack use cases as steps over the store. */
module Lifecycle {
  import opened Common
  import opened Values
  import opened Rules
  import opened Validation
  import opened Store
  import opened Snapshots

  // ----------------------------------------------------- packs: create, import

  function NewPack(name: string, version: int, region: Option<string>, rules: seq<Rule>, tenant: Option<string>,
                   actor: string, parent: Option<int>): RulePack {
    RulePack(name, version, DRAFT, region, rules, parent, None, tenant, actor, None, None, None, 1)
  }

  /** CreateRulePackUseCase */
  function Create(s: Slots, name: string, region: Option<string>, tenant: Option<string>, rules: seq<Rule>,
                  actor: string, freshId: string, now: int): Slots {
    var latest := Latest(s, name);
    var version := if latest.Some? then latest.value + 1 else 1;
    Save(s, NewPack(name, version, region, rules, tenant, actor, latest), freshId, now)
  }

  /** An import document, once read. */
  datatype Document = Document(
    name: string, requested: Option<int>, region: Option<string>, tenantId: Option<string>, rules: seq<Rule>)

  function ReadDocument(d: Object): Try<Document> {
    var name, requested, region, tenant := Get(d, "name"), ToNumber(Get(d, "version")), ToText(Get(d, "region")),
        ToText(Get(d, "tenantId"));
    var rules := GetOr(d, "rules", List([]));
    if name.Str? && requested.Done? && region.Done? && tenant.Done? && rules.List? && RulesFromJson(rules.items).Done?
    then Done(Document(name.s, requested.value, region.value, tenant.value, RulesFromJson(rules.items).value))
    else Raised
  }

  /** ExportRulePackUseCase, on the pack found. */
  function ExportPack(p: RulePack): Object {
    map["name" := Str(p.name), "version" := Int(p.version), "region" := FromText(p.region),
        "rules" := List(Map(AsJson(), p.rules))]
  }

  /** An exported pack reads back with the same name, version and region, and with the rules a snapshot carries. */
  lemma ExportReadsBack(p: RulePack)
    ensures ReadDocument(ExportPack(p)) ==
            Done(Document(p.name, Some(p.version), p.region, None, Map(Carried(), p.rules)))
  {
    hide RulesFromJson, AsJson, Carried;
    RulesRoundTrip(p.rules);
  }

  function ImportVersion(requested: Option<int>, latest: Option<int>): int {
    if requested.Some? && requested.value != 0 then requested.value else (if latest.Some? then latest.value else 0) + 1
  }

  /** ImportRulePackUseCase */
  function Import(s: Slots, document: Object, actor: string, freshId: string, now: int): Result<Slots> {
    match ReadDocument(document)
    case Raised => Err(BadDocument)
    case Done(d) =>
      if d.requested.Some? && Find(s, HasKey(Key(d.name, d.requested.value))).Some? then Err(ValueError)
      else
        var latest := Latest(s, d.name);
        Ok(Save(s, NewPack(d.name, ImportVersion(d.requested, latest), d.region, d.rules, d.tenantId, actor, latest),
          freshId, now))
  }

  // ------------------------------------------- packs: update, delete, publish, activate

  /** UpdateRulePackMetadataUseCase */
  function Update(s: Slots, id: string, expected: Option<int>, patch: Patch): Result<Slots> {
    match Find(s, HasId(id))
    case None => Err(ValueError)
    case Some(i) => if s[i].pack.status != DRAFT then Err(ValueError) else UpdateMetadata(s, id, expected, patch)
  }

  /** SoftDeleteRulePackUseCase */
  function Delete(s: Slots, id: string, expected: Option<int>, now: int): Result<Slots> {
    match Find(s, HasId(id))
    case None => Err(ValueError)
    case Some(i) => if s[i].pack.status == ACTIVE then Err(ValueError) else SoftDelete(s, id, expected, now)
  }

  /** PublishRulePackUseCase */
  ghost function Publish(s: Slots, id: string): Result<Slots> {
    match Find(s, HasId(id))
    case None => Err(ValueError)
    case Some(i) =>
      if !CanTransition(s[i].pack.status, PUBLISHED) || !ValidRules(s[i].pack.rules) then Err(ValueError)
      else UpdateStatus(s, id, PUBLISHED, None)
  }

  /** ActivateRulePackUseCase */
  function ActivateById(s: Slots, id: string, expected: Option<int>, now: int): Result<Slots> {
    match Find(s, HasId(id))
    case None => Err(ValueError)
    case Some(i) =>
      if !CanTransition(s[i].pack.status, ACTIVE) then Err(ValueError)
      else Activate(s, s[i].pack.name, s[i].pack.version, expected, now)
  }

  /** RollbackRulePackUseCase: the lock is checked on the version left, not on the one brought back. */
  function Rollback(s: Slots, name: string, version: int, expected: Option<int>, now: int): Result<Slots> {
    match Find(s, HasKey(Key(name, version)))
    case None => Err(ValueError)
    case Some(i) =>
      var current := s[i].pack;
      if current.parentVersion.None? then Err(ValueError)
      else if !LockOk(current, expected) then Err(ConcurrentModification)
      else Activate(s, name, current.parentVersion.value, None, now)
  }

  // -------------------------------------------------------------------- rules

  predicate SortsBefore(a: RulePack, b: RulePack) {
    StrLess(a.name, b.name) || (a.name == b.name && a.version < b.version)
  }

  predicate Indices(s: Slots, order: seq<nat>) { forall k :: 0 <= k < |order| ==> order[k] < |s| }

  function Place(s: Slots, i: nat, order: seq<nat>): (r: seq<nat>)
    requires i < |s| && Indices(s, order)
    ensures Indices(s, r)
  {
    if order == [] || !SortsBefore(s[order[0]].pack, s[i].pack) then [i] + order
    else [order[0]] + Place(s, i, order[1..])
  }

  function SortedFrom(s: Slots, n: nat): (r: seq<nat>)
    requires n <= |s|
    ensures Indices(s, r)
    decreases |s| - n
  {
    if n == |s| then [] else Place(s, n, SortedFrom(s, n + 1))
  }

  /** list_all(include_archived=True): the slots by name and version. */
  function ListAll(s: Slots): (r: seq<nat>)
    ensures Indices(s, r)
  {
    SortedFrom(s, 0)
  }

  /** Sorted by name and version; equal ones in insertion order. */
  ghost predicate InOrder(s: Slots, order: seq<nat>)
    requires Indices(s, order)
  {
    forall a, b :: 0 <= a < b < |order| ==> Ahead(s, order[a], order[b])
  }

  predicate Ahead(s: Slots, i: nat, j: nat)
    requires i < |s| && j < |s|
  {
    SortsBefore(s[i].pack, s[j].pack) || (i < j && !SortsBefore(s[j].pack, s[i].pack))
  }

  lemma SortsBeforeChains(a: RulePack, b: RulePack, c: RulePack)
    ensures SortsBefore(a, b) && !SortsBefore(c, b) ==> SortsBefore(a, c)
    ensures !SortsBefore(b, a) && SortsBefore(b, c) ==> SortsBefore(a, c)
    ensures !SortsBefore(b, a) && !SortsBefore(c, b) ==> !SortsBefore(c, a)
    ensures SortsBefore(a, b) ==> !SortsBefore(b, a)
  {
    hide StrLess;
    StrLessTotal(a.name, b.name);
    StrLessTotal(b.name, c.name);
    StrLessTotal(a.name, c.name);
    if StrLess(a.name, b.name) && StrLess(b.name, c.name) { StrLessTransitive(a.name, b.name, c.name); }
    if StrLess(c.name, b.name) && StrLess(b.name, a.name) { StrLessTransitive(c.name, b.name, a.name); }
    if StrLess(c.name, a.name) && StrLess(a.name, b.name) { StrLessTransitive(c.name, a.name, b.name); }
    if StrLess(b.name, c.name) && StrLess(c.name, a.name) { StrLessTransitive(b.name, c.name, a.name); }
    if StrLess(a.name, c.name) && StrLess(c.name, b.name) { StrLessTransitive(a.name, c.name, b.name); }
    if StrLess(b.name, a.name) && StrLess(a.name, c.name) { StrLessTransitive(b.name, a.name, c.name); }
  }

  lemma {:induction false} PlaceMembers(s: Slots, i: nat, order: seq<nat>)
    requires i < |s| && Indices(s, order)
    ensures multiset(Place(s, i, order)) == multiset(order) + multiset{i}
  {
    if order != [] && SortsBefore(s[order[0]].pack, s[i].pack) {
      PlaceMembers(s, i, order[1..]);
      assert order == [order[0]] + order[1..];
    }
  }

  lemma {:induction false} PlaceKeepsOrder(s: Slots, i: nat, order: seq<nat>)
    requires i < |s| && Indices(s, order) && InOrder(s, order) && forall k :: 0 <= k < |order| ==> i < order[k]
    ensures InOrder(s, Place(s, i, order))
  {
    hide SortsBefore;
    if order == [] {
    } else if !SortsBefore(s[order[0]].pack, s[i].pack) {
      forall b | 0 <= b < |order| ensures Ahead(s, i, order[b]) {
        if b > 0 { assert Ahead(s, order[0], order[b]); }
        SortsBeforeChains(s[i].pack, s[order[0]].pack, s[order[b]].pack);
      }
    } else {
      PlaceKeepsOrder(s, i, order[1..]);
      var rest := Place(s, i, order[1..]);
      PlaceMembers(s, i, order[1..]);
      forall b | 0 <= b < |rest| ensures Ahead(s, order[0], rest[b]) {
        assert rest[b] in multiset(rest);
        if rest[b] != i {
          assert rest[b] in order[1..];
          var k :| 0 <= k < |order[1..]| && order[1..][k] == rest[b];
          assert Ahead(s, order[0], order[k + 1]);
        }
      }
    }
  }

  lemma {:induction false} SortedFromMembers(s: Slots, n: nat)
    requires n <= |s|
    ensures forall i :: multiset(SortedFrom(s, n))[i] == if n <= i < |s| then 1 else 0
    decreases |s| - n
  {
    hide Place;
    if n < |s| {
      SortedFromMembers(s, n + 1);
      PlaceMembers(s, n, SortedFrom(s, n + 1));
    }
  }

  lemma {:induction false} SortedFromInOrder(s: Slots, n: nat)
    requires n <= |s|
    ensures InOrder(s, SortedFrom(s, n))
    decreases |s| - n
  {
    if n < |s| {
      var rest := SortedFrom(s, n + 1);
      SortedFromInOrder(s, n + 1);
      SortedFromMembers(s, n + 1);
      forall k | 0 <= k < |rest| ensures n < rest[k] { assert rest[k] in multiset(rest); }
      PlaceKeepsOrder(s, n, rest);
    }
  }

  /** Every slot is listed once, in order. */
  lemma ListAllIsSorted(s: Slots)
    ensures InOrder(s, ListAll(s))
    ensures forall i :: multiset(ListAll(s))[i] == if 0 <= i < |s| then 1 else 0
  {
    SortedFromInOrder(s, 0);
    SortedFromMembers(s, 0);
  }

  const LIMIT := 10000

  function RuleAt(rules: seq<Rule>, id: string): (r: Option<nat>)
    ensures r.Some? ==> r.value < |rules| && rules[r.value].id == Some(id)
    ensures r.Some? ==> forall j :: 0 <= j < r.value ==> rules[j].id != Some(id)
    ensures r.None? ==> forall x :: x in rules ==> x.id != Some(id)
  {
    if rules == [] then None
    else if rules[0].id == Some(id) then Some(0)
    else
      match RuleAt(rules[1..], id)
      case None => None
      case Some(k) => Some(k + 1)
  }

  predicate Carries(s: Slots, i: nat, ruleId: string) { i < |s| && RuleAt(s[i].pack.rules, ruleId).Some? }

  function FirstCarrier(s: Slots, order: seq<nat>, ruleId: string): (r: Option<nat>)
    ensures r.Some? ==> r.value in order && Carries(s, r.value, ruleId)
    ensures r.None? ==> forall k :: k in order ==> !Carries(s, k, ruleId)
  {
    if order == [] then None
    else if Carries(s, order[0], ruleId) then Some(order[0])
    else
      assert order == [order[0]] + order[1..];
      FirstCarrier(s, order[1..], ruleId)
  }

  function Page(s: Slots): seq<nat> { if |ListAll(s)| <= LIMIT then ListAll(s) else ListAll(s)[..LIMIT] }

  /** _find_rule */
  function FindRule(s: Slots, ruleId: string): (r: Option<nat>)
    ensures r.Some? ==> Carries(s, r.value, ruleId)
  {
    FirstCarrier(s, Page(s), ruleId)
  }

  /** A draft's rules are replaced in place, then the pack is saved. */
  function SaveRules(s: Slots, i: nat, rules: seq<Rule>, freshId: string, now: int): Slots
    requires i < |s|
  {
    var edited := s[i].pack.(rules := rules);
    Save(Put(s, i, edited), edited, freshId, now)
  }

  /** CreateRuleUseCase */
  function CreateRule(s: Slots, packId: string, data: Object, freshId: string, now: int): Result<Slots> {
    match Find(s, HasId(packId))
    case None => Err(ValueError)
    case Some(i) =>
      var pack := s[i].pack;
      if pack.status != DRAFT then Err(ValueError)
      else
        match RuleFromJson(data)
        case Raised => Err(BadDocument)
        case Done(rule) =>
          if exists r :: r in pack.rules && r.code == rule.code then Err(ValueError)
          else Ok(SaveRules(s, i, pack.rules + [rule.(id := Some(freshId))], freshId, now))
  }

  function Replacing(id: string, rule: Rule): Rule -> Rule { (r: Rule) => if r.id == Some(id) then rule else r }

  /** UpdateRuleUseCase */
  function UpdateRule(s: Slots, ruleId: string, data: Object, freshId: string, now: int): Result<Slots> {
    match FindRule(s, ruleId)
    case None => Err(ValueError)
    case Some(i) =>
      var pack := s[i].pack;
      var rule := pack.rules[RuleAt(pack.rules, ruleId).value];
      if pack.status != DRAFT then Err(ValueError)
      else
        match RuleFromJson(RuleToJson(rule) + data)
        case Raised => Err(BadDocument)
        case Done(updated) =>
          Ok(SaveRules(s, i, Map(Replacing(ruleId, updated.(id := rule.id)), pack.rules), freshId, now))
  }

  /** DeleteRuleUseCase: the rule stays, disabled. */
  function DeleteRule(s: Slots, ruleId: string, freshId: string, now: int): Result<Slots> {
    match FindRule(s, ruleId)
    case None => Err(ValueError)
    case Some(i) =>
      var rules := s[i].pack.rules;
      var k := RuleAt(rules, ruleId).value;
      if s[i].pack.status != DRAFT then Err(ValueError)
      else Ok(SaveRules(s, i, rules[k := rules[k].(enabled := false)], freshId, now))
  }

  // -------------------------------------------------------------------- seeding

  /** What the built-in rule file holds. */
  datatype Fixture = Fixture(version: int, status: string, region: Option<string>, rules: seq<Rule>)

  function FixturePack(name: string, f: Fixture): RulePack {
    RulePack(name, f.version, f.status, f.region, f.rules, None, None, None, "system", None, None, None, 1)
  }

  function WithFixture(s: Slots, name: string, f: Fixture, freshId: string, now: int): Slots {
    if Find(s, HasKey(Key(name, f.version))).Some? then s else Save(s, FixturePack(name, f), freshId, now)
  }

  /** SeedActivePolicyOnStartupUseCase */
  function Seed(s: Slots, name: string, f: Fixture, freshId: string, now: int): Result<Slots> {
    if GetActive(s, name, None).Some? then Ok(s)
    else Activate(WithFixture(s, name, f, freshId, now), name, f.version, None, now)
  }

  // ---------------------------------------------------------------------- runs

  datatype Op =
    | OpCreate(name: string, region: Option<string>, tenantId: Option<string>, rules: seq<Rule>, actor: string,
      freshId: string, now: int)
    | OpImport(document: Object, actor: string, freshId: string, now: int)
    | OpUpdate(id: string, expected: Option<int>, patch: Patch)
    | OpDelete(id: string, expected: Option<int>, now: int)
    | OpPublish(id: string)
    | OpActivate(id: string, expected: Option<int>, now: int)
    | OpRollback(name: string, version: int, expected: Option<int>, now: int)
    | OpCreateRule(packId: string, data: Object, freshId: string, now: int)
    | OpUpdateRule(ruleId: string, data: Object, freshId: string, now: int)
    | OpDeleteRule(ruleId: string, freshId: string, now: int)
    | OpSeed(name: string, fixture: Fixture, freshId: string, now: int)

  ghost function Step(s: Slots, op: Op): Result<Slots> {
    match op
    case OpCreate(name, region, tenant, rules, actor, freshId, now) =>
      Ok(Create(s, name, region, tenant, rules, actor, freshId, now))
    case OpImport(document, actor, freshId, now) => Import(s, document, actor, freshId, now)
    case OpUpdate(id, expected, patch) => Update(s, id, expected, patch)
    case OpDelete(id, expected, now) => Delete(s, id, expected, now)
    case OpPublish(id) => Publish(s, id)
    case OpActivate(id, expected, now) => ActivateById(s, id, expected, now)
    case OpRollback(name, version, expected, now) => Rollback(s, name, version, expected, now)
    case OpCreateRule(packId, data, freshId, now) => CreateRule(s, packId, data, freshId, now)
    case OpUpdateRule(ruleId, data, freshId, now) => UpdateRule(s, ruleId, data, freshId, now)
    case OpDeleteRule(ruleId, freshId, now) => DeleteRule(s, ruleId, freshId, now)
    case OpSeed(name, fixture, freshId, now) => Seed(s, name, fixture, freshId, now)
  }

  /** A use case that fails leaves the store alone. */
  ghost function Next(s: Slots, op: Op): Slots { match Step(s, op) case Ok(t) => t case Err(_) => s }

  ghost function RunOps(s: Slots, ops: seq<Op>): Slots
    decreases |ops|
  {
    if ops == [] then s else RunOps(Next(s, ops[0]), ops[1..])
  }

  /** Generated ids are new. */
  ghost predicate Fresh(s: Slots, op: Op) {
    (op.OpCreate? || op.OpImport? || op.OpSeed?) ==> forall i :: 0 <= i < |s| ==> s[i].pack.id != Some(op.freshId)
  }
}
