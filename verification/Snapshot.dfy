/** Rule packs as JSON (snapshots, export, import) and back, and what a pack served from Redis decides. */
module Snapshots {
  import opened Common
  import opened Values
  import opened Engine
  import opened Rules
  import opened Policy
  import opened Resolver
  import opened Pipeline

  // ----------------------------------------------------------- scalar fields

  function FromText(o: Option<string>): Value { if o.Some? then Str(o.value) else Null }

  function ToText(v: Value): Try<Option<string>> {
    match v case Null => Done(None) case Str(s) => Done(Some(s)) case _ => Raised
  }

  function FromNumber(o: Option<int>): Value { if o.Some? then Int(o.value) else Null }

  function ToNumber(v: Value): Try<Option<int>> {
    match v case Null => Done(None) case Int(i) => Done(Some(i)) case _ => Raised
  }

  /** An instant as text; only that printing and parsing are inverse matters. */
  function FromTime(o: Option<int>): Value { if o.Some? then Str(IntText(o.value)) else Null }

  function ToTime(v: Value): Try<Option<int>> {
    if !Truthy(v) then Done(None)
    else if v.Str? && ParseInt(v.s).Some? then Done(ParseInt(v.s))
    else Raised
  }

  lemma TimeRoundTrip(o: Option<int>)
    ensures ToTime(FromTime(o)) == Done(o)
  {
    if o.Some? { IntTextParses(o.value); }
  }

  function FromTexts(ss: seq<string>): Value { List(Map(s => Str(s), ss)) }

  function ToTexts(vs: seq<Value>): Try<seq<string>> {
    if vs == [] then Done([])
    else
      match (vs[0], ToTexts(vs[1..]))
      case (Str(s), Done(rest)) => Done([s] + rest)
      case _ => Raised
  }

  lemma {:induction false} TextsRoundTrip(ss: seq<string>)
    ensures ToTexts(FromTexts(ss).items) == Done(ss)
  {
    if ss != [] {
      assert FromTexts(ss).items[1..] == FromTexts(ss[1..]).items;
      TextsRoundTrip(ss[1..]);
      assert ss == [ss[0]] + ss[1..];
    }
  }

  // -------------------------------------------------------------------- rules

  /** `data.get(key, default)` */
  function GetOr(data: Object, key: string, default: Value): Value { if key in data then data[key] else default }

  /** _rule_to_json */
  function RuleToJson(r: Rule): Object {
    map["id" := FromText(r.id), "ruleCode" := Str(r.code), "name" := Str(r.name), "description" := Str(r.description),
        "family" := Str(r.family), "familyOrder" := Int(r.familyOrder), "priorityWeight" := Int(r.weight),
        "severityBand" := FromText(r.severityBand), "contributionScore" := FromNumber(r.contribution),
        "conditions" := r.conditions, "exceptions" := if r.exceptions.Some? then r.exceptions.value else Null,
        "conflictGroup" := FromText(r.conflictGroup), "conflictsWith" := FromTexts(r.conflictsWith),
        "isSuppressor" := Bool(r.isSuppressor), "nonSuppressible" := Bool(r.nonSuppressible),
        "cooldownMinutes" := Int(r.cooldownMinutes), "actions" := Dict(r.actions), "mitigations" := Dict(r.mitigations),
        "sequencing" := if r.sequencing.Some? then Dict(r.sequencing.value)
          else Null, "slaTarget" := FromText(r.slaTarget),
        "ruleStatus" := Str(r.ruleStatus), "enabled" := Bool(r.enabled)]
  }

  /** The scalar half of _rule_from_json. */
  datatype Header = Header(
    code: string, name: string, description: string, family: string, familyOrder: int, weight: int,
    severityBand: Option<string>, contribution: Option<int>, conflictGroup: Option<string>, slaTarget: Option<string>,
    cooldownMinutes: int, isSuppressor: bool, nonSuppressible: bool, ruleStatus: string, enabled: bool)

  function ReadHeader(d: Object): Try<Header> {
    var code, name := Get(d, "ruleCode"), Get(d, "name");
    var description, family := GetOr(d, "description", Str("")), GetOr(d, "family", Str("OPERATIONAL_FEASIBILITY"));
    var order, weight, cooldown := GetOr(d, "familyOrder", Int(99)), GetOr(d, "priorityWeight", Int(50)),
        GetOr(d, "cooldownMinutes", Int(0));
    var band, score := ToText(Get(d, "severityBand")), ToNumber(Get(d, "contributionScore"));
    var group, sla := ToText(Get(d, "conflictGroup")), ToText(Get(d, "slaTarget"));
    var suppressor, shield := GetOr(d, "isSuppressor", Bool(false)), GetOr(d, "nonSuppressible", Bool(false));
    var status, enabled := GetOr(d, "ruleStatus", Str("ACTIVE")), GetOr(d, "enabled", Bool(true));
    if code.Str? && name.Str? && description.Str? && family.Str? && order.Int? && weight.Int? && cooldown.Int?
       && band.Done? && score.Done? && group.Done? && sla.Done? && suppressor.Bool? && shield.Bool? && status.Str?
       && enabled.Bool?
    then Done(Header(code.s, name.s, description.s, family.s, order.i, weight.i, band.value, score.value, group.value,
                     sla.value, cooldown.i, suppressor.b, shield.b, status.s, enabled.b))
    else Raised
  }

  datatype Parts = Parts(
    conditions: Value, exceptions: Option<Value>, conflictsWith: seq<string>, actions: Object, mitigations: Object,
    sequencing: Option<Object>)

  function ReadParts(d: Object): Try<Parts> {
    var others := GetOr(d, "conflictsWith", List([]));
    var actions, mitigations, sequencing := GetOr(d, "actions", Dict(map[])), GetOr(d, "mitigations", Dict(map[])),
        Get(d, "sequencing");
    if "conditions" in d && others.List? && ToTexts(others.items).Done? && actions.Dict? && mitigations.Dict?
       && (sequencing.Null? || sequencing.Dict?)
    then Done(Parts(d["conditions"], if Truthy(Get(d, "exceptions")) then Some(d["exceptions"]) else None,
                    ToTexts(others.items).value, actions.m, mitigations.m,
                    if sequencing.Dict? then Some(sequencing.m) else None))
    else Raised
  }

  /** _rule_from_json: the id is never read back. */
  function RuleFromJson(d: Object): Try<Rule> {
    match (ReadHeader(d), ReadParts(d))
    case (Done(h), Done(p)) =>
      Done(Rule(h.code, h.name, h.description, h.family, h.familyOrder, h.weight, h.severityBand, h.contribution,
                p.conditions, p.exceptions, h.conflictGroup, p.conflictsWith, h.isSuppressor, h.nonSuppressible,
                h.cooldownMinutes, p.actions, p.mitigations, p.sequencing, h.slaTarget, h.ruleStatus, h.enabled, None))
    case _ => Raised
  }

  /** What survives the trip: the id is gone, and so is an exceptions tree that is empty or otherwise falsy. */
  function Carried(): Rule -> Rule {
    (r: Rule) => r.(id := None, exceptions := if r.exceptions.Some? && !Truthy(r.exceptions.value) then None
      else r.exceptions)
  }

  ghost predicate Holds(d: Object, key: string, v: Value) { key in d && d[key] == v }

  lemma JsonTexts(r: Rule)
    ensures var d := RuleToJson(r);
            && Holds(d, "ruleCode", Str(r.code)) && Holds(d, "name", Str(r.name))
               && Holds(d, "description", Str(r.description))
            && Holds(d, "family", Str(r.family)) && Holds(d, "ruleStatus", Str(r.ruleStatus))
  {
  }

  lemma JsonNumbers(r: Rule)
    ensures var d := RuleToJson(r);
            && Holds(d, "familyOrder", Int(r.familyOrder)) && Holds(d, "priorityWeight", Int(r.weight))
            && Holds(d, "cooldownMinutes", Int(r.cooldownMinutes)) && Holds(d, "isSuppressor", Bool(r.isSuppressor))
            && Holds(d, "nonSuppressible", Bool(r.nonSuppressible)) && Holds(d, "enabled", Bool(r.enabled))
  {
  }

  lemma JsonOptions(r: Rule)
    ensures var d := RuleToJson(r);
            && Holds(d, "severityBand", FromText(r.severityBand))
               && Holds(d, "contributionScore", FromNumber(r.contribution))
            && Holds(d, "conflictGroup", FromText(r.conflictGroup)) && Holds(d, "slaTarget", FromText(r.slaTarget))
  {
  }

  lemma JsonParts(r: Rule)
    ensures var d := RuleToJson(r);
            && Holds(d, "conditions", r.conditions)
            && Holds(d, "exceptions", if r.exceptions.Some? then r.exceptions.value else Null)
            && Holds(d, "conflictsWith", FromTexts(r.conflictsWith))
            && Holds(d, "actions", Dict(r.actions)) && Holds(d, "mitigations", Dict(r.mitigations))
            && Holds(d, "sequencing", if r.sequencing.Some? then Dict(r.sequencing.value) else Null)
  {
  }

  lemma HeaderRoundTrip(r: Rule)
    ensures ReadHeader(RuleToJson(r)) ==
            Done(Header(r.code, r.name, r.description, r.family, r.familyOrder, r.weight, r.severityBand,
                        r.contribution, r.conflictGroup, r.slaTarget, r.cooldownMinutes, r.isSuppressor,
                        r.nonSuppressible, r.ruleStatus, r.enabled))
  {
    hide RuleToJson;
    JsonTexts(r);
    JsonNumbers(r);
    JsonOptions(r);
  }

  lemma PartsRoundTrip(r: Rule)
    ensures ReadParts(RuleToJson(r)) ==
            Done(Parts(r.conditions, Carried()(r).exceptions, r.conflictsWith, r.actions, r.mitigations, r.sequencing))
  {
    hide FromText, FromNumber, Truthy, RuleToJson;
    JsonParts(r);
    TextsRoundTrip(r.conflictsWith);
    assert !Truthy(Null) by { NullIsFalsy(); }
  }

  lemma NullIsFalsy()
    ensures !Truthy(Null)
  {
  }

  /** A rule written as JSON and read back is the rule without its id and without a falsy exceptions tree. */
  lemma RuleRoundTrip(r: Rule)
    ensures RuleFromJson(RuleToJson(r)) == Done(Carried()(r))
  {
    hide RuleToJson, ReadHeader, ReadParts;
    HeaderRoundTrip(r);
    PartsRoundTrip(r);
  }

  // -------------------------------------------------------------------- packs

  function RulesFromJson(ds: seq<Value>): Try<seq<Rule>> {
    if ds == [] then Done([])
    else if !ds[0].Dict? then Raised
    else
      match (RuleFromJson(ds[0].m), RulesFromJson(ds[1..]))
      case (Done(r), Done(rest)) => Done([r] + rest)
      case _ => Raised
  }

  function AsJson(): Rule -> Value { (r: Rule) => Dict(RuleToJson(r)) }

  /** rule_pack_to_snapshot */
  function PackToSnapshot(p: RulePack): Object {
    map["id" := FromText(p.id), "name" := Str(p.name), "version" := Int(p.version), "status" := Str(p.status),
        "region" := FromText(p.region), "tenantId" := FromText(p.tenantId), "createdBy" := Str(p.createdBy),
        "parentVersion" := FromNumber(p.parentVersion), "createdAt" := FromTime(p.createdAt),
        "activatedAt" := FromTime(p.activatedAt), "rules" := List(Map(AsJson(), p.rules))]
  }

  /** rule_pack_from_snapshot */
  function PackFromSnapshot(d: Object): Try<RulePack> {
    var id, region, tenant := ToText(Get(d, "id")), ToText(Get(d, "region")), ToText(Get(d, "tenantId"));
    var name, version, status := Get(d, "name"), Get(d, "version"), Get(d, "status");
    var author, parent := GetOr(d, "createdBy", Str("system")), ToNumber(Get(d, "parentVersion"));
    var created, activated, rules := ToTime(Get(d, "createdAt")), ToTime(Get(d, "activatedAt")),
        GetOr(d, "rules", List([]));
    if id.Done? && region.Done? && tenant.Done? && name.Str? && version.Int? && status.Str? && author.Str?
       && parent.Done? && created.Done? && activated.Done? && rules.List? && RulesFromJson(rules.items).Done?
    then Done(RulePack(name.s, version.i, status.s, region.value, RulesFromJson(rules.items).value, parent.value,
                       id.value, tenant.value, author.s, created.value, activated.value, None, 1))
    else Raised
  }

  function CarriedPack(p: RulePack): RulePack {
    p.(rules := Map(Carried(), p.rules), deletedAt := None, lockVersion := 1)
  }

  lemma {:induction false} RulesRoundTrip(rules: seq<Rule>)
    ensures RulesFromJson(Map(AsJson(), rules)) == Done(Map(Carried(), rules))
  {
    hide RuleFromJson, RuleToJson;
    if rules != [] {
      RuleRoundTrip(rules[0]);
      assert Map(AsJson(), rules)[1..] == Map(AsJson(), rules[1..]);
      RulesRoundTrip(rules[1..]);
      assert Map(Carried(), rules) == [Carried()(rules[0])] + Map(Carried(), rules[1..]);
    }
  }

  /** Snapshot and back: the lock version, the deletion time and the rule ids are lost, and nothing else that counts. */
  lemma SnapshotRoundTrip(p: RulePack)
    ensures PackFromSnapshot(PackToSnapshot(p)) == Done(CarriedPack(p))
  {
    hide RulesFromJson, FromTime, ToTime, AsJson, Carried;
    RulesRoundTrip(p.rules);
    TimeRoundTrip(p.createdAt);
    TimeRoundTrip(p.activatedAt);
  }

  // --------------------------------------------------- same decisions: matching

  lemma CarriedKeepsOrder()
    ensures forall r :: Carried()(r).familyOrder == r.familyOrder && Carried()(r).weight == r.weight
  {
  }

  lemma FalsyNeverHolds(tree: Value, data: Object)
    requires !Truthy(tree)
    ensures Satisfied(tree, data) == Done(false)
  {
  }

  lemma VerdictCarried(r: Rule, data: Object)
    ensures VerdictOn(Carried()(r), data) == VerdictOn(r, data)
  {
    hide Satisfied, Truthy;
    if r.exceptions.Some? && !Truthy(r.exceptions.value) { FalsyNeverHolds(r.exceptions.value, data); }
  }

  lemma ActiveCarried(rules: seq<Rule>)
    ensures ActiveRules(Map(Carried(), rules)) == Map(Carried(), ActiveRules(rules))
    ensures ActiveFamily(Map(Carried(), rules), COMPLIANCE) == Map(Carried(), ActiveFamily(rules, COMPLIANCE))
  {
    hide Sort, Filter;
    var family := (r: Rule) => r.family == COMPLIANCE;
    CarriedKeepsOrder();
    FilterMap(IsActive, IsActive, Carried(), rules);
    FilterMap(family, family, Carried(), Filter(IsActive, rules));
    MapSort(Carried(), Filter(IsActive, rules));
    MapSort(Carried(), Filter(family, Filter(IsActive, rules)));
  }

  lemma MapMap<T(!new), U(!new), V(!new)>(g: U -> V, f: T -> U, h: T -> V, s: seq<T>)
    requires forall x :: x in s ==> g(f(x)) == h(x)
    ensures Map(g, Map(f, s)) == Map(h, s)
  {
  }

  lemma MatchedCarried(rules: seq<Rule>, data: Object)
    ensures Matched(Map(Carried(), rules), data) == Map(Carried(), Matched(rules, data))
    ensures Rejected(Map(Carried(), rules), data) == Rejected(rules, data)
    ensures PolicyFails(Map(Carried(), rules), data) == PolicyFails(rules, data)
  {
    hide VerdictOn, Sort, Filter;
    ActiveCarried(rules);
    forall r ensures VerdictOn(Carried()(r), data) == VerdictOn(r, data) { VerdictCarried(r, data); }
    FilterMap(MatchTest(data), MatchTest(data), Carried(), ActiveRules(rules));
    FilterMap(RejectTest(data), RejectTest(data), Carried(), ActiveRules(rules));
    MapMap(Trace(data), Carried(), Trace(data), Filter(RejectTest(data), ActiveRules(rules)));
    CarriedMembers(rules);
  }

  lemma CarriedMembers(rules: seq<Rule>)
    ensures forall r :: r in rules ==> Carried()(r) in Map(Carried(), rules)
    ensures forall s :: s in Map(Carried(), rules) ==> exists r :: r in rules && Carried()(r) == s
  {
    forall r | r in rules ensures Carried()(r) in Map(Carried(), rules) {
      var i :| 0 <= i < |rules| && rules[i] == r;
      assert Map(Carried(), rules)[i] == Carried()(r);
    }
  }

  // -------------------------------------------------- same decisions: resolving

  lemma WithoutMap(s: seq<Rule>, i: nat)
    requires i < |s|
    ensures Without(Map(Carried(), s), i) == Map(Carried(), Without(s, i))
  {
  }

  lemma MapFirst(s: seq<Rule>)
    requires s != []
    ensures Map(Carried(), s) != [] && Map(Carried(), s)[0] == Carried()(s[0])
  {
  }

  lemma EntriesCarried(field: string, reason: Reason, s: seq<Rule>)
    ensures Map(Entry(field, reason), Map(Carried(), s)) == Map(Entry(field, reason), s)
  {
    MapMap(Entry(field, reason), Carried(), Entry(field, reason), s);
  }

  lemma TestsCarried(field: string, ws: seq<Rule>)
    ensures var cs := Map(Carried(), ws);
            && HasSuppressor(cs) == HasSuppressor(ws) && HasShield(cs) == HasShield(ws)
            && Agree(field, cs) == Agree(field, ws) && OneGroup(cs) == OneGroup(ws)
  {
    CarriedMembers(ws);
    if ws != [] { MapFirst(ws); }
  }

  lemma HeaviestCarried(r: Rule, ws: seq<Rule>)
    ensures Heaviest(Carried()(r), Map(Carried(), ws)) == Heaviest(r, ws)
  {
    CarriedMembers(ws);
  }

  lemma GroupFailsCarried(ws: seq<Rule>)
    ensures GroupFails(Map(Carried(), ws)) == GroupFails(ws)
  {
    hide Heaviest, Specificity;
    var cs := Map(Carried(), ws);
    forall r ensures Heaviest(Carried()(r), cs) == Heaviest(r, ws) { HeaviestCarried(r, ws); }
    assert forall i :: 0 <= i < |ws| ==> cs[i] == Carried()(ws[i]) && Heaviest(cs[i], cs) == Heaviest(ws[i], ws);
    CarriedMembers(ws);
    forall r ensures Specificity(Carried()(r).conditions) == Specificity(r.conditions) { }
  }

  lemma BestCarried(ws: seq<Rule>, beats: (Rule, Rule) -> bool)
    requires ws != [] && forall a, b :: beats(Carried()(a), Carried()(b)) == beats(a, b)
    ensures Map(Carried(), ws) != [] && ArgBest(Map(Carried(), ws), beats) == ArgBest(ws, beats)
    ensures Map(Carried(), ws)[ArgBest(ws, beats)] == Carried()(ws[ArgBest(ws, beats)])
  {
    hide Carried, ArgBest;
    ArgBestMap(ws, Carried(), beats, beats);
  }

  lemma WrittenCarried(field: string, ws: seq<Rule>)
    ensures forall r :: Get(Carried()(r).actions, field) == Get(r.actions, field)
  {
  }

  lemma MergeBoolsCarried(field: string, ws: seq<Rule>)
    requires ws != [] && field != PRIORITY && field != TARGET_SLA && field != "slaTarget"
    ensures Map(Carried(), ws) != [] && MergeField(field, Map(Carried(), ws)) == MergeField(field, ws)
  {
    hide WeightBeats, Carried, Get, ArgBest;
    CarriedMembers(ws);
    WrittenCarried(field, ws);
    WeightCarried();
    BestCarried(ws, WeightBeats);
  }

  lemma WeightCarried()
    ensures forall a, b :: WeightBeats(Carried()(a), Carried()(b)) == WeightBeats(a, b)
  {
  }

  lemma MergeDurationsCarried(field: string, ws: seq<Rule>)
    requires ws != [] && (field == TARGET_SLA || field == "slaTarget")
    ensures Map(Carried(), ws) != [] && MergeField(field, Map(Carried(), ws)) == MergeField(field, ws)
  {
    hide DurationMinutes, MinutesOr0, Carried, Get;
    CarriedMembers(ws);
    WrittenCarried(field, ws);
    BestCarried(ws, ShorterBeats(field));
  }

  lemma MergePriorityCarried(ws: seq<Rule>)
    requires ws != []
    ensures Map(Carried(), ws) != [] && MergeField(PRIORITY, Map(Carried(), ws)) == MergeField(PRIORITY, ws)
  {
    hide Hashable, SeverityRank, Carried, Get;
    CarriedMembers(ws);
    WrittenCarried(PRIORITY, ws);
    BestCarried(ws, SeverityBeats(PRIORITY));
  }

  lemma MergeCarried(field: string, ws: seq<Rule>)
    requires ws != []
    ensures Map(Carried(), ws) != [] && MergeField(field, Map(Carried(), ws)) == MergeField(field, ws)
  {
    hide MergeField;
    if field == PRIORITY { MergePriorityCarried(ws); }
    else if field == TARGET_SLA || field == "slaTarget" { MergeDurationsCarried(field, ws); }
    else { MergeBoolsCarried(field, ws); }
  }

  lemma SettleCarried(field: string, ws: seq<Rule>)
    ensures Settle(field, Map(Carried(), ws)) == Settle(field, ws)
  {
    hide Agree, OneGroup, GroupFails, MergeField, SpecificityOr0, StrLess, Without, Entry;
    TestsCarried(field, ws);
    if ws != [] {
      MapFirst(ws);
      GroupFailsCarried(ws);
      MergeCarried(field, ws);
      forall a, b ensures GroupBeats(Carried()(a), Carried()(b)) == GroupBeats(a, b) { GroupBeatsCarried(a, b); }
      BestCarried(ws, GroupBeats);
      var w := ArgBest(ws, GroupBeats);
      WithoutMap(ws, w);
      EntriesCarried(field, LostTo(ws[w].code), Without(ws, w));
    }
  }

  lemma GroupBeatsCarried(a: Rule, b: Rule)
    ensures GroupBeats(Carried()(a), Carried()(b)) == GroupBeats(a, b)
  {
    assert SpecificityOr0(Carried()(a)) == SpecificityOr0(a) && SpecificityOr0(Carried()(b)) == SpecificityOr0(b);
  }

  lemma ResolveFieldCarried(field: string, ws: seq<Rule>)
    ensures ResolveField(field, Map(Carried(), ws)) == ResolveField(field, ws)
  {
    hide Settle, HasSuppressor, HasShield, Without, Filter, Entry;
    TestsCarried(field, ws);
    SettleCarried(field, ws);
    FilterMap(Ordinary(), Ordinary(), Carried(), ws);
    FilterMap(Suppressor(), Suppressor(), Carried(), ws);
    SettleCarried(field, Filter(Ordinary(), ws));
    EntriesCarried(field, Overridden, Filter(Suppressor(), ws));
    if HasSuppressor(ws) && !HasShield(ws) {
      assert ws != [] by { SuppressorExists(ws); }
      BestCarried(ws, SuppressorBeats);
      var w := ArgBest(ws, SuppressorBeats);
      WithoutMap(ws, w);
      EntriesCarried(field, SuppressedBy(ws[w].code), Without(ws, w));
      OneCarried(ws[w]);
      SettleCarried(field, [ws[w]]);
    }
  }

  lemma SuppressorExists(ws: seq<Rule>)
    requires HasSuppressor(ws)
    ensures ws != []
  {
  }

  lemma OneCarried(r: Rule)
    ensures Map(Carried(), [r]) == [Carried()(r)]
  {
  }

  lemma {:induction false} MitigationCarried(acc: Value, rs: seq<Rule>, key: string)
    ensures Mitigation(acc, Map(Carried(), rs), key) == Mitigation(acc, rs, key)
    decreases |rs|
  {
    hide Truthy;
    if rs != [] {
      var v := Get(rs[0].mitigations, key);
      MapFirst(rs);
      assert Map(Carried(), rs)[1..] == Map(Carried(), rs[1..]);
      MitigationCarried(if v.Bool? && !Truthy(acc) then v else acc, rs[1..], key);
    }
  }

  lemma MitigationsCarried(matched: seq<Rule>)
    ensures Mitigations(Map(Carried(), matched)) == Mitigations(matched)
  {
    hide Mitigation, Filter;
    CarriedMembers(matched);
    assert MitigationKeys(Map(Carried(), matched)) == MitigationKeys(matched);
    forall k ensures MitigationValue(k, Map(Carried(), matched)) == MitigationValue(k, matched) {
      FilterMap(Mitigates(k), Mitigates(k), Carried(), matched);
      var rs := Filter(Mitigates(k), matched);
      if rs != [] {
        MapFirst(rs);
        assert Map(Carried(), rs)[1..] == Map(Carried(), rs[1..]);
        MitigationCarried(Get(rs[0].mitigations, k), rs[1..], k);
      }
    }
  }

  lemma ModifiersCarried(matched: seq<Rule>)
    ensures var cs := Map(Carried(), matched);
            HasFloor(cs) == HasFloor(matched) && TopFloor(cs) == TopFloor(matched)
              && |Filter(Bumps(), cs)| == |Filter(Bumps(), matched)|
  {
    hide SeverityIndex, Filter, Truthy;
    CarriedMembers(matched);
    FilterMap(Bumps(), Bumps(), Carried(), matched);
    forall i: nat ensures HasFloorAt(Map(Carried(), matched), i) == HasFloorAt(matched, i) {
      forall r ensures FloorAt(i)(Carried()(r)) == FloorAt(i)(r) { }
    }
  }

  lemma FieldResultCarried(field: string, matched: seq<Rule>)
    ensures FieldResult(field, Map(Carried(), matched)) == FieldResult(field, matched)
  {
    hide ResolveField, Carried;
    WritersCarried(field, matched);
    ResolveFieldCarried(field, Writers(field, matched));
  }

  lemma MergedCarried(matched: seq<Rule>)
    ensures var cs := Map(Carried(), matched);
            && ResolveFails(cs) == ResolveFails(matched)
            && (!ResolveFails(matched) ==> Merged(cs) == Merged(matched) && LogOf(cs) == LogOf(matched))
  {
    hide FieldResult, Fields, Carried;
    FieldsCarried(matched);
    forall f ensures FieldResult(f, Map(Carried(), matched)) == FieldResult(f, matched) {
      FieldResultCarried(f, matched);
    }
  }

  lemma PostprocessCarried(actions: Object, matched: seq<Rule>)
    ensures Postprocess(actions, Map(Carried(), matched)) == Postprocess(actions, matched)
  {
    hide HasFloor, TopFloor, Filter, SeverityIndex, Bumped, Carried;
    ModifiersCarried(matched);
  }

  lemma ResolveCarried(matched: seq<Rule>)
    ensures Resolve(Map(Carried(), matched)) == Resolve(matched)
  {
    hide Postprocess, Mitigations, ResolveFails, Merged, LogOf, Carried;
    MergedCarried(matched);
    MitigationsCarried(matched);
    if !ResolveFails(matched) { PostprocessCarried(Merged(matched), matched); }
  }

  lemma FieldsCarried(matched: seq<Rule>)
    ensures Fields(Map(Carried(), matched)) == Fields(matched)
  {
    CarriedMembers(matched);
  }

  lemma WritersCarried(field: string, matched: seq<Rule>)
    ensures Writers(field, Map(Carried(), matched)) == Map(Carried(), Writers(field, matched))
  {
    FilterMap(Writes(field), Writes(field), Carried(), matched);
  }

  // --------------------------------------------- same decisions: later stages

  lemma {:induction false} OverwriteCarried(actions: Object, rs: seq<Rule>)
    ensures Overwrite(actions, Map(Carried(), rs)) == Overwrite(actions, rs)
    decreases |rs|
  {
    if rs != [] {
      MapFirst(rs);
      assert Map(Carried(), rs)[1..] == Map(Carried(), rs[1..]);
      OverwriteCarried(actions + rs[0].actions, rs[1..]);
    }
  }

  lemma ComplianceCarried(rules: seq<Rule>, data: Object, actions: Object)
    ensures var cs := Map(Carried(), rules);
            && ComplianceFails(cs, data) == ComplianceFails(rules, data)
            && Overwrite(actions, ComplianceHits(cs, data)) == Overwrite(actions, ComplianceHits(rules, data))
            && Map(AsConstraint(), ComplianceHits(cs, data)) == Map(AsConstraint(), ComplianceHits(rules, data))
  {
    hide Satisfied, Filter, Sort, Overwrite;
    ActiveCarried(rules);
    CarriedMembers(rules);
    FilterMap(SatisfiedTest(data), SatisfiedTest(data), Carried(), ActiveFamily(rules, COMPLIANCE));
    OverwriteCarried(actions, ComplianceHits(rules, data));
    MapMap(AsConstraint(), Carried(), AsConstraint(), ComplianceHits(rules, data));
  }

  lemma {:induction false} SequencedCarried(rs: seq<Rule>, order: nat)
    ensures SequencedSteps(Map(Carried(), rs), order) == SequencedSteps(rs, order)
  {
    if rs != [] {
      MapFirst(rs);
      assert Map(Carried(), rs)[1..] == Map(Carried(), rs[1..]);
      SequencedCarried(rs[1..], order + 2);
    }
  }

  lemma {:induction false} DirectCarried(fields: seq<string>, actions: Object, rs: seq<Rule>, order: nat)
    ensures DirectSteps(fields, actions, Map(Carried(), rs), order) == DirectSteps(fields, actions, rs, order)
    decreases |fields|
  {
    hide Truthy;
    if fields != [] {
      CarriedMembers(rs);
      assert Inserted(Map(Carried(), rs), fields[0]) == Inserted(rs, fields[0]);
      DirectCarried(fields[1..], actions, rs, order);
      DirectCarried(fields[1..], actions, rs, order + 1);
    }
  }

  lemma PlanCarried(actions: Object, matched: seq<Rule>)
    ensures PlanFails(Map(Carried(), matched)) == PlanFails(matched)
    ensures PlanOf(actions, Map(Carried(), matched)) == PlanOf(actions, matched)
  {
    hide SequencedSteps, DirectSteps, Filter, Hashable;
    FilterMap(HasSequencing(), HasSequencing(), Carried(), matched);
    var rs := Filter(HasSequencing(), matched);
    CarriedMembers(rs);
    forall r ensures SequencingOk(Carried()(r)) == SequencingOk(r) { }
    SequencedCarried(rs, 1);
    DirectCarried(PLAN_FIELDS, actions, rs, 1 + 2 * |rs|);
  }

  lemma {:induction false} TotalCarried(rs: seq<Rule>)
    ensures Total(Map(Carried(), rs)) == Total(rs)
  {
    if rs != [] {
      MapFirst(rs);
      assert Map(Carried(), rs)[1..] == Map(Carried(), rs[1..]);
      TotalCarried(rs[1..]);
    }
  }

  lemma RiskCarried(codes: set<string>, matched: seq<Rule>)
    ensures Total(Filter(Counted(codes), Map(Carried(), matched))) == Total(Filter(Counted(codes), matched))
  {
    hide Total;
    FilterMap(Counted(codes), Counted(codes), Carried(), matched);
    TotalCarried(Filter(Counted(codes), matched));
  }

  lemma CarriedDecides(rules: seq<Rule>, incident: Incident, matrix: Option<Matrix>)
    ensures Run(Map(Carried(), rules), incident, matrix) == Run(rules, incident, matrix)
  {
    hide PolicyFails, Matched, Rejected, Resolve, ComplianceFails, ComplianceHits, Overwrite, FillTargets, PlanFails,
         PlanOf, Total, Filter;
    var data := EvaluationData(incident);
    var matched := Matched(rules, data);
    MatchedCarried(rules, data);
    ResolveCarried(matched);
    MapMap(AsMatchedTrace(), Carried(), AsMatchedTrace(), matched);
    if Resolve(matched).Done? {
      var resolved := Resolve(matched).value;
      ComplianceCarried(rules, data, resolved.actions);
      RiskCarried(SuppressedCodes(resolved.log), matched);
      forall actions { PlanCarried(actions, matched); }
    }
  }

  /** A pack that went through the distributed cache decides every incident as the original does. */
  lemma ServedFromSnapshotDecidesTheSame(p: RulePack, incident: Incident, matrix: Option<Matrix>)
    ensures PackFromSnapshot(PackToSnapshot(p)).Done?
    ensures Run(PackFromSnapshot(PackToSnapshot(p)).value.rules, incident, matrix) == Run(p.rules, incident, matrix)
  {
    hide Run, PackFromSnapshot, PackToSnapshot;
    SnapshotRoundTrip(p);
    CarriedDecides(p.rules, incident, matrix);
  }
}
