/** What creating, updating and deleting a rule changes, said field by field. */
module RuleEdits {
  import opened Common
  import opened Values
  import opened OperatorTheorems
  import opened Rules
  import opened Store
  import opened Snapshots
  import opened Lifecycle
  import opened LifecycleTheorems

  // ------------------------------------------------------------- field by field

  /** The field is what the document says, and what it was if the document does not mention it. */
  predicate Sets(data: Object, key: string, was: Value, becomes: Value) {
    becomes == if key in data then data[key] else was
  }

  function TreeOrNull(o: Option<Value>): Value { if o.Some? then o.value else Null }

  function HintOrNull(o: Option<Object>): Value { if o.Some? then Dict(o.value) else Null }

  ghost predicate TextsFrom(data: Object, base: Rule, r: Rule) {
    && Sets(data, "ruleCode", Str(base.code), Str(r.code)) && Sets(data, "name", Str(base.name), Str(r.name))
    && Sets(data, "description", Str(base.description), Str(r.description))
    && Sets(data, "family", Str(base.family), Str(r.family))
    && Sets(data, "ruleStatus", Str(base.ruleStatus), Str(r.ruleStatus))
  }

  ghost predicate NumbersFrom(data: Object, base: Rule, r: Rule) {
    && Sets(data, "familyOrder", Int(base.familyOrder), Int(r.familyOrder))
    && Sets(data, "priorityWeight", Int(base.weight), Int(r.weight))
    && Sets(data, "cooldownMinutes", Int(base.cooldownMinutes), Int(r.cooldownMinutes))
    && Sets(data, "isSuppressor", Bool(base.isSuppressor), Bool(r.isSuppressor))
    && Sets(data, "nonSuppressible", Bool(base.nonSuppressible), Bool(r.nonSuppressible))
    && Sets(data, "enabled", Bool(base.enabled), Bool(r.enabled))
  }

  ghost predicate OptionsFrom(data: Object, base: Rule, r: Rule) {
    && Sets(data, "severityBand", FromText(base.severityBand), FromText(r.severityBand))
    && Sets(data, "contributionScore", FromNumber(base.contribution), FromNumber(r.contribution))
    && Sets(data, "conflictGroup", FromText(base.conflictGroup), FromText(r.conflictGroup))
    && Sets(data, "slaTarget", FromText(base.slaTarget), FromText(r.slaTarget))
  }

  /** An exceptions tree that does not count as true is dropped. */
  ghost predicate PartsFrom(data: Object, base: Rule, r: Rule) {
    && Sets(data, "conditions", base.conditions, r.conditions)
    && (var tree := if "exceptions" in data then data["exceptions"] else TreeOrNull(base.exceptions);
        r.exceptions == if CountsAsTrue(tree) then Some(tree) else None)
    && Sets(data, "conflictsWith", FromTexts(base.conflictsWith), FromTexts(r.conflictsWith))
    && Sets(data, "actions", Dict(base.actions), Dict(r.actions))
    && Sets(data, "mitigations", Dict(base.mitigations), Dict(r.mitigations))
    && Sets(data, "sequencing", HintOrNull(base.sequencing), HintOrNull(r.sequencing))
  }

  /** Every field but the id comes from the document where that mentions it, and from the base rule elsewhere. */
  ghost predicate FieldsFrom(data: Object, base: Rule, r: Rule) {
    TextsFrom(data, base, r) && NumbersFrom(data, base, r) && OptionsFrom(data, base, r) && PartsFrom(data, base, r)
  }

  /** What a document that does not say otherwise makes of a rule. */
  const DEFAULTS := Rule("", "", "", "OPERATIONAL_FEASIBILITY", 99, 50, None, None, Null, None, None, [], false, false,
                         0, map[], map[], None, None, "ACTIVE", true, None)

  predicate Names(data: Object) { "ruleCode" in data && "name" in data && "conditions" in data }

  lemma {:induction false} TextsBack(vs: seq<Value>)
    ensures ToTexts(vs).Done? ==> FromTexts(ToTexts(vs).value) == List(vs)
  {
    if vs != [] {
      TextsBack(vs[1..]);
      if ToTexts(vs).Done? {
        var rest := ToTexts(vs[1..]).value;
        assert FromTexts([vs[0].s] + rest).items == [vs[0]] + FromTexts(rest).items;
        assert vs == [vs[0]] + vs[1..];
      }
    }
  }

  lemma HeaderReads(d: Object, r: Rule)
    requires RuleFromJson(d) == Done(r)
    ensures "ruleCode" in d && "name" in d
    ensures TextsFrom(d, DEFAULTS, r) && NumbersFrom(d, DEFAULTS, r) && OptionsFrom(d, DEFAULTS, r)
  {
    hide ReadParts;
  }

  lemma PartsRead(d: Object, r: Rule)
    requires RuleFromJson(d) == Done(r)
    ensures "conditions" in d && PartsFrom(d, DEFAULTS, r) && r.id.None?
  {
    hide ReadHeader, Truthy, CountsAsTrue;
    var others := GetOr(d, "conflictsWith", List([]));
    TextsBack(others.items);
    TruthyCounts(Get(d, "exceptions"));
    TruthyCounts(Null);
    assert !CountsAsTrue(Null) by { NothingCounts(); }
  }

  lemma NothingCounts()
    ensures !CountsAsTrue(Null)
  {
  }

  /** Reading a document gives the fields it mentions and the defaults elsewhere. */
  lemma RuleReads(d: Object, r: Rule)
    requires RuleFromJson(d) == Done(r)
    ensures Names(d) && FieldsFrom(d, DEFAULTS, r) && r.id.None?
  {
    hide RuleFromJson, TextsFrom, NumbersFrom, OptionsFrom, PartsFrom;
    HeaderReads(d, r);
    PartsRead(d, r);
  }

  lemma TextsMerge(base: Rule, data: Object, r: Rule)
    requires TextsFrom(RuleToJson(base) + data, DEFAULTS, r)
    ensures TextsFrom(data, base, r)
  {
    hide RuleToJson;
    JsonTexts(base);
  }

  lemma NumbersMerge(base: Rule, data: Object, r: Rule)
    requires NumbersFrom(RuleToJson(base) + data, DEFAULTS, r)
    ensures NumbersFrom(data, base, r)
  {
    hide RuleToJson;
    JsonNumbers(base);
  }

  lemma OptionsMerge(base: Rule, data: Object, r: Rule)
    requires OptionsFrom(RuleToJson(base) + data, DEFAULTS, r)
    ensures OptionsFrom(data, base, r)
  {
    hide RuleToJson;
    JsonOptions(base);
  }

  lemma PartsMerge(base: Rule, data: Object, r: Rule)
    requires PartsFrom(RuleToJson(base) + data, DEFAULTS, r)
    ensures PartsFrom(data, base, r)
  {
    hide RuleToJson, CountsAsTrue, FromTexts;
    JsonParts(base);
  }

  /** Merging a document into a rule's JSON and reading it back sets what the document mentions, and nothing else. */
  lemma MergedReads(base: Rule, data: Object, r: Rule)
    requires RuleFromJson(RuleToJson(base) + data) == Done(r)
    ensures FieldsFrom(data, base, r)
  {
    hide RuleFromJson, RuleToJson, TextsFrom, NumbersFrom, OptionsFrom, PartsFrom;
    RuleReads(RuleToJson(base) + data, r);
    TextsMerge(base, data, r);
    NumbersMerge(base, data, r);
    OptionsMerge(base, data, r);
    PartsMerge(base, data, r);
  }

  // ---------------------------------------------------------------- the edits

  /** Only the rules of the pack in slot i change, and a missing creation time is stamped. */
  ghost predicate OnlyRules(s: Slots, t: Slots, i: nat, rules: seq<Rule>, now: int) {
    && i < |s| && |t| == |s|
    && (forall k :: 0 <= k < |s| && k != i ==> t[k] == s[k])
    && t[i] == s[i].(pack := s[i].pack.(rules := rules,
                                        createdAt := if s[i].pack.createdAt.None? then Some(now)
                                                     else s[i].pack.createdAt))
  }

  lemma SavedInPlace(s: Slots, i: nat, rules: seq<Rule>, freshId: string, now: int)
    requires Keyed(s) && Identified(s) && i < |s|
    ensures OnlyRules(s, SaveRules(s, i, rules, freshId, now), i, rules, now)
  {
    hide SaveRules;
    SaveInPlace(s, i, rules, freshId, now);
  }

  lemma IdIsNoField(data: Object, base: Rule, r: Rule, id: Option<string>)
    requires FieldsFrom(data, base, r)
    ensures FieldsFrom(data, base, r.(id := id))
  {
  }

  /** What a creation appends. */
  ghost predicate Created(s: Slots, t: Slots, i: nat, r: Rule, data: Object, freshId: string, now: int) {
    && i < |s| && s[i].pack.status == "draft" && Names(data) && FieldsFrom(data, DEFAULTS, r) && r.id == Some(freshId)
    && (forall x :: x in s[i].pack.rules ==> x.code != r.code)
    && OnlyRules(s, t, i, s[i].pack.rules + [r], now)
  }

  /** A creation appends to a draft one rule with a code that no other rule of it has, under the new id, with the fields
      of the document and the defaults elsewhere. */
  lemma CreatedRule(s: Slots, packId: string, data: Object, freshId: string, now: int) returns (i: nat, r: Rule)
    requires Keyed(s) && Identified(s) && CreateRule(s, packId, data, freshId, now).Ok?
    ensures Created(s, CreateRule(s, packId, data, freshId, now).value, i, r, data, freshId, now)
    ensures s[i].pack.id == Some(packId)
  {
    hide RuleFromJson, SaveRules, FieldsFrom, OnlyRules;
    i := Find(s, HasId(packId)).value;
    var rule := RuleFromJson(data).value;
    r := rule.(id := Some(freshId));
    RuleReads(data, rule);
    IdIsNoField(data, DEFAULTS, rule, Some(freshId));
    SavedInPlace(s, i, s[i].pack.rules + [r], freshId, now);
  }

  /** Every rule with the id becomes the same new one, and the others stay. */
  predicate Replaced(rules: seq<Rule>, after: seq<Rule>, id: string, r: Rule) {
    && |after| == |rules|
    && forall j :: 0 <= j < |rules| ==> after[j] == if rules[j].id == Some(id) then r else rules[j]
  }

  /** The rule that `was` has become `r`, under the same id. */
  ghost predicate Updated(s: Slots, t: Slots, i: nat, was: Rule, r: Rule, data: Object, ruleId: string, now: int) {
    && i < |s| && |t| == |s| && s[i].pack.status == "draft"
    && was in s[i].pack.rules && was.id == r.id == Some(ruleId) && FieldsFrom(data, was, r)
    && Replaced(s[i].pack.rules, t[i].pack.rules, ruleId, r) && OnlyRules(s, t, i, t[i].pack.rules, now)
  }

  /** An update replaces a draft's rule: the fields the document mentions are as it says, all others and the id as they
      were, and so is every other rule of the pack and every other pack. */
  lemma UpdatedRule(s: Slots, ruleId: string, data: Object, freshId: string, now: int)
    returns (i: nat, was: Rule, r: Rule)
    requires Keyed(s) && Identified(s) && UpdateRule(s, ruleId, data, freshId, now).Ok?
    ensures Updated(s, UpdateRule(s, ruleId, data, freshId, now).value, i, was, r, data, ruleId, now)
  {
    hide RuleFromJson, RuleToJson, SaveRules, FieldsFrom, FindRule;
    i := FindRule(s, ruleId).value;
    var rules := s[i].pack.rules;
    was := rules[RuleAt(rules, ruleId).value];
    var updated := RuleFromJson(RuleToJson(was) + data).value;
    r := updated.(id := was.id);
    MergedReads(was, data, updated);
    IdIsNoField(data, was, updated, was.id);
    SavedInPlace(s, i, Map(Replacing(ruleId, r), rules), freshId, now);
  }

  /** A deletion disables the first rule of a draft that has the id, and changes nothing else. */
  ghost predicate Disabled(s: Slots, t: Slots, i: nat, k: nat, ruleId: string, now: int) {
    && i < |s| && s[i].pack.status == "draft" && k < |s[i].pack.rules| && s[i].pack.rules[k].id == Some(ruleId)
    && (forall j :: 0 <= j < k ==> s[i].pack.rules[j].id != Some(ruleId))
    && OnlyRules(s, t, i, s[i].pack.rules[k := s[i].pack.rules[k].(enabled := false)], now)
  }

  lemma DeletedRule(s: Slots, ruleId: string, freshId: string, now: int) returns (i: nat, k: nat)
    requires Keyed(s) && Identified(s) && DeleteRule(s, ruleId, freshId, now).Ok?
    ensures Disabled(s, DeleteRule(s, ruleId, freshId, now).value, i, k, ruleId, now)
  {
    hide SaveRules, FindRule, OnlyRules;
    i := FindRule(s, ruleId).value;
    var rules := s[i].pack.rules;
    k := RuleAt(rules, ruleId).value;
    SavedInPlace(s, i, rules[k := rules[k].(enabled := false)], freshId, now);
  }
}
