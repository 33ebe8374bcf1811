/** When the use cases on packs succeed and what they then leave, said with the statuses as they are stored. */
module EffectTheorems {
  import opened Common
  import opened Values
  import opened OperatorTheorems
  import opened Rules
  import opened Validation
  import opened Store
  import opened Snapshots
  import opened Lifecycle
  import opened LifecycleTheorems

  /** Slot i is the first with the id, and the expected lock version, if any, is its pack's. */
  ghost predicate Locates(s: Slots, id: string, i: nat) {
    i < |s| && s[i].pack.id == Some(id) && forall j :: 0 <= j < i ==> s[j].pack.id != Some(id)
  }

  predicate Current(p: RulePack, expected: Option<int>) { expected.Some? ==> p.lockVersion == expected.value }

  lemma FindsById(s: Slots, id: string)
    ensures Find(s, HasId(id)).None? <==> forall i: nat :: !Locates(s, id, i)
    ensures forall i: nat :: Locates(s, id, i) <==> Find(s, HasId(id)) == Some(i)
  {
    var r := Find(s, HasId(id));
    if r.Some? { assert HasId(id)(s[r.value]) && Locates(s, id, r.value); }
    forall i: nat | Locates(s, id, i) ensures r == Some(i) { assert HasId(id)(s[i]); }
  }

  lemma FindsOwnKey(s: Slots, i: nat)
    requires Keyed(s) && i < |s|
    ensures Find(s, HasKey(s[i].key)) == Some(i)
  {
    assert HasKey(s[i].key)(s[i]);
  }

  predicate OneChanged(s: Slots, t: Slots, i: nat, p: RulePack) {
    i < |s| && |t| == |s| && t[i] == s[i].(pack := p) && forall j :: 0 <= j < |s| && j != i ==> t[j] == s[j]
  }

  /** Only a draft with valid rules is published. */
  lemma Publishes(s: Slots, id: string, i: nat)
    requires Locates(s, id, i)
    ensures var p, op := s[i].pack, OpPublish(id);
            && (Step(s, op).Ok? <==> p.status == "draft" && ValidRules(p.rules))
            && (Step(s, op).Ok? ==>
                  OneChanged(s, Next(s, op), i, p.(status := "published", lockVersion := p.lockVersion + 1)))
  {
    hide ValidRules, Find;
    FindsById(s, id);
    StatusesDiffer();
  }

  /** Anything but the active version is deleted, which archives it with the time. */
  lemma Deletes(s: Slots, id: string, expected: Option<int>, now: int, i: nat)
    requires Locates(s, id, i)
    ensures var p, op := s[i].pack, OpDelete(id, expected, now);
            && (Step(s, op).Ok? <==> p.status != "active" && Current(p, expected))
            && (Step(s, op).Ok? ==>
                  OneChanged(s, Next(s, op), i,
                             p.(status := "archived", deletedAt := Some(now), lockVersion := p.lockVersion + 1)))
  {
    hide Find;
    FindsById(s, id);
  }

  /** Every active version of the name is deprecated, in every region; then the target becomes active. */
  predicate Switched(s: Slots, t: Slots, target: nat, now: int) {
    && target < |s| && |t| == |s|
    && forall j :: 0 <= j < |s| ==> SwitchedAt(s, t, j, target, now)
  }

  predicate SwitchedAt(s: Slots, t: Slots, j: nat, target: nat, now: int)
    requires target < |s| && |t| == |s| && j < |s|
  {
    var p := s[j].pack;
    var stepsDown := p.name == s[target].pack.name && p.status == "active";
    var bump := if stepsDown then 1 else 0;
    t[j] == s[j].(pack :=
      if j == target then p.(status := "active", activatedAt := Some(now), lockVersion := p.lockVersion + bump + 1)
      else if stepsDown then p.(status := "deprecated", lockVersion := p.lockVersion + bump)
      else p)
  }

  lemma ActivateAtSwitches(s: Slots, name: string, target: nat, now: int)
    requires target < |s| && s[target].pack.name == name
    ensures Switched(s, ActivateAt(s, name, target, now), target, now)
  {
    forall j | 0 <= j < |s| ensures SwitchedAt(s, ActivateAt(s, name, target, now), j, target, now) { }
  }

  /** A published or deprecated version is activated. */
  lemma Activates(s: Slots, id: string, expected: Option<int>, now: int, i: nat)
    requires Keyed(s) && Locates(s, id, i)
    ensures var p, op := s[i].pack, OpActivate(id, expected, now);
            && (Step(s, op).Ok? <==> (p.status == "published" || p.status == "deprecated") && Current(p, expected))
            && (Step(s, op).Ok? ==> Switched(s, Next(s, op), i, now))
  {
    hide Find, ActivateAt, Switched;
    FindsById(s, id);
    FindsOwnKey(s, i);
    StatusesDiffer();
    ActivateAtSwitches(s, s[i].pack.name, i, now);
  }

  /** From a version with a stored parent the parent is activated, whatever its status; the lock version expected is
      that of the version left. */
  lemma RollsBackTo(s: Slots, i: nat, expected: Option<int>, now: int)
    requires Keyed(s) && i < |s|
    ensures var p, op := s[i].pack, OpRollback(s[i].pack.name, s[i].pack.version, expected, now);
            && (Step(s, op).Ok? <==>
                  p.parentVersion.Some? && Current(p, expected)
                    && exists k :: 0 <= k < |s| && s[k].key == Key(p.name, p.parentVersion.value))
            && (Step(s, op).Ok? ==>
                  exists k :: 0 <= k < |s| && s[k].key == Key(p.name, p.parentVersion.value)
                              && Switched(s, Next(s, op), k, now))
  {
    hide Find, ActivateAt, Switched;
    FindsOwnKey(s, i);
    var p := s[i].pack;
    if p.parentVersion.Some? {
      var key := Key(p.name, p.parentVersion.value);
      if Find(s, HasKey(key)).Some? {
        var k := Find(s, HasKey(key)).value;
        assert HasKey(key)(s[k]);
        ActivateAtSwitches(s, p.name, k, now);
      } else {
        assert forall k :: 0 <= k < |s| ==> !HasKey(key)(s[k]);
      }
    }
  }

  /** An import document says, under its own keys, what is read from it; without rules it has none. */
  lemma DocumentReads(d: Object, x: Document)
    requires ReadDocument(d) == Done(x)
    ensures "name" in d && d["name"] == Str(x.name)
    ensures Get(d, "version") == FromNumber(x.requested) && Get(d, "region") == FromText(x.region)
    ensures Get(d, "tenantId") == FromText(x.tenantId)
    ensures if "rules" in d then d["rules"].List? && RulesFromJson(d["rules"].items) == Done(x.rules) else x.rules == []
  {
    hide RulesFromJson;
    assert RulesFromJson([]) == Done([]) by { NoRulesRead(); }
  }

  lemma NoRulesRead()
    ensures RulesFromJson([]) == Done([])
  {
  }

  /** The version asked for, if it is neither missing nor 0, and otherwise the one after the highest of the name. */
  predicate ImportedAs(s: Slots, x: Document, version: int) {
    if x.requested.Some? && x.requested.value != 0 then version == x.requested.value
    else if Latest(s, x.name).Some? then version == Latest(s, x.name).value + 1
    else version == 1
  }

  /** An import succeeds exactly when its document can be read and no pack has the version asked for; then one draft is
      added, with what the document says and the highest version of the name as its parent. */
  lemma Imports(s: Slots, document: Object, actor: string, freshId: string, now: int)
    requires Inv(s)
    ensures var op := OpImport(document, actor, freshId, now);
            && (Step(s, op).Ok? <==>
                  && ReadDocument(document).Done?
                  && (var x := ReadDocument(document).value;
                      x.requested.None?
                        || forall i :: 0 <= i < |s| ==> s[i].key != Key(x.name, x.requested.value)))
            && (Step(s, op).Ok? ==>
                  var x := ReadDocument(document).value; var t := Next(s, op);
                  && |t| == |s| + 1 && t[..|s|] == s
                  && (var p := t[|s|].pack;
                      && p.name == x.name && p.region == x.region && p.rules == x.rules && p.tenantId == x.tenantId
                      && p.status == "draft" && p.createdBy == actor && p.lockVersion == 1
                      && p.parentVersion == Latest(s, x.name) && ImportedAs(s, x, p.version)
                      && p.id == Some(freshId) && p.createdAt == Some(now)
                      && t[|s|].key == Key(p.name, p.version)))
  {
    hide ReadDocument, Save, Latest, Inv;
    InvParts(s);
    if ReadDocument(document).Done? {
      var x := ReadDocument(document).value;
      var latest := Latest(s, x.name);
      var version := ImportVersion(x.requested, latest);
      if x.requested.Some? { KeyFound(s, Key(x.name, x.requested.value)); }
      if !(x.requested.Some? && x.requested.value != 0) { NewVersionIsNew(s, x.name, version); }
      if Step(s, OpImport(document, actor, freshId, now)).Ok? {
        SaveNew(s, NewPack(x.name, version, x.region, x.rules, x.tenantId, actor, latest), freshId, now);
      }
    }
  }

  lemma KeyFound(s: Slots, key: Key)
    ensures Find(s, HasKey(key)).Some? <==> exists i :: 0 <= i < |s| && s[i].key == key
  {
    var r := Find(s, HasKey(key));
    if r.Some? { assert HasKey(key)(s[r.value]); }
    if i :| 0 <= i < |s| && s[i].key == key { assert HasKey(key)(s[i]); }
  }

  /** By name, then by version, then by when the slot was made. */
  ghost predicate ListedBefore(s: Slots, i: nat, j: nat)
    requires i < |s| && j < |s|
  {
    var p, q := s[i].pack, s[j].pack;
    || Precedes(p.name, q.name)
    || (p.name == q.name && (p.version < q.version || (p.version == q.version && i < j)))
  }

  lemma ListingOrder(s: Slots, a: nat, b: nat)
    requires a < b < |ListAll(s)|
    ensures ListedBefore(s, ListAll(s)[a], ListAll(s)[b])
  {
    hide ListAll, Precedes, StrLess;
    ListAllIsSorted(s);
    var i, j := ListAll(s)[a], ListAll(s)[b];
    assert Ahead(s, i, j);
    StrLessPrecedes(s[i].pack.name, s[j].pack.name);
    StrLessTotal(s[i].pack.name, s[j].pack.name);
  }
}
