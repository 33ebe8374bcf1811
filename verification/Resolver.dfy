/** ConflictResolver: suppressor pass, conflict groups, typed merge, floors and bumps, mitigations. */
module Resolver {
  import opened Common
  import opened Values
  import opened Engine
  import opened Rules

  const FLOOR := "priorityFloor"
  const BUMP := "priorityBumpOneLevel"
  const PRIORITY := "priority"
  const TARGET_SLA := "targetSLA"

  predicate IsModifier(field: string) { field == FLOOR || field == BUMP }

  datatype Reason = Overridden | SuppressedBy(winner: string) | LostTo(winner: string)
  datatype Suppression = Suppression(code: string, field: string, reason: Reason)

  /** What the passes leave for one field: its value, if any, and the entries they log. */
  datatype Resolution = Resolution(value: Option<Value>, log: seq<Suppression>)

  // ------------------------------------------------------------------ values

  function SeverityIndex(v: Value): (i: Option<nat>)
    ensures i.Some? ==> i.value < 4
  {
    if v == Str("Low") then Some(0)
    else if v == Str("Medium") then Some(1)
    else if v == Str("High") then Some(2)
    else if v == Str("Critical") then Some(3)
    else None
  }

  function SeverityName(i: nat): Value
    requires i < 4
    ensures SeverityIndex(SeverityName(i)) == Some(i)
  {
    Str(if i == 0 then "Low" else if i == 1 then "Medium" else if i == 2 then "High" else "Critical")
  }

  function SeverityRank(v: Value): int { if SeverityIndex(v).Some? then SeverityIndex(v).value else -1 }

  /** _parse_duration_minutes; None where it raises. */
  function DurationMinutes(v: Value): Option<int> {
    if !v.Str? then None
    else
      match ParseInt(Word(TrimLeft(Lower(v.s))))
      case None => None
      case Some(n) => Some(if Contains(Lower(v.s), "hour") then n * 60 else n)
  }

  // ------------------------------------------------------------ orders used

  function Writes(field: string): Rule -> bool { (r: Rule) => field in r.actions }

  predicate SuppressorBeats(a: Rule, b: Rule) { a.isSuppressor && (!b.isSuppressor || a.weight > b.weight) }

  predicate WeightBeats(a: Rule, b: Rule) { a.weight > b.weight }

  function SpecificityOr0(r: Rule): nat {
    match Specificity(r.conditions) case Some(n) => n case None => 0
  }

  /** Heavier, then more specific, then the smaller rule code. */
  predicate GroupBeats(a: Rule, b: Rule) {
    a.weight > b.weight
    || (a.weight == b.weight
        && (SpecificityOr0(a) > SpecificityOr0(b)
            || (SpecificityOr0(a) == SpecificityOr0(b) && StrLess(a.code, b.code))))
  }

  function SeverityBeats(field: string): (Rule, Rule) -> bool {
    (a: Rule, b: Rule) => SeverityRank(Get(a.actions, field)) > SeverityRank(Get(b.actions, field))
  }

  function MinutesOr0(v: Value): int { match DurationMinutes(v) case Some(n) => n case None => 0 }

  function ShorterBeats(field: string): (Rule, Rule) -> bool {
    (a: Rule, b: Rule) => MinutesOr0(Get(a.actions, field)) < MinutesOr0(Get(b.actions, field))
  }

  lemma GroupBeatsIsWeakOrder()
    ensures WeakOrder(GroupBeats)
  {
    forall a, b ensures GroupBeats(a, b) ==> !GroupBeats(b, a) {
      StrLessTotal(a.code, b.code);
    }
    forall a, b, c ensures GroupBeats(a, b) ==> GroupBeats(a, c) || GroupBeats(c, b) {
      StrLessTotal(a.code, c.code);
      StrLessTotal(c.code, b.code);
      if StrLess(c.code, a.code) && StrLess(a.code, b.code) { StrLessTransitive(c.code, a.code, b.code); }
    }
  }

  lemma OrdersAreWeak(field: string)
    ensures WeakOrder(SuppressorBeats) && WeakOrder(WeightBeats)
    ensures WeakOrder(SeverityBeats(field)) && WeakOrder(ShorterBeats(field))
  {
  }

  // ---------------------------------------------------------------- one field

  predicate HasSuppressor(ws: seq<Rule>) { exists r :: r in ws && r.isSuppressor }

  predicate HasShield(ws: seq<Rule>) { exists r :: r in ws && r.nonSuppressible }

  predicate Agree(field: string, ws: seq<Rule>) {
    ws != [] && forall r :: r in ws ==> PyEq(Get(r.actions, field), Get(ws[0].actions, field))
  }

  predicate OneGroup(ws: seq<Rule>) {
    ws != [] && ws[0].conflictGroup.Some? && forall r :: r in ws ==> r.conflictGroup == ws[0].conflictGroup
  }

  predicate Heaviest(r: Rule, ws: seq<Rule>) { forall o :: o in ws ==> o.weight <= r.weight }

  /** The specificity tiebreak runs, on a condition tree it cannot count. */
  predicate GroupFails(ws: seq<Rule>) {
    && (exists i, j :: 0 <= i < j < |ws| && Heaviest(ws[i], ws) && Heaviest(ws[j], ws))
    && exists r :: r in ws && Heaviest(r, ws) && Specificity(r.conditions).None?
  }

  function Entry(field: string, reason: Reason): Rule -> Suppression {
    (r: Rule) => Suppression(r.code, field, reason)
  }

  function Suppressor(): Rule -> bool { (r: Rule) => r.isSuppressor }

  function Ordinary(): Rule -> bool { (r: Rule) => !r.isSuppressor }

  /** _merge_field; it raises on an unhashable priority and on a duration it cannot parse. */
  function MergeField(field: string, ws: seq<Rule>): Try<Value>
    requires ws != []
  {
    if field == PRIORITY then
      if exists r :: r in ws && !Hashable(Get(r.actions, field)) then Raised
      else Done(Get(ws[ArgBest(ws, SeverityBeats(field))].actions, field))
    else if field == TARGET_SLA || field == "slaTarget" then
      if exists r :: r in ws && DurationMinutes(Get(r.actions, field)).None? then Raised
      else Done(Get(ws[ArgBest(ws, ShorterBeats(field))].actions, field))
    else if forall r :: r in ws ==> Get(r.actions, field).Bool? then
      Done(Bool(exists r :: r in ws && Get(r.actions, field) == Bool(true)))
    else Done(Get(ws[ArgBest(ws, WeightBeats)].actions, field))
  }

  /** The branches of `resolve` after the suppressor pass. */
  function Settle(field: string, ws: seq<Rule>): Try<Resolution> {
    if ws == [] then Done(Resolution(None, []))
    else if |ws| == 1 || Agree(field, ws) then Done(Resolution(Some(Get(ws[0].actions, field)), []))
    else if OneGroup(ws) then
      if GroupFails(ws) then Raised
      else
        var w := ArgBest(ws, GroupBeats);
        Done(Resolution(Some(Get(ws[w].actions, field)), Map(Entry(field, LostTo(ws[w].code)), Without(ws, w))))
    else
      match MergeField(field, ws)
      case Raised => Raised
      case Done(v) => Done(Resolution(Some(v), []))
  }

  /** _apply_suppression: the effective writers and what it logs. */
  function Suppress(field: string, ws: seq<Rule>): (seq<Rule>, seq<Suppression>) {
    if !HasSuppressor(ws) then (ws, [])
    else if HasShield(ws) then (Filter(Ordinary(), ws), Map(Entry(field, Overridden), Filter(Suppressor(), ws)))
    else
      var w := ArgBest(ws, SuppressorBeats);
      ([ws[w]], Map(Entry(field, SuppressedBy(ws[w].code)), Without(ws, w)))
  }

  /** Everything `resolve` does for one field, given that field's writers in match order. */
  function ResolveField(field: string, ws: seq<Rule>): Try<Resolution> {
    var (effective, log) := Suppress(field, ws);
    match Settle(field, effective)
    case Raised => Raised
    case Done(r) => Done(Resolution(r.value, log + r.log))
  }

  // --------------------------------------------------------------- all fields

  function Fields(matched: seq<Rule>): set<string> {
    set r, f | r in matched && f in r.actions && !IsModifier(f) :: f
  }

  function Writers(field: string, matched: seq<Rule>): seq<Rule> { Filter(Writes(field), matched) }

  function FieldResult(field: string, matched: seq<Rule>): Try<Resolution> {
    ResolveField(field, Writers(field, matched))
  }

  predicate ResolveFails(matched: seq<Rule>) {
    exists f :: f in Fields(matched) && FieldResult(f, matched).Raised?
  }

  /** The merged actions before floors and bumps. */
  function Merged(matched: seq<Rule>): Object
    requires !ResolveFails(matched)
  {
    map f | f in Fields(matched) && FieldResult(f, matched).value.value.Some? ::
      FieldResult(f, matched).value.value.value
  }

  /** The suppression log, grouped by field; fields that logged nothing are absent. */
  function LogOf(matched: seq<Rule>): map<string, seq<Suppression>>
    requires !ResolveFails(matched)
  {
    map f | f in Fields(matched) && FieldResult(f, matched).value.log != [] :: FieldResult(f, matched).value.log
  }

  // --------------------------------------------------------- floors and bumps

  function FloorAt(i: nat): Rule -> bool {
    (r: Rule) => FLOOR in r.actions && SeverityIndex(r.actions[FLOOR]) == Some(i)
  }

  function Bumps(): Rule -> bool { (r: Rule) => Truthy(Get(r.actions, BUMP)) }

  predicate HasFloor(matched: seq<Rule>) { exists r :: r in matched && FLOOR in r.actions }

  predicate HasFloorAt(matched: seq<Rule>, i: nat) { exists r :: r in matched && FloorAt(i)(r) }

  /** The highest known floor. */
  function TopFloor(matched: seq<Rule>): (top: Option<nat>)
    ensures top.Some? ==> top.value < 4
  {
    if HasFloorAt(matched, 3) then Some(3)
    else if HasFloorAt(matched, 2) then Some(2)
    else if HasFloorAt(matched, 1) then Some(1)
    else if HasFloorAt(matched, 0) then Some(0)
    else None
  }

  function Min(a: int, b: int): int { if a < b then a else b }

  /** `order.index(current)` after raising it to the floor; None where a ValueError escapes. */
  function Floored(current: Value, matched: seq<Rule>): Option<Value> {
    if !HasFloor(matched) then Some(current)
    else
      match (TopFloor(matched), SeverityIndex(current))
      case (Some(floor), Some(i)) => Some(if i < floor then SeverityName(floor) else current)
      case _ => None
  }

  function Bumped(current: Value, bumps: nat): Option<Value> {
    if bumps == 0 then Some(current)
    else
      match SeverityIndex(current)
      case Some(i) => Some(SeverityName(Min(i + bumps, 3)))
      case None => None
  }

  /** _apply_priority_postprocessing */
  function Postprocess(actions: Object, matched: seq<Rule>): Try<Object> {
    var found := Get(actions, PRIORITY);
    var current := if found.Null? && HasFloor(matched) then Str("Low") else found;
    if current.Null? then Done(actions)
    else
      match Floored(current, matched)
      case None => Raised
      case Some(floored) =>
        match Bumped(floored, |Filter(Bumps(), matched)|)
        case None => Raised
        case Some(final) => Done(actions[PRIORITY := final])
  }

  // -------------------------------------------------------------- mitigations

  function Mitigates(key: string): Rule -> bool { (r: Rule) => key in r.mitigations }

  /** Later booleans are or-ed in; later non-booleans are ignored. */
  function Mitigation(acc: Value, rs: seq<Rule>, key: string): Value
    decreases |rs|
  {
    if rs == [] then acc
    else
      var v := Get(rs[0].mitigations, key);
      Mitigation(if v.Bool? && !Truthy(acc) then v else acc, rs[1..], key)
  }

  function MitigationKeys(matched: seq<Rule>): set<string> {
    set r, k | r in matched && k in r.mitigations :: k
  }

  function MitigationValue(key: string, matched: seq<Rule>): Value {
    var rs := Filter(Mitigates(key), matched);
    if rs == [] then Null else Mitigation(Get(rs[0].mitigations, key), rs[1..], key)
  }

  function Mitigations(matched: seq<Rule>): Object {
    map k | k in MitigationKeys(matched) :: MitigationValue(k, matched)
  }

  // ------------------------------------------------------------------ resolve

  datatype Resolved = Resolved(actions: Object, mitigations: Object, log: map<string, seq<Suppression>>)

  /** ConflictResolver.resolve */
  function Resolve(matched: seq<Rule>): Try<Resolved> {
    if ResolveFails(matched) then Raised
    else
      match Postprocess(Merged(matched), matched)
      case Raised => Raised
      case Done(actions) => Done(Resolved(actions, Mitigations(matched), LogOf(matched)))
  }

  // ------------------------------------------------------------- the loops

  /** _apply_suppression appends to `suppressed` and returns the effective writers. */
  method ApplySuppression(field: string, writers: seq<Rule>, suppressed: seq<Suppression>)
    returns (effective: seq<Rule>, log: seq<Suppression>)
    ensures effective == Suppress(field, writers).0
    ensures log == suppressed + Suppress(field, writers).1
  {
    FilterMembers(Suppressor(), writers);
    var suppressors := Filter(Suppressor(), writers);
    log := suppressed;
    if suppressors == [] {
      assert !HasSuppressor(writers);
      return writers, log;
    }
    assert suppressors[0] in suppressors;
    if exists r :: r in writers && r.nonSuppressible {
      for i := 0 to |suppressors|
        invariant log == suppressed + Map(Entry(field, Overridden), suppressors[..i])
      {
        LogStep(Entry(field, Overridden), suppressors, i);
        log := log + [Suppression(suppressors[i].code, field, Overridden)];
      }
      assert suppressors[..|suppressors|] == suppressors;
      return Filter(Ordinary(), writers), log;
    }
    var w := ArgBest(writers, SuppressorBeats);
    log := LogOthers(Entry(field, SuppressedBy(writers[w].code)), writers, w, log);
    effective := [writers[w]];
  }

  lemma LogStep(entry: Rule -> Suppression, rs: seq<Rule>, i: nat)
    requires i < |rs|
    ensures Map(entry, rs[..i + 1]) == Map(entry, rs[..i]) + [entry(rs[i])]
  {
  }

  ghost function Others(rs: seq<Rule>, w: nat, i: nat): seq<Rule>
    requires w < |rs| && i <= |rs|
  {
    if i <= w then rs[..i] else rs[..w] + rs[w + 1..i]
  }

  lemma OthersStep(entry: Rule -> Suppression, rs: seq<Rule>, w: nat, i: nat)
    requires w < |rs| && i < |rs|
    ensures Map(entry, Others(rs, w, i + 1)) == Map(entry, Others(rs, w, i)) + if i != w then [entry(rs[i])] else []
  {
    if i == w {
      assert Others(rs, w, i + 1) == Others(rs, w, i);
    } else {
      assert Others(rs, w, i + 1) == Others(rs, w, i) + [rs[i]];
      MapAppend(entry, Others(rs, w, i), [rs[i]]);
    }
  }

  /** The two `for r in ...: if r is not winner: suppressed.append(...)` loops. */
  method LogOthers(entry: Rule -> Suppression, rs: seq<Rule>, w: nat, suppressed: seq<Suppression>)
    returns (log: seq<Suppression>)
    requires w < |rs|
    ensures log == suppressed + Map(entry, Without(rs, w))
  {
    hide Others;
    log := suppressed;
    assert Map(entry, Others(rs, w, 0)) == [] by { OthersEnds(rs, w); }
    for i := 0 to |rs|
      invariant log == suppressed + Map(entry, Others(rs, w, i))
    {
      OthersStep(entry, rs, w, i);
      if i != w {
        log := log + [entry(rs[i])];
      }
    }
    OthersEnds(rs, w);
  }

  lemma OthersEnds(rs: seq<Rule>, w: nat)
    requires w < |rs|
    ensures Others(rs, w, 0) == [] && Others(rs, w, |rs|) == Without(rs, w)
  {
    assert rs[w + 1..|rs|] == rs[w + 1..];
  }

  ghost predicate PositionsOf(rs: seq<Rule>, ok: Rule -> bool, top: seq<nat>) {
    && (forall k :: 0 <= k < |top| ==> top[k] < |rs| && ok(rs[top[k]]))
    && (forall i :: 0 <= i < |rs| && ok(rs[i]) ==> i in top)
    && (forall k, l :: 0 <= k < l < |top| ==> top[k] < top[l])
  }

  /** `[r for r in rs if ok(r)]`, keeping positions so that `is not` can be told from `!=`. */
  method Positions(rs: seq<Rule>, ok: Rule -> bool) returns (top: seq<nat>)
    ensures PositionsOf(rs, ok, top)
  {
    top := [];
    for i := 0 to |rs|
      invariant forall k :: 0 <= k < |top| ==> top[k] < i && ok(rs[top[k]])
      invariant forall j :: 0 <= j < i && ok(rs[j]) ==> j in top
      invariant forall k, l :: 0 <= k < l < |top| ==> top[k] < top[l]
    {
      if ok(rs[i]) { top := top + [i]; }
    }
  }

  /** `sorted(top, key=lambda r: r.rule_code)[0]` */
  method SmallestCode(rs: seq<Rule>, top: seq<nat>) returns (w: nat)
    requires top != [] && forall k :: 0 <= k < |top| ==> top[k] < |rs|
    requires forall k, l :: 0 <= k < l < |top| ==> top[k] < top[l]
    ensures w in top
    ensures forall k :: 0 <= k < |top| ==> !StrLess(rs[top[k]].code, rs[w].code)
    ensures forall k :: 0 <= k < |top| && top[k] < w ==> StrLess(rs[w].code, rs[top[k]].code)
  {
    var m := 0;
    StrLessTotal(rs[top[0]].code, rs[top[0]].code);
    for i := 1 to |top|
      invariant 0 <= m < i
      invariant forall k :: 0 <= k < i ==> !StrLess(rs[top[k]].code, rs[top[m]].code)
      invariant forall k :: 0 <= k < m ==> StrLess(rs[top[m]].code, rs[top[k]].code)
    {
      StrLessTotal(rs[top[i]].code, rs[top[m]].code);
      if StrLess(rs[top[i]].code, rs[top[m]].code) {
        forall k | 0 <= k < i ensures StrLess(rs[top[i]].code, rs[top[k]].code) {
          StrLessTotal(rs[top[k]].code, rs[top[m]].code);
          if StrLess(rs[top[m]].code, rs[top[k]].code) {
            StrLessTransitive(rs[top[i]].code, rs[top[m]].code, rs[top[k]].code);
          }
        }
        forall k | 0 <= k <= i ensures !StrLess(rs[top[k]].code, rs[top[i]].code) {
          StrLessTotal(rs[top[k]].code, rs[top[i]].code);
        }
        m := i;
      }
    }
    w := top[m];
    forall k | 0 <= k < |top| && top[k] < w ensures StrLess(rs[w].code, rs[top[k]].code) {
      assert k < m;
    }
  }

  lemma GroupWinner(cs: seq<Rule>, maxWeight: int, best: nat, w: nat)
    requires w < |cs| && cs[w].weight == maxWeight && SpecificityOr0(cs[w]) == best
    requires forall j :: 0 <= j < |cs| ==> cs[j].weight <= maxWeight
    requires forall j :: 0 <= j < |cs| && cs[j].weight == maxWeight ==> SpecificityOr0(cs[j]) <= best
    requires forall j :: 0 <= j < |cs| && cs[j].weight == maxWeight && SpecificityOr0(cs[j]) == best ==>
               !StrLess(cs[j].code, cs[w].code) && (j < w ==> StrLess(cs[w].code, cs[j].code))
    ensures w == ArgBest(cs, GroupBeats)
  {
    hide SpecificityOr0;
    GroupBeatsIsWeakOrder();
    ArgBestIsFirst(cs, GroupBeats);
    assert FirstBest(cs, GroupBeats, w);
    FirstBestUnique(cs, GroupBeats, w, ArgBest(cs, GroupBeats));
  }

  /** The specificity scan over the heaviest candidates; Raised on a tree it cannot count. */
  method BestSpecificity(rs: seq<Rule>, top: seq<nat>) returns (best: Try<nat>)
    requires top != [] && forall k :: 0 <= k < |top| ==> top[k] < |rs|
    ensures best.Raised? <==> exists k :: 0 <= k < |top| && Specificity(rs[top[k]].conditions).None?
    ensures best.Done? ==> forall k :: 0 <= k < |top| ==> SpecificityOr0(rs[top[k]]) <= best.value
    ensures best.Done? ==> exists k :: 0 <= k < |top| && SpecificityOr0(rs[top[k]]) == best.value
  {
    hide Specificity;
    var n := 0;
    for i := 0 to |top|
      invariant forall j :: 0 <= j < i ==> Specificity(rs[top[j]].conditions).Some?
      invariant forall j :: 0 <= j < i ==> SpecificityOr0(rs[top[j]]) <= n
      invariant i > 0 ==> exists j :: 0 <= j < i && SpecificityOr0(rs[top[j]]) == n
    {
      match Specificity(rs[top[i]].conditions) {
        case None => return Raised;
        case Some(s) => if i == 0 || s > n { n := s; }
      }
    }
    best := Done(n);
  }

  method HeaviestWeight(rs: seq<Rule>) returns (weight: int)
    requires rs != []
    ensures exists j :: 0 <= j < |rs| && rs[j].weight == weight
    ensures forall j :: 0 <= j < |rs| ==> rs[j].weight <= weight
  {
    weight := rs[0].weight;
    for i := 1 to |rs|
      invariant exists j :: 0 <= j < i && rs[j].weight == weight
      invariant forall j :: 0 <= j < i ==> rs[j].weight <= weight
    {
      if rs[i].weight > weight { weight := rs[i].weight; }
    }
  }

  function WeightIs(weight: int): Rule -> bool { (r: Rule) => r.weight == weight }

  function Finest(weight: int, best: nat): Rule -> bool {
    (r: Rule) => r.weight == weight && SpecificityOr0(r) == best
  }

  /** The tiebreak raises exactly when it runs over a heaviest candidate it cannot count. */
  lemma TiebreakFails(cs: seq<Rule>, weight: int, top: seq<nat>)
    requires top != [] && PositionsOf(cs, WeightIs(weight), top)
    requires forall j :: 0 <= j < |cs| ==> cs[j].weight <= weight
    ensures GroupFails(cs) <==> |top| > 1 && exists k :: 0 <= k < |top| && Specificity(cs[top[k]].conditions).None?
  {
    hide Specificity, Heaviest, PositionsOf;
    HeaviestPositions(cs, weight, top);
    TwoAtTop(cs, top);
    UncountableAtTop(cs, top);
  }

  lemma HeaviestPositions(cs: seq<Rule>, weight: int, top: seq<nat>)
    requires top != [] && PositionsOf(cs, WeightIs(weight), top)
    requires forall j :: 0 <= j < |cs| ==> cs[j].weight <= weight
    ensures forall i: nat :: i in top <==> i < |cs| && Heaviest(cs[i], cs)
    ensures forall k, l :: 0 <= k < l < |top| ==> top[k] < top[l]
    ensures forall k :: 0 <= k < |top| ==> top[k] < |cs|
  {
    assert top[0] in top && cs[top[0]] in cs && cs[top[0]].weight == weight;
    forall i: nat | i < |cs| ensures Heaviest(cs[i], cs) <==> cs[i].weight == weight { }
  }

  lemma TwoAtTop(cs: seq<Rule>, top: seq<nat>)
    requires forall i: nat :: i in top <==> i < |cs| && Heaviest(cs[i], cs)
    requires forall k, l :: 0 <= k < l < |top| ==> top[k] < top[l]
    ensures (exists i, j :: 0 <= i < j < |cs| && Heaviest(cs[i], cs) && Heaviest(cs[j], cs)) <==> |top| > 1
  {
    hide Heaviest;
    if |top| > 1 { assert top[0] in top && top[1] in top && top[0] < top[1]; }
    if i, j :| 0 <= i < j < |cs| && Heaviest(cs[i], cs) && Heaviest(cs[j], cs) { assert i in top && j in top; }
  }

  lemma UncountableAtTop(cs: seq<Rule>, top: seq<nat>)
    requires forall i: nat :: i in top <==> i < |cs| && Heaviest(cs[i], cs)
    requires forall k :: 0 <= k < |top| ==> top[k] < |cs|
    ensures (exists r :: r in cs && Heaviest(r, cs) && Specificity(r.conditions).None?) <==>
            exists k :: 0 <= k < |top| && Specificity(cs[top[k]].conditions).None?
  {
    hide Heaviest, Specificity;
    if k :| 0 <= k < |top| && Specificity(cs[top[k]].conditions).None? {
      assert top[k] in top;
      assert cs[top[k]] in cs && Heaviest(cs[top[k]], cs);
    }
    if r :| r in cs && Heaviest(r, cs) && Specificity(r.conditions).None? {
      var m :| 0 <= m < |cs| && cs[m] == r;
      assert m in top;
      var k :| 0 <= k < |top| && top[k] == m;
    }
  }

  /** The conflict group's tiebreak, found pass by pass; Raised when a specificity cannot be counted. */
  method GroupWinnerPosition(cs: seq<Rule>) returns (w: Try<nat>)
    requires cs != []
    ensures w == if GroupFails(cs) then Raised else Done(ArgBest(cs, GroupBeats))
  {
    hide Specificity, SpecificityOr0, StrLess, GroupBeats, GroupFails;
    var weight := HeaviestWeight(cs);
    var top := Positions(cs, WeightIs(weight));
    assert top != [];
    TiebreakFails(cs, weight, top);
    var best := SpecificityOr0(cs[top[0]]);
    var finest := top;
    if |top| > 1 {
      var scanned := BestSpecificity(cs, top);
      if scanned.Raised? {
        return Raised;
      }
      best := scanned.value;
      finest := Positions(cs, Finest(weight, best));
    }
    assert PositionsOf(cs, Finest(weight, best), finest);
    assert finest != [];
    var first := SmallestCode(cs, finest);
    GroupWinner(cs, weight, best, first);
    w := Done(first);
  }

  /** _resolve_conflict_group */
  method ResolveConflictGroup(field: string, candidates: seq<Rule>, suppressed: seq<Suppression>)
    returns (result: Try<(Rule, seq<Suppression>)>)
    requires candidates != []
    ensures result == if GroupFails(candidates) then Raised else
                        var w := ArgBest(candidates, GroupBeats);
                        Done((candidates[w], suppressed + Map(Entry(field, LostTo(candidates[w].code)),
                          Without(candidates, w))))
  {
    var winner := GroupWinnerPosition(candidates);
    if winner.Raised? { return Raised; }
    var w := winner.value;
    var log := LogOthers(Entry(field, LostTo(candidates[w].code)), candidates, w, suppressed);
    result := Done((candidates[w], log));
  }

  /** `top` is the highest known floor among `rs`. */
  ghost predicate IsTop(rs: seq<Rule>, top: Option<nat>) {
    && (top.Some? ==> HasFloorAt(rs, top.value))
    && (forall r :: r in rs && FLOOR in r.actions && SeverityIndex(r.actions[FLOOR]).Some? ==>
          top.Some? && SeverityIndex(r.actions[FLOOR]).value <= top.value)
  }

  /** What the highest known floor becomes with one more rule. */
  function Higher(top: Option<nat>, r: Rule): Option<nat> {
    if FLOOR !in r.actions then top
    else
      match SeverityIndex(r.actions[FLOOR])
      case Some(f) => if top.None? || f > top.value then Some(f) else top
      case None => top
  }

  lemma TopStep(rs: seq<Rule>, r: Rule, top: Option<nat>)
    requires IsTop(rs, top)
    ensures IsTop(rs + [r], Higher(top, r))
  {
    hide SeverityIndex;
    var all := rs + [r];
    if Higher(top, r) != top {
      assert r in all && FloorAt(SeverityIndex(r.actions[FLOOR]).value)(r);
    } else if top.Some? {
      var x :| x in rs && FloorAt(top.value)(x);
      assert x in all;
    }
  }

  lemma FloorStep(rs: seq<Rule>, r: Rule)
    ensures HasFloor(rs + [r]) == (HasFloor(rs) || FLOOR in r.actions)
  {
    if x :| x in rs && FLOOR in x.actions { assert x in rs + [r]; }
    if FLOOR in r.actions { assert r in rs + [r]; }
  }

  lemma TopFloorIs(matched: seq<Rule>, top: Option<nat>)
    requires IsTop(matched, top)
    ensures TopFloor(matched) == top
  {
    if top.None? {
      forall i: nat ensures !HasFloorAt(matched, i) { }
    } else {
      var r :| r in matched && FloorAt(top.value)(r);
      assert top.value < 4;
      forall i: nat | top.value < i ensures !HasFloorAt(matched, i) { }
    }
  }

  /** The list of floors, the highest known one, and the number of bumps, in one scan. */
  method ScanModifiers(matched: seq<Rule>) returns (anyFloor: bool, top: Option<nat>, bumps: nat)
    ensures anyFloor == HasFloor(matched) && top == TopFloor(matched) && bumps == |Filter(Bumps(), matched)|
  {
    hide SeverityIndex, Truthy, HasFloor, IsTop, TopFloor, Filter;
    anyFloor, top, bumps := false, None, 0;
    ScanStart();
    for i := 0 to |matched|
      invariant anyFloor == HasFloor(matched[..i])
      invariant bumps == |Filter(Bumps(), matched[..i])|
      invariant IsTop(matched[..i], top)
    {
      var r := matched[i];
      FilterStep(Bumps(), matched, i);
      assert matched[..i + 1] == matched[..i] + [r];
      TopStep(matched[..i], r, top);
      FloorStep(matched[..i], r);
      if FLOOR in r.actions {
        anyFloor := true;
        match SeverityIndex(r.actions[FLOOR]) {
          case Some(f) => if top.None? || f > top.value { top := Some(f); }
          case None =>
        }
      }
      if Truthy(Get(r.actions, BUMP)) { bumps := bumps + 1; }
    }
    assert matched[..|matched|] == matched;
    TopFloorIs(matched, top);
  }

  lemma ScanStart()
    ensures !HasFloor([]) && IsTop([], None) && Filter(Bumps(), []) == []
  {
  }

  /** _apply_priority_postprocessing */
  method ApplyPriorityPostprocessing(actions: Object, matched: seq<Rule>) returns (result: Try<Object>)
    ensures result == Postprocess(actions, matched)
  {
    hide SeverityIndex, SeverityName, HasFloor, TopFloor;
    var anyFloor, top, bumps := ScanModifiers(matched);
    var current := Get(actions, PRIORITY);
    if current.Null? && anyFloor { current := Str("Low"); }
    if current.Null? { return Done(actions); }
    if anyFloor {
      if top.None? || SeverityIndex(current).None? { return Raised; }
      if SeverityIndex(current).value < top.value {
        current := SeverityName(top.value);
      }
    }
    if bumps > 0 {
      if SeverityIndex(current).None? { return Raised; }
      current := SeverityName(Min(SeverityIndex(current).value + bumps, 3));
    }
    result := Done(actions[PRIORITY := current]);
  }

  lemma {:induction false} MitigationAppend(acc: Value, rs: seq<Rule>, r: Rule, key: string)
    ensures Mitigation(acc, rs + [r], key) == Mitigation(Mitigation(acc, rs, key), [r], key)
    decreases |rs|
  {
    if rs == [] {
      assert rs + [r] == [r];
    } else {
      var v := Get(rs[0].mitigations, key);
      assert (rs + [r])[1..] == rs[1..] + [r];
      MitigationAppend(if v.Bool? && !Truthy(acc) then v else acc, rs[1..], r, key);
    }
  }

  lemma MitigationStep(key: string, matched: seq<Rule>, i: nat)
    requires i < |matched|
    ensures key in MitigationKeys(matched[..i + 1]) <==>
            key in MitigationKeys(matched[..i]) || key in matched[i].mitigations
    ensures var v := Get(matched[i].mitigations, key);
            MitigationValue(key, matched[..i + 1]) ==
            if key !in matched[i].mitigations then MitigationValue(key, matched[..i])
            else if key !in MitigationKeys(matched[..i]) then v
            else if v.Bool? && !Truthy(MitigationValue(key, matched[..i])) then v
            else MitigationValue(key, matched[..i])
  {
    var seen := matched[..i];
    assert matched[..i + 1] == seen + [matched[i]];
    FilterStep(Mitigates(key), matched, i);
    FilterMembers(Mitigates(key), seen);
    var rs := Filter(Mitigates(key), seen);
    assert key in MitigationKeys(seen) <==> rs != [] by {
      if rs != [] { assert rs[0] in rs; }
    }
    if key in matched[i].mitigations {
      if rs == [] {
        assert Filter(Mitigates(key), matched[..i + 1]) == [matched[i]];
        assert [matched[i]][1..] == [];
      } else {
        MitigationAppend(Get(rs[0].mitigations, key), rs[1..], matched[i], key);
        assert (rs + [matched[i]])[1..] == rs[1..] + [matched[i]];
        assert [matched[i]][1..] == [];
      }
    } else {
      assert Filter(Mitigates(key), matched[..i + 1]) == rs;
    }
  }

  /** _merge_mitigations: or-ing booleans in, keeping the first of anything else. */
  method MergeMitigations(matched: seq<Rule>) returns (mitigations: Object)
    ensures mitigations == Mitigations(matched)
  {
    hide MitigationValue, MitigationKeys, Truthy;
    mitigations := map[];
    assert MitigationKeys(matched[..0]) == {} by { MitigationKeysEmpty(matched[..0]); }
    for i := 0 to |matched|
      invariant mitigations.Keys == MitigationKeys(matched[..i])
      invariant forall k :: k in mitigations ==> mitigations[k] == MitigationValue(k, matched[..i])
    {
      ghost var before := mitigations;
      var r := matched[i];
      var keys := r.mitigations.Keys;
      while keys != {}
        invariant keys <= r.mitigations.Keys
        invariant mitigations.Keys == before.Keys + (r.mitigations.Keys - keys)
        invariant forall k :: k in mitigations ==>
                    mitigations[k] == MitigationValue(k,
                      matched[..if k in r.mitigations && k !in keys then i + 1 else i])
      {
        var k :| k in keys;
        MitigationStep(k, matched, i);
        var v := r.mitigations[k];
        if k !in mitigations || (v.Bool? && !Truthy(mitigations[k])) {
          mitigations := mitigations[k := v];
        }
        keys := keys - {k};
      }
      forall k ensures k in mitigations <==> k in MitigationKeys(matched[..i + 1]) { MitigationStep(k, matched, i); }
      forall k | k in mitigations ensures mitigations[k] == MitigationValue(k, matched[..i + 1]) {
        MitigationStep(k, matched, i);
      }
    }
    assert matched[..|matched|] == matched;
  }

  lemma MitigationKeysEmpty(rs: seq<Rule>)
    requires rs == []
    ensures MitigationKeys(rs) == {}
  {
  }

  function ForField(field: string): Suppression -> bool { (s: Suppression) => s.field == field }

  lemma FieldsStep(matched: seq<Rule>, i: nat)
    requires i < |matched|
    ensures Fields(matched[..i + 1]) == Fields(matched[..i]) + (set f | f in matched[i].actions && !IsModifier(f))
  {
    assert matched[..i + 1] == matched[..i] + [matched[i]];
  }

  /** One round of the first loop of `resolve`: every non-modifier field of a rule gets it as a writer. */
  method AddWriter(before: map<string, seq<Rule>>, r: Rule) returns (writers: map<string, seq<Rule>>)
    ensures writers.Keys == before.Keys + (set f | f in r.actions && !IsModifier(f))
    ensures forall f :: f in writers ==>
              writers[f] == (if f in before then before[f] else [])
                            + (if f in r.actions && !IsModifier(f) then [r] else [])
  {
    writers := before;
    var todo := r.actions.Keys;
    while todo != {}
      invariant todo <= r.actions.Keys
      invariant writers.Keys == before.Keys + (set f | f in r.actions && !IsModifier(f) && f !in todo)
      invariant forall f :: f in writers ==>
                  writers[f] == (if f in before then before[f] else [])
                                + (if f in r.actions && !IsModifier(f) && f !in todo then [r] else [])
    {
      var f :| f in todo;
      todo := todo - {f};
      if IsModifier(f) { continue; }
      writers := writers[f := (if f in writers then writers[f] else []) + [r]];
    }
  }

  /** The first loop of `resolve`: field name to writers, in match order. */
  method CollectWriters(matched: seq<Rule>) returns (writers: map<string, seq<Rule>>)
    ensures writers.Keys == Fields(matched)
    ensures forall f :: f in writers ==> writers[f] == Writers(f, matched)
  {
    hide Fields;
    writers := map[];
    assert Fields(matched[..0]) == {} by { FieldsEmpty(matched[..0]); }
    for i := 0 to |matched|
      invariant writers.Keys == Fields(matched[..i])
      invariant forall f :: f in writers ==> !IsModifier(f) && writers[f] == Writers(f, matched[..i])
    {
      ghost var before := writers;
      FieldsStep(matched, i);
      writers := AddWriter(writers, matched[i]);
      forall f | f in writers ensures !IsModifier(f) && writers[f] == Writers(f, matched[..i + 1]) {
        FilterStep(Writes(f), matched, i);
        if f !in before { NoWriters(f, matched[..i]); }
      }
    }
    assert matched[..|matched|] == matched;
  }

  lemma FieldsEmpty(rs: seq<Rule>)
    requires rs == []
    ensures Fields(rs) == {}
  {
  }

  lemma NoWriters(field: string, rs: seq<Rule>)
    requires field !in Fields(rs) && !IsModifier(field)
    ensures Writers(field, rs) == []
  {
    FilterNone(Writes(field), rs);
  }

  lemma SuppressionFields(field: string, ws: seq<Rule>)
    requires ResolveField(field, ws).Done?
    ensures forall s :: s in ResolveField(field, ws).value.log ==> s.field == field
  {
  }

  lemma FieldEntries(log: seq<Suppression>, added: seq<Suppression>, field: string, other: string)
    requires forall s :: s in added ==> s.field == field
    ensures Filter(ForField(other), log + added) ==
            Filter(ForField(other), log) + (if other == field then added else [])
  {
    FilterAppend(ForField(other), log, added);
    if other == field {
      FilterAll(ForField(other), added);
    } else {
      FilterNone(ForField(other), added);
    }
  }

  /** One round of the second loop of `resolve`: suppressor pass, then whichever branch settles the field. */
  method ResolveOne(field: string, writers: seq<Rule>, suppressed: seq<Suppression>)
    returns (result: Try<(Option<Value>, seq<Suppression>)>)
    requires writers != []
    ensures result == match ResolveField(field, writers)
                      case Raised => Raised
                      case Done(r) => Done((r.value, suppressed + r.log))
  {
    hide GroupFails, OneGroup, Agree, HasShield, HasSuppressor, MergeField;
    var effective, log := ApplySuppression(field, writers, suppressed);
    ghost var first := Suppress(field, writers).1;
    assert forall rest :: log + rest == suppressed + (first + rest);
    assert log + [] == log;
    if effective == [] { return Done((None, log)); }
    if |effective| == 1 || Agree(field, effective) {
      return Done((Some(Get(effective[0].actions, field)), log));
    }
    if OneGroup(effective) {
      var settled := ResolveConflictGroup(field, effective, log);
      if settled.Raised? { return Raised; }
      return Done((Some(Get(settled.value.0.actions, field)), settled.value.1));
    }
    var merged := MergeField(field, effective);
    if merged.Raised? { return Raised; }
    result := Done((Some(merged.value), log));
  }

  /** The merged actions that per-field results come to. */
  function ActionsOf(results: map<string, Resolution>): Object {
    map f | f in results && results[f].value.Some? :: results[f].value.value
  }

  /** A flat log that holds, field by field, what the results logged. */
  ghost predicate Logs(results: map<string, Resolution>, suppressed: seq<Suppression>) {
    forall f :: Filter(ForField(f), suppressed) == if f in results then results[f].log else []
  }

  lemma LogOne(results: map<string, Resolution>, suppressed: seq<Suppression>, f: string, r: Resolution)
    requires Logs(results, suppressed) && f !in results
    requires forall s :: s in r.log ==> s.field == f
    ensures Logs(results[f := r], suppressed + r.log)
  {
    hide Filter, ForField;
    forall g ensures Filter(ForField(g), suppressed + r.log) ==
                     if g in results[f := r] then results[f := r][g].log else [] {
      FieldEntries(suppressed, r.log, f, g);
      assert [] + r.log == r.log;
    }
  }

  lemma FieldResultIs(field: string, matched: seq<Rule>)
    ensures FieldResult(field, matched) == ResolveField(field, Writers(field, matched))
  {
  }

  /** The second loop of `resolve`. */
  method ResolveFields(matched: seq<Rule>)
    returns (result: Try<(Object, seq<Suppression>)>, ghost results: map<string, Resolution>)
    ensures result.Raised? <==> ResolveFails(matched)
    ensures result.Done? ==> results.Keys == Fields(matched) && forall f :: f in results ==>
            FieldResult(f, matched) == Done(results[f])
    ensures result.Done? ==> result.value.0 == ActionsOf(results) && Logs(results, result.value.1)
  {
    hide FieldResult, Fields, ResolveField, Logs, Writers;
    var writers := CollectWriters(matched);
    var todo, actions, suppressed := writers.Keys, map[], [];
    results := map[];
    assert Logs(results, suppressed) by { NoLogs(); }
    while todo != {}
      invariant todo <= writers.Keys && results.Keys == writers.Keys - todo
      invariant forall f :: f in results ==> FieldResult(f, matched) == Done(results[f])
      invariant actions == ActionsOf(results) && Logs(results, suppressed)
    {
      var f :| f in todo;
      FieldResultIs(f, matched);
      WritersOfField(f, matched);
      var one := ResolveOne(f, writers[f], suppressed);
      if one.Raised? { return Raised, results; }
      ghost var r := FieldResult(f, matched).value;
      SuppressionFields(f, writers[f]);
      LogOne(results, suppressed, f, r);
      if one.value.0.Some? { actions := actions[f := one.value.0.value]; }
      suppressed := one.value.1;
      results := results[f := r];
      todo := todo - {f};
    }
    result := Done((actions, suppressed));
  }

  lemma NoLogs()
    ensures Logs(map[], [])
  {
  }

  /** ConflictResolver.resolve: whatever order the fields are visited in, the result is `Resolve`. */
  method ResolveMatched(matched: seq<Rule>)
    returns (result: Try<(Object, Object, seq<Suppression>)>)
    ensures result.Raised? <==> Resolve(matched).Raised?
    ensures result.Done? ==>
              var r := Resolve(matched).value;
              && result.value.0 == r.actions && result.value.1 == r.mitigations
              && forall f :: Filter(ForField(f), result.value.2) == if f in r.log then r.log[f] else []
  {
    hide FieldResult, Postprocess, Mitigations, Fields;
    var merged, results := ResolveFields(matched);
    if merged.Raised? { return Raised; }
    assert merged.value.0 == Merged(matched);
    var final := ApplyPriorityPostprocessing(merged.value.0, matched);
    if final.Raised? { return Raised; }
    var mitigations := MergeMitigations(matched);
    result := Done((final.value, mitigations, merged.value.1));
  }

  lemma WritersOfField(field: string, matched: seq<Rule>)
    requires field in Fields(matched)
    ensures Writers(field, matched) != []
  {
    FilterMembers(Writes(field), matched);
    var r :| r in matched && field in r.actions;
    assert r in Writers(field, matched);
  }
}
