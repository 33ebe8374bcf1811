/** Contested fields, scores and targets, said over what the rules themselves write and weigh. */
module ContestTheorems {
  import opened Common
  import opened Values
  import opened Engine
  import opened OperatorTheorems
  import opened Rules
  import opened Policy
  import opened Resolver
  import opened Pipeline
  import opened OutcomeTheorems

  // ---------------------------------------------------------------- durations

  lemma LowerAppend(a: string, b: string)
    ensures Lower(a + b) == Lower(a) + Lower(b)
  {
  }

  lemma LowerDigits(s: string)
    requires Digits(s)
    ensures Lower(s) == s
  {
  }

  lemma {:induction false} WordBefore(a: string, b: string)
    requires (forall i :: 0 <= i < |a| ==> !IsSpace(a[i])) && (b == "" || IsSpace(b[0]))
    ensures Word(a + b) == a
  {
    if a == "" {
      assert a + b == b;
    } else {
      assert (a + b)[1..] == a[1..] + b;
      WordBefore(a[1..], b);
    }
  }

  lemma DigitsHaveNoSpace(s: string)
    requires Digits(s)
    ensures forall i :: 0 <= i < |s| ==> !IsSpace(s[i])
  {
  }

  lemma LowerKeepsSpaces(s: string)
    ensures Lower(s) == "" <==> s == ""
    ensures s != "" ==> (IsSpace(Lower(s)[0]) <==> IsSpace(s[0]))
  {
  }

  lemma NothingToTrim(s: string)
    requires s != "" && !IsSpace(s[0])
    ensures TrimLeft(s) == s
  {
  }

  lemma ReadsNumber(n: nat, rest: string)
    requires rest == "" || IsSpace(rest[0])
    ensures ParseInt(Word(TrimLeft(NatText(n) + Lower(rest)))) == Some(n)
  {
    hide NatText, Word, TrimLeft, ParseInt, Digits, IsSpace, Lower, DigitsValue;
    var text := NatText(n);
    NatTextValue(n);
    IntTextParses(n);
    DigitsHaveNoSpace(text);
    LowerKeepsSpaces(rest);
    assert (text + Lower(rest))[0] == text[0];
    NothingToTrim(text + Lower(rest));
    WordBefore(text, Lower(rest));
  }

  /** No needle that starts with a letter begins among the digits. */
  lemma InsideTail(digits: string, tail: string, needle: string)
    requires Digits(digits) && needle != "" && needle[0] > '9'
    ensures HasInside(digits + tail, needle) <==> HasInside(tail, needle)
  {
    var text, d := digits + tail, |digits|;
    forall i | i >= d ensures OccursAt(text, needle, i) <==> OccursAt(tail, needle, i - d) {
      if i <= |text| - |needle| { assert text[i..i + |needle|] == tail[i - d..i - d + |needle|]; }
    }
    forall i | 0 <= i < d ensures !OccursAt(text, needle, i) {
      if i <= |text| - |needle| { assert text[i..i + |needle|][0] == digits[i]; }
    }
    if i :| OccursAt(tail, needle, i) { assert OccursAt(text, needle, i + d); }
  }

  /** A number and a unit: the number counts hours if the unit has "hour" in it, and minutes otherwise. */
  lemma DurationIs(n: nat, unit: string)
    requires unit == "" || IsSpace(unit[0])
    ensures DurationMinutes(Str(NatText(n) + unit)) == Some(if HasInside(Lower(unit), "hour") then 60 * n else n)
  {
    hide HasInside, Contains, ParseInt, Word, TrimLeft;
    NatTextValue(n);
    LowerAppend(NatText(n), unit);
    LowerDigits(NatText(n));
    ReadsNumber(n, unit);
    ContainsHasInside(NatText(n) + Lower(unit), "hour");
    InsideTail(NatText(n), Lower(unit), "hour");
  }

  function Hours(n: nat): Value { Str(NatText(n) + " hours") }

  function Minutes(n: nat): Value { Str(NatText(n) + " minutes") }

  lemma HoursAndMinutes(n: nat)
    ensures DurationMinutes(Hours(n)) == Some(60 * n) && DurationMinutes(Minutes(n)) == Some(n)
  {
    hide DurationMinutes;
    DurationIs(n, " hours");
    DurationIs(n, " minutes");
    assert Lower(" hours") == " hours" && Lower(" minutes") == " minutes";
    assert OccursAt(" hours", "hour", 1);
    assert forall i :: 0 <= i < 8 ==> " minutes"[i] != 'h';
    forall i ensures !OccursAt(" minutes", "hour", i) {
      if 0 <= i <= 4 { assert " minutes"[i..i + 4][0] == " minutes"[i]; }
    }
  }

  lemma TextsDiffer(m: nat, n: nat)
    ensures Hours(m) != Minutes(n)
  {
    var a, b := NatText(m) + " hours", NatText(n) + " minutes";
    assert a[|a| - 3] == 'u' && b[|b| - 3] == 't';
  }

  lemma AreTexts(m: nat, n: nat)
    ensures Hours(m).Str? && Minutes(n).Str?
  {
  }

  lemma TargetIsNotPriority()
    ensures TARGET_SLA != PRIORITY
  {
    assert TARGET_SLA[0] == 't' && PRIORITY[0] == 'p';
  }

  lemma BestOfTwo(a: Rule, b: Rule, beats: (Rule, Rule) -> bool)
    ensures ArgBest([a, b], beats) == if beats(b, a) then 1 else 0
  {
    assert [a, b][..1] == [a];
  }

  lemma MergesShorter(a: Rule, b: Rule)
    requires DurationMinutes(Get(a.actions, TARGET_SLA)).Some? && DurationMinutes(Get(b.actions, TARGET_SLA)).Some?
    ensures var x, y := Get(a.actions, TARGET_SLA), Get(b.actions, TARGET_SLA);
            MergeField(TARGET_SLA, [a, b]) ==
            Done(if DurationMinutes(y).value < DurationMinutes(x).value then y else x)
  {
    hide DurationMinutes, ArgBest;
    TargetIsNotPriority();
    BestOfTwo(a, b, ShorterBeats(TARGET_SLA));
  }

  /** Without suppressors a field is simply settled. */
  lemma NothingSuppressed(field: string, ws: seq<Rule>)
    requires forall r :: r in ws ==> !r.isSuppressor
    ensures ResolveField(field, ws) == Settle(field, ws)
  {
    hide Settle;
    assert !HasSuppressor(ws);
    if Settle(field, ws).Done? { assert [] + Settle(field, ws).value.log == Settle(field, ws).value.log; }
  }

  lemma ShortestOfTwo(a: Rule, b: Rule)
    requires !a.isSuppressor && !b.isSuppressor && (a.conflictGroup.None? || a.conflictGroup != b.conflictGroup)
    requires var x, y := Get(a.actions, TARGET_SLA), Get(b.actions, TARGET_SLA);
             x.Str? && y.Str? && x != y && DurationMinutes(x).Some? && DurationMinutes(y).Some?
    ensures var x, y := Get(a.actions, TARGET_SLA), Get(b.actions, TARGET_SLA);
            ResolveField(TARGET_SLA, [a, b]) ==
            Done(Resolution(Some(if DurationMinutes(y).value < DurationMinutes(x).value then y else x), []))
  {
    hide DurationMinutes, GroupBeats, ArgBest, MergeField;
    var ws := [a, b];
    MergesShorter(a, b);
    assert ws[0] in ws && ws[1] in ws;
    assert !HasSuppressor(ws) && !OneGroup(ws) && !Agree(TARGET_SLA, ws);
    NothingSuppressed(TARGET_SLA, ws);
  }

  /** Between hours and minutes the shorter time is decided on, and of equal ones the one written first. */
  lemma HoursAgainstMinutes(a: Rule, b: Rule, m: nat, n: nat)
    requires !a.isSuppressor && !b.isSuppressor && (a.conflictGroup.None? || a.conflictGroup != b.conflictGroup)
    requires Get(a.actions, TARGET_SLA) == Hours(m) && Get(b.actions, TARGET_SLA) == Minutes(n)
    ensures ResolveField(TARGET_SLA, [a, b]) == Done(Resolution(Some(if 60 * m <= n then Hours(m) else Minutes(n)), []))
    ensures ResolveField(TARGET_SLA, [b, a]) == Done(Resolution(Some(if 60 * m < n then Hours(m) else Minutes(n)), []))
  {
    hide DurationMinutes, GroupBeats, Hours, Minutes;
    HoursAndMinutes(m);
    HoursAndMinutes(n);
    TextsDiffer(m, n);
    assert Hours(m).Str? && Minutes(n).Str? by { AreTexts(m, n); }
    TargetIsNotPriority();
    ShortestOfTwo(a, b);
    ShortestOfTwo(b, a);
  }

  // ------------------------------------------------------- groups and weights

  /** Heavier; of equal weight the one with more leaves; of those the smaller code. */
  ghost predicate Outranks(w: Rule, r: Rule) {
    || w.weight > r.weight
    || (w.weight == r.weight
        && (Leaves(w) > Leaves(r) || (Leaves(w) == Leaves(r) && !Precedes(r.code, w.code))))
  }

  /** The leaves of the conditions; none if they cannot be counted. */
  function Leaves(r: Rule): nat { match Specificity(r.conditions) case Some(n) => n case None => 0 }

  predicate TopWeight(r: Rule, ws: seq<Rule>) { r in ws && forall o :: o in ws ==> o.weight <= r.weight }

  ghost predicate ValuesDiffer(field: string, ws: seq<Rule>) {
    exists r, s :: r in ws && s in ws && !Same(Get(r.actions, field), Get(s.actions, field))
  }

  lemma AgreeIs(field: string, ws: seq<Rule>)
    requires ws != []
    ensures Agree(field, ws) <==> !ValuesDiffer(field, ws)
  {
    hide Same, Canon;
    assert ws[0] in ws;
    forall r, s | r in ws && s in ws
      ensures Same(Get(r.actions, field), Get(s.actions, field)) <==>
              Canon(Get(r.actions, field)) == Canon(Get(s.actions, field))
    {
      PyEqSame(Get(r.actions, field), Get(s.actions, field));
    }
  }

  /** Ordinary writers that agree leave the value of the first, whatever their groups and weights. */
  lemma AgreementStays(field: string, ws: seq<Rule>)
    requires ws != [] && (forall r :: r in ws ==> !r.isSuppressor) && !ValuesDiffer(field, ws)
    ensures ResolveField(field, ws) == Done(Resolution(Some(Get(ws[0].actions, field)), []))
  {
    hide ValuesDiffer, Agree, MergeField, GroupBeats;
    AgreeIs(field, ws);
    NothingSuppressed(field, ws);
  }

  lemma DifferingWriters(field: string, ws: seq<Rule>)
    requires ValuesDiffer(field, ws)
    ensures |ws| > 1 && !Agree(field, ws)
  {
    hide Same, Agree;
    var r, s :| r in ws && s in ws && !Same(Get(r.actions, field), Get(s.actions, field));
    PyEqSame(Get(r.actions, field), Get(s.actions, field));
    AgreeIs(field, ws);
    assert ws[0] == r || ws[0] != r;
  }

  /** Ordinary writers of one conflict group that disagree: unless two of top weight have to be told apart and the
      leaves of one of top weight cannot be counted, one that outranks all others decides. */
  lemma GroupDecides(field: string, ws: seq<Rule>, group: string)
    requires (forall r :: r in ws ==> !r.isSuppressor) && ShareGroup(ws, group) && ValuesDiffer(field, ws)
    ensures ResolveField(field, ws).Raised? <==>
            && (exists i, j :: 0 <= i < j < |ws| && TopWeight(ws[i], ws) && TopWeight(ws[j], ws))
            && exists r :: TopWeight(r, ws) && Specificity(r.conditions).None?
    ensures ResolveField(field, ws).Done? ==>
              exists w :: w in ws && (forall r :: r in ws ==> Outranks(w, r))
                          && ResolveField(field, ws).value.value == Some(Get(w.actions, field))
  {
    hide ValuesDiffer, Agree, Specificity, Precedes, GroupBeats, TopWeight;
    DifferingWriters(field, ws);
    NothingSuppressed(field, ws);
    assert OneGroup(ws) by { assert ws[0] in ws; }
    GroupFailsIs(ws);
    if !GroupFails(ws) {
      GroupBeatsIsWeakOrder();
      ArgBestIsFirst(ws, GroupBeats);
      var w := ws[ArgBest(ws, GroupBeats)];
      assert w in ws;
      forall r | r in ws ensures Outranks(w, r) {
        var j :| 0 <= j < |ws| && ws[j] == r;
        UnbeatenOutranks(w, r);
      }
    }
  }

  lemma GroupFailsIs(ws: seq<Rule>)
    ensures GroupFails(ws) <==>
            && (exists i, j :: 0 <= i < j < |ws| && TopWeight(ws[i], ws) && TopWeight(ws[j], ws))
            && exists r :: TopWeight(r, ws) && Specificity(r.conditions).None?
  {
    hide Specificity;
    assert forall i :: 0 <= i < |ws| ==> (TopWeight(ws[i], ws) <==> Heaviest(ws[i], ws));
    assert forall r :: TopWeight(r, ws) <==> r in ws && Heaviest(r, ws);
  }

  lemma UnbeatenOutranks(w: Rule, r: Rule)
    ensures !GroupBeats(r, w) ==> Outranks(w, r)
  {
    hide Specificity, Precedes;
    StrLessPrecedes(r.code, w.code);
  }

  /** A suppressor among the writers and no shield: the heaviest suppressor, the first of equals, decides. */
  lemma SuppressorDecides(field: string, ws: seq<Rule>)
    requires (exists r :: r in ws && r.isSuppressor) && forall r :: r in ws ==> !r.nonSuppressible
    ensures exists i :: 0 <= i < |ws| && ws[i].isSuppressor
              && (forall j :: 0 <= j < |ws| && ws[j].isSuppressor ==> ws[j].weight <= ws[i].weight)
              && (forall j :: 0 <= j < i && ws[j].isSuppressor ==> ws[j].weight < ws[i].weight)
              && ResolveField(field, ws).Done?
              && ResolveField(field, ws).value.value == Some(Get(ws[i].actions, field))
  {
    OrdersAreWeak(field);
    ArgBestIsFirst(ws, SuppressorBeats);
    var i := ArgBest(ws, SuppressorBeats);
    var r :| r in ws && r.isSuppressor;
    var k :| 0 <= k < |ws| && ws[k] == r;
    assert !SuppressorBeats(ws[k], ws[i]);
    assert HasSuppressor(ws) && !HasShield(ws);
    forall j | 0 <= j < |ws| && ws[j].isSuppressor ensures ws[j].weight <= ws[i].weight {
      assert !SuppressorBeats(ws[j], ws[i]);
    }
    forall j | 0 <= j < i && ws[j].isSuppressor ensures ws[j].weight < ws[i].weight {
      assert SuppressorBeats(ws[i], ws[j]);
    }
    hide GroupBeats, MergeField;
    assert Suppress(field, ws).0 == [ws[i]];
  }

  predicate ShareGroup(ws: seq<Rule>, group: string) { forall r :: r in ws ==> r.conflictGroup == Some(group) }

  predicate SpecialField(field: string) { field in ["priority", "targetSLA", "slaTarget"] }

  /** Ordinary writers of another field that disagree, share no group and are not all booleans: the heaviest, the first
      of equals, decides. */
  lemma WeightDecides(field: string, ws: seq<Rule>)
    requires !SpecialField(field) && ValuesDiffer(field, ws)
    requires forall r :: r in ws ==> !r.isSuppressor
    requires forall g :: !ShareGroup(ws, g)
    requires exists r :: r in ws && !Get(r.actions, field).Bool?
    ensures exists i :: 0 <= i < |ws|
              && (forall j :: 0 <= j < |ws| ==> ws[j].weight <= ws[i].weight)
              && (forall j :: 0 <= j < i ==> ws[j].weight < ws[i].weight)
              && ResolveField(field, ws) == Done(Resolution(Some(Get(ws[i].actions, field)), []))
  {
    hide ValuesDiffer, Agree, GroupBeats;
    DifferingWriters(field, ws);
    NothingSuppressed(field, ws);
    NoSharedGroup(ws);
    OrdersAreWeak(field);
    ArgBestIsFirst(ws, WeightBeats);
    var i := ArgBest(ws, WeightBeats);
    forall j | 0 <= j < |ws| ensures ws[j].weight <= ws[i].weight { assert !WeightBeats(ws[j], ws[i]); }
    forall j | 0 <= j < i ensures ws[j].weight < ws[i].weight { assert WeightBeats(ws[i], ws[j]); }
    assert MergeField(field, ws) == Done(Get(ws[i].actions, field)) by { NotSpecial(field); }
  }

  lemma NotSpecial(field: string)
    requires !SpecialField(field)
    ensures field != PRIORITY && field != TARGET_SLA && field != "slaTarget"
  {
    var special := ["priority", "targetSLA", "slaTarget"];
    assert special[0] == PRIORITY && special[1] == TARGET_SLA && special[2] == "slaTarget";
  }

  lemma NoSharedGroup(ws: seq<Rule>)
    requires forall g :: !ShareGroup(ws, g)
    ensures !OneGroup(ws)
  {
    if ws != [] && ws[0].conflictGroup.Some? { assert !ShareGroup(ws, ws[0].conflictGroup.value); }
  }

  // --------------------------------------------------------------- severities

  const LEVELS := ["Low", "Medium", "High", "Critical"]

  lemma SeverityIs(v: Value, i: nat)
    ensures SeverityIndex(v) == Some(i) <==> i < 4 && v == Str(LEVELS[i])
  {
    assert LEVELS[0] == "Low" && LEVELS[1] == "Medium" && LEVELS[2] == "High" && LEVELS[3] == "Critical";
    assert "Low"[0] == 'L' && "Medium"[0] == 'M' && "High"[0] == 'H' && "Critical"[0] == 'C';
  }

  /** Of contested priorities that are all known the highest of Low, Medium, High, Critical is decided on. */
  lemma HighestPriorityDecides(ws: seq<Rule>, levels: seq<nat>, top: nat)
    requires ws != [] && |levels| == |ws| && top in levels
    requires forall i :: 0 <= i < |ws| ==>
             levels[i] <= top < 4 && Get(ws[i].actions, PRIORITY) == Str(LEVELS[levels[i]])
    ensures MergeField(PRIORITY, ws) == Done(Str(LEVELS[top]))
  {
    hide SeverityIndex, SeverityBeats, ArgBest, FirstBest;
    assert forall r :: r in ws ==> Get(r.actions, PRIORITY).Str?;
    forall i | 0 <= i < |ws| ensures SeverityRank(Get(ws[i].actions, PRIORITY)) == levels[i] {
      SeverityIs(Get(ws[i].actions, PRIORITY), levels[i]);
    }
    PriorityIsMostSevere(ws);
    var v := MergeField(PRIORITY, ws).value;
    var k :| 0 <= k < |levels| && levels[k] == top;
    assert ws[k] in ws;
    var w := ArgBest(ws, SeverityBeats(PRIORITY));
    assert v == Get(ws[w].actions, PRIORITY) && SeverityRank(v) >= top;
  }

  predicate FloorIs(r: Rule, i: nat)
    requires i < 4
  {
    "priorityFloor" in r.actions && r.actions["priorityFloor"] == Str(LEVELS[i])
  }

  /** The highest known floor is that level. */
  predicate TopFloorIs(matched: seq<Rule>, floor: nat) {
    floor < 4 && (exists r :: r in matched && FloorIs(r, floor))
    && forall r, i: nat :: r in matched && i < 4 && FloorIs(r, i) ==> i <= floor
  }

  predicate NoFloors(matched: seq<Rule>) { forall r :: r in matched ==> "priorityFloor" !in r.actions }

  lemma FloorsRead(matched: seq<Rule>, floor: nat)
    ensures TopFloorIs(matched, floor) ==> HasFloor(matched) && TopFloor(matched) == Some(floor)
    ensures NoFloors(matched) ==> !HasFloor(matched) && TopFloor(matched).None?
  {
    hide SeverityIndex;
    forall r: Rule, i: nat | i < 4 ensures FloorAt(i)(r) <==> FloorIs(r, i) {
      if FLOOR in r.actions { SeverityIs(r.actions[FLOOR], i); }
    }
    if TopFloorIs(matched, floor) {
      var r :| r in matched && FloorIs(r, floor);
      assert FloorAt(floor)(r) && HasFloorAt(matched, floor);
      forall i: nat | floor < i < 4 ensures !HasFloorAt(matched, i) { }
    }
  }

  function Bumping(): Rule -> bool { (r: Rule) => CountsAsTrue(Get(r.actions, "priorityBumpOneLevel")) }

  lemma BumpsRead(matched: seq<Rule>)
    ensures Filter(Bumping(), matched) == Filter(Bumps(), matched)
  {
    hide Truthy, CountsAsTrue;
    forall r | r in matched ensures Bumping()(r) == Bumps()(r) { TruthyCounts(Get(r.actions, BUMP)); }
    FilterCongruent(Bumping(), Bumps(), matched);
  }

  function Raised(level: nat, floor: nat, bumps: nat): nat { Min(Max(level, floor) + bumps, 3) }

  /** Where a known priority ends: at the highest known floor if that is above it, then one level up per bump, at most
      at Critical. */
  lemma AdjustedPriority(actions: Object, matched: seq<Rule>, level: nat, floor: nat)
    requires level < 4 && PRIORITY in actions && actions[PRIORITY] == Str(LEVELS[level])
    requires TopFloorIs(matched, floor) || (NoFloors(matched) && floor == 0)
    ensures Postprocess(actions, matched) ==
            Done(actions[PRIORITY := Str(LEVELS[Raised(level, floor, |Filter(Bumping(), matched)|)])])
  {
    hide SeverityIndex, SeverityName, TopFloorIs, NoFloors, HasFloor, TopFloor, Filter, Bumping, Bumps;
    FloorsRead(matched, floor);
    BumpsRead(matched);
    SeverityIs(Str(LEVELS[level]), level);
    forall i: nat | i < 4 ensures SeverityName(i) == Str(LEVELS[i]) { SeverityIs(SeverityName(i), i); }
  }

  // ------------------------------------------------------- score and SLA matrix

  /** The score lies between 0 and 120, and its band is Low up to 30, Medium up to 50, High up to 75, then Critical. */
  lemma ScoreBands(rules: seq<Rule>, incident: Incident, matrix: Option<Matrix>)
    requires Run(rules, incident, matrix).Done?
    ensures var d := Run(rules, incident, matrix).value;
            && 0 <= d.riskScore <= 120
            && (d.riskBand == LOW <==> d.riskScore <= 30)
            && (d.riskBand == MEDIUM <==> 30 < d.riskScore <= 50)
            && (d.riskBand == HIGH <==> 50 < d.riskScore <= 75)
            && (d.riskBand == CRITICAL <==> 75 < d.riskScore)
  {
    hide PolicyFails, Matched, Resolve, FinalActions, PlanFails, PlanOf, ComplianceHits, Rejected, SuppressedCodes,
         Filter, Total;
  }

  /** No entry of the decision's suppressions has the rule's code. */
  function Unsuppressed(d: Decision): Rule -> bool {
    (r: Rule) => forall f, e :: f in d.suppressed && e in d.suppressed[f] ==> e.code != r.code
  }

  /** The score is the sum over the matched rules that no entry of the decision's suppressions names, cut to 0..120. */
  lemma ScoreCounts(rules: seq<Rule>, incident: Incident, matrix: Option<Matrix>)
    requires Run(rules, incident, matrix).Done?
    ensures var d := Run(rules, incident, matrix).value;
            var total := Total(Filter(Unsuppressed(d), Matched(rules, EvaluationData(incident))));
            d.riskScore == if total < 0 then 0 else if total > 120 then 120 else total
  {
    hide PolicyFails, Matched, Resolve, FinalActions, PlanFails, PlanOf, ComplianceHits, Rejected, Filter, Total;
    var d := Run(rules, incident, matrix).value;
    var matched := Matched(rules, EvaluationData(incident));
    forall r ensures Unsuppressed(d)(r) == Counted(SuppressedCodes(d.suppressed))(r) { }
    FilterCongruent(Unsuppressed(d), Counted(SuppressedCodes(d.suppressed)), matched);
  }

  /** A rule whose code is suppressed adds nothing to the total, nor does one without a contribution; any other one adds
      its contribution. */
  lemma {:induction false} ContributionsAdd(rs: seq<Rule>, r: Rule, suppressed: set<string>)
    ensures Total(Filter(Counted(suppressed), rs + [r])) ==
            Total(Filter(Counted(suppressed), rs)) +
            (if r.code in suppressed then 0 else match r.contribution case Some(n) => n case None => 0)
    ensures Total(Filter(Counted(suppressed), [])) == 0
  {
    FilterAppend(Counted(suppressed), rs, [r]);
    TotalAppend(Filter(Counted(suppressed), rs), Filter(Counted(suppressed), [r]));
    assert [r][1..] == [];
  }

  const SEVERITIES := ["SEV4_INFORMATIONAL", "SEV3_MINOR", "SEV2_MAJOR", "SEV1_CRITICAL"]

  lemma MatrixSeverityIs(level: nat)
    requires level < 4
    ensures MatrixSeverity(Str(LEVELS[level])) == Some(SEVERITIES[level])
  {
    assert LEVELS[0] == "Low" && LEVELS[1] == "Medium" && LEVELS[2] == "High" && LEVELS[3] == "Critical";
    assert "Low"[0] == 'L' && "Medium"[0] == 'M' && "High"[0] == 'H' && "Critical"[0] == 'C';
    assert SEVERITIES[0] == "SEV4_INFORMATIONAL" && SEVERITIES[1] == "SEV3_MINOR";
    assert SEVERITIES[2] == "SEV2_MAJOR" && SEVERITIES[3] == "SEV1_CRITICAL";
  }

  /** With no targetSLA set, a known priority and a tier, the matrix fills in the entry of the tier in capitals and of
      the priority's severity: its resolution minutes as they are, its response minutes as a text that reads back as
      that many minutes. */
  lemma MatrixFills(matrix: Matrix, tier: string, level: nat, actions: Object)
    requires TARGET_SLA !in actions && tier != "" && level < 4 && Get(actions, PRIORITY) == Str(LEVELS[level])
    requires Upper(tier) in matrix && SEVERITIES[level] in matrix[Upper(tier)]
    ensures FillTargets(Some(matrix), Str(tier), actions).Done?
    ensures var t := matrix[Upper(tier)][SEVERITIES[level]];
            var after := FillTargets(Some(matrix), Str(tier), actions).value;
            && after.Keys == actions.Keys + {TARGET_SLA, "slaResolutionMinutes"}
            && after["slaResolutionMinutes"] == Int(t.resolutionMinutes)
            && after[TARGET_SLA] == Str(IntText(t.responseMinutes) + " minutes")
            && (t.responseMinutes >= 0 ==> DurationMinutes(after[TARGET_SLA]) == Some(t.responseMinutes))
  {
    hide DurationMinutes, MatrixSeverity, Upper;
    var t := matrix[Upper(tier)][SEVERITIES[level]];
    MatrixSeverityIs(level);
    if t.responseMinutes >= 0 { HoursAndMinutes(t.responseMinutes); }
    FieldsDiffer();
    assert LEVELS[level] != "";
  }

  // ------------------------------------------------------------ what is reported

  predicate TraceOf(t: MatchedTrace, r: Rule) {
    && t.code == r.code && t.name == r.name && t.family == r.family && t.weight == r.weight
    && t.severityBand == r.severityBand && t.contribution == r.contribution
  }

  predicate ConstraintOf(c: Constraint, r: Rule) { c.code == r.code && c.name == r.name && c.applied == r.actions }

  /** A decision reports its final priority, one trace per matched rule and one constraint per compliance rule that
      applied, in the order they were evaluated. */
  lemma DecisionShows(rules: seq<Rule>, incident: Incident, matrix: Option<Matrix>)
    requires Run(rules, incident, matrix).Done?
    ensures var d, data := Run(rules, incident, matrix).value, EvaluationData(incident);
            var matched, hits := Matched(rules, data), ComplianceHits(rules, data);
            && d.priority == Get(d.actions, "priority")
            && |d.matched| == |matched| && (forall i :: 0 <= i < |matched| ==> TraceOf(d.matched[i], matched[i]))
            && |d.constraints| == |hits| && (forall i :: 0 <= i < |hits| ==> ConstraintOf(d.constraints[i], hits[i]))
            && d.rejected == Rejected(rules, data)
  {
    hide PolicyFails, Matched, Resolve, FinalActions, PlanFails, PlanOf, ComplianceHits, Rejected, SuppressedCodes,
         Filter, Total;
  }
}
