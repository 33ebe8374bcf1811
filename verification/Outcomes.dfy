/** What the decided values mean: typed merges, floors and bumps, mitigations, compliance, the plan. */
module OutcomeTheorems {
  import opened Common
  import opened Values
  import opened Rules
  import opened Resolver
  import opened Pipeline

  /** The value of the first writer that no other one beats. */
  ghost predicate FirstBestValue(field: string, ws: seq<Rule>, beats: (Rule, Rule) -> bool, v: Value) {
    exists i: nat :: FirstBest(ws, beats, i) && v == Get(ws[i].actions, field)
  }

  lemma MergePicksFirstBest(field: string, ws: seq<Rule>, beats: (Rule, Rule) -> bool)
    requires ws != [] && WeakOrder(beats)
    ensures FirstBestValue(field, ws, beats, Get(ws[ArgBest(ws, beats)].actions, field))
  {
    ArgBestIsFirst(ws, beats);
  }

  /** A contested priority goes to the most severe value, the earliest of equals. */
  lemma PriorityIsMostSevere(ws: seq<Rule>)
    requires ws != [] && MergeField(PRIORITY, ws).Done?
    ensures FirstBestValue(PRIORITY, ws, SeverityBeats(PRIORITY), MergeField(PRIORITY, ws).value)
    ensures forall r :: r in ws ==>
            SeverityRank(Get(r.actions, PRIORITY)) <= SeverityRank(MergeField(PRIORITY, ws).value)
  {
    hide SeverityRank, Hashable, DurationMinutes;
    OrdersAreWeak(PRIORITY);
    MergePicksFirstBest(PRIORITY, ws, SeverityBeats(PRIORITY));
    var i: nat :| FirstBest(ws, SeverityBeats(PRIORITY), i)
        && MergeField(PRIORITY, ws).value == Get(ws[i].actions, PRIORITY);
    forall r | r in ws ensures SeverityRank(Get(r.actions, PRIORITY)) <= SeverityRank(MergeField(PRIORITY, ws).value) {
      var j :| 0 <= j < |ws| && ws[j] == r;
      assert !SeverityBeats(PRIORITY)(ws[j], ws[i]);
    }
  }

  /** A contested SLA target goes to the shortest duration; it fails exactly when one of them cannot be read. */
  lemma TargetIsShortest(field: string, ws: seq<Rule>)
    requires ws != [] && (field == TARGET_SLA || field == "slaTarget")
    ensures MergeField(field, ws).Raised? <==> exists r :: r in ws && DurationMinutes(Get(r.actions, field)).None?
    ensures MergeField(field, ws).Done? ==>
              var v := MergeField(field, ws).value;
              && FirstBestValue(field, ws, ShorterBeats(field), v)
              && DurationMinutes(v).Some?
              && forall r :: r in ws ==>
                 DurationMinutes(Get(r.actions, field)).Some?
                   && DurationMinutes(v).value <= DurationMinutes(Get(r.actions, field)).value
  {
    hide DurationMinutes, Hashable;
    assert field != PRIORITY;
    if MergeField(field, ws).Done? {
      OrdersAreWeak(field);
      MergePicksFirstBest(field, ws, ShorterBeats(field));
      var v := MergeField(field, ws).value;
      var i: nat :| FirstBest(ws, ShorterBeats(field), i) && v == Get(ws[i].actions, field);
      assert ws[i] in ws;
      forall r | r in ws
        ensures DurationMinutes(Get(r.actions, field)).Some?
                && DurationMinutes(v).value <= DurationMinutes(Get(r.actions, field)).value
      {
        var j :| 0 <= j < |ws| && ws[j] == r;
        assert !ShorterBeats(field)(ws[j], ws[i]);
      }
    }
  }

  /** Any other field: booleans are or-ed; otherwise the heaviest writer's value, the earliest of equals. */
  lemma FreeFieldMerges(field: string, ws: seq<Rule>)
    requires ws != [] && field != PRIORITY && field != TARGET_SLA && field != "slaTarget"
    ensures MergeField(field, ws).Done?
    ensures var v := MergeField(field, ws).value;
            if forall r :: r in ws ==> Get(r.actions, field).Bool?
            then v.Bool? && (v == Bool(true) <==> exists r :: r in ws && Get(r.actions, field) == Bool(true))
            else FirstBestValue(field, ws, WeightBeats, v)
  {
    hide DurationMinutes, Hashable;
    OrdersAreWeak(field);
    MergePicksFirstBest(field, ws, WeightBeats);
  }

  // -------------------------------------------------------- floors and bumps

  /** Where the priority stands before floors and bumps: a floor on a missing priority starts it at Low. */
  function Starting(actions: Object, matched: seq<Rule>): Value {
    if Get(actions, PRIORITY).Null? && HasFloor(matched) then Str("Low") else Get(actions, PRIORITY)
  }

  predicate Adjusts(matched: seq<Rule>) { HasFloor(matched) || exists r :: r in matched && Bumps()(r) }

  function BumpCount(matched: seq<Rule>): nat { |Filter(Bumps(), matched)| }

  lemma BumpsCounted(matched: seq<Rule>)
    ensures BumpCount(matched) > 0 <==> exists r :: r in matched && Bumps()(r)
  {
    hide Bumps;
    FilterMembers(Bumps(), matched);
    var bs := Filter(Bumps(), matched);
    if bs != [] { assert bs[0] in bs; }
  }

  lemma TopFloorIsHighest(matched: seq<Rule>)
    ensures TopFloor(matched).Some? ==> HasFloorAt(matched, TopFloor(matched).value)
    ensures forall r :: r in matched && FLOOR in r.actions && SeverityIndex(r.actions[FLOOR]).Some? ==>
              TopFloor(matched).Some? && SeverityIndex(r.actions[FLOOR]).value <= TopFloor(matched).value
  {
    hide SeverityIndex;
    forall r | r in matched && FLOOR in r.actions && SeverityIndex(r.actions[FLOOR]).Some?
      ensures TopFloor(matched).Some? && SeverityIndex(r.actions[FLOOR]).value <= TopFloor(matched).value
    {
      var i := SeverityIndex(r.actions[FLOOR]).value;
      assert FloorAt(i)(r);
      assert HasFloorAt(matched, i);
    }
  }

  /** Floors and bumps fail exactly when there is something to adjust and either the starting priority is not a known
      severity or there are floors but none is. */
  lemma AdjustingFailsExactly(actions: Object, matched: seq<Rule>)
    ensures Postprocess(actions, matched).Raised? <==>
            && !Starting(actions, matched).Null? && Adjusts(matched)
            && (SeverityIndex(Starting(actions, matched)).None? || (HasFloor(matched) && TopFloor(matched).None?))
  {
    hide SeverityIndex, SeverityName, TopFloor, HasFloor, Bumps;
    BumpsCounted(matched);
    LowIsKnown();
  }

  lemma LowIsKnown()
    ensures SeverityIndex(Str("Low")) == Some(0)
  {
  }

  function Max(a: int, b: int): int { if a < b then b else a }

  /** When they succeed: the priority is raised to the highest known floor, then one level per bump, up to Critical; so
      it is never lowered and is at least every known floor. Nothing else changes. */
  lemma AdjustingRaises(actions: Object, matched: seq<Rule>)
    requires Postprocess(actions, matched).Done? && !Starting(actions, matched).Null? && Adjusts(matched)
    ensures var after := Postprocess(actions, matched).value; var start := SeverityIndex(Starting(actions, matched));
            && start.Some? && after == actions[PRIORITY := after[PRIORITY]]
            && (var floor := if TopFloor(matched).Some? then TopFloor(matched).value else 0;
                SeverityIndex(after[PRIORITY]) == Some(Min(Max(start.value, floor) + BumpCount(matched), 3)))
            && SeverityIndex(after[PRIORITY]).value >= start.value
            && forall r :: r in matched && FLOOR in r.actions && SeverityIndex(r.actions[FLOOR]).Some? ==>
                 SeverityIndex(r.actions[FLOOR]).value <= SeverityIndex(after[PRIORITY]).value
  {
    hide SeverityIndex, SeverityName, TopFloor, HasFloor, Bumps;
    BumpsCounted(matched);
    LowIsKnown();
    AdjustingFailsExactly(actions, matched);
    TopFloorIsHighest(matched);
    NoFloorNoTop(matched);
  }

  lemma NoFloorNoTop(matched: seq<Rule>)
    ensures TopFloor(matched).Some? ==> HasFloor(matched)
  {
  }

  /** With nothing to adjust, or no priority and no floor, the actions stay as they are. */
  lemma NothingToAdjust(actions: Object, matched: seq<Rule>)
    requires Starting(actions, matched).Null? || !Adjusts(matched)
    ensures Postprocess(actions, matched) == Done(actions)
  {
    hide SeverityIndex, SeverityName, TopFloor, HasFloor, Bumps;
    BumpsCounted(matched);
    if !Starting(actions, matched).Null? {
      assert actions[PRIORITY := Get(actions, PRIORITY)] == actions;
    }
  }

  // -------------------------------------------------------------- mitigations

  ghost predicate SaysTrue(rs: seq<Rule>, key: string) { exists r :: r in rs && Get(r.mitigations, key) == Bool(true) }

  ghost predicate SaysBool(rs: seq<Rule>, key: string) { exists r :: r in rs && Get(r.mitigations, key).Bool? }

  lemma {:induction false} MitigationFolds(acc: Value, rs: seq<Rule>, key: string)
    ensures Mitigation(acc, rs, key) ==
            if Truthy(acc) then acc
            else if SaysTrue(rs, key) then Bool(true)
            else if SaysBool(rs, key) then Bool(false)
            else acc
    decreases |rs|
  {
    if rs != [] {
      var v := Get(rs[0].mitigations, key);
      MitigationFolds(if v.Bool? && !Truthy(acc) then v else acc, rs[1..], key);
      assert rs == [rs[0]] + rs[1..];
      assert SaysTrue(rs, key) <==> v == Bool(true) || SaysTrue(rs[1..], key);
      assert SaysBool(rs, key) <==> v.Bool? || SaysBool(rs[1..], key);
    }
  }

  /** A mitigation keeps its first value if that is truthy; otherwise later booleans are or-ed in. In particular, when
      every writer gives a boolean the result is their disjunction. */
  lemma MitigationMeans(matched: seq<Rule>, key: string)
    requires key in MitigationKeys(matched)
    ensures key in Mitigations(matched)
    ensures var rs := Filter(Mitigates(key), matched);
            && rs != []
            && (var first := Get(rs[0].mitigations, key);
                Mitigations(matched)[key] ==
                if Truthy(first) then first
                else if SaysTrue(rs[1..], key) then Bool(true)
                else if SaysBool(rs[1..], key) then Bool(false)
                else first)
            && ((forall r :: r in rs ==> Get(r.mitigations, key).Bool?) ==>
               Mitigations(matched)[key] == Bool(SaysTrue(rs, key)))
  {
    hide Truthy, Mitigation;
    FilterMembers(Mitigates(key), matched);
    var rs := Filter(Mitigates(key), matched);
    var r :| r in matched && key in r.mitigations;
    assert r in rs;
    MitigationFolds(Get(rs[0].mitigations, key), rs[1..], key);
    assert rs == [rs[0]] + rs[1..];
    BoolTruth();
    if forall x :: x in rs ==> Get(x.mitigations, key).Bool? {
      assert rs[0] in rs;
      assert SaysTrue(rs, key) <==> Get(rs[0].mitigations, key) == Bool(true) || SaysTrue(rs[1..], key);
    }
  }

  lemma BoolTruth()
    ensures forall b :: Truthy(Bool(b)) == b
  {
  }

  // --------------------------------------------------------------- compliance

  /** The compliance pass leaves each field with the value of the last hit that writes it, and otherwise alone. */
  lemma {:induction false} LastComplianceWins(actions: Object, hits: seq<Rule>, field: string)
    ensures var after := Overwrite(actions, hits); var writers := Filter(Writes(field), hits);
            if writers == [] then (field in after <==> field in actions) && Get(after, field) == Get(actions, field)
            else field in after && after[field] == Get(writers[|writers| - 1].actions, field)
    decreases |hits|
  {
    if hits != [] {
      LastComplianceWins(actions + hits[0].actions, hits[1..], field);
      var rest := Filter(Writes(field), hits[1..]);
      if rest != [] {
        var writers := Filter(Writes(field), hits);
        assert writers[|writers| - 1] == rest[|rest| - 1];
      }
    }
  }

  // --------------------------------------------------------------- SLA matrix

  /** The matrix never touches a targetSLA that is set, nor any field but its two; but a slaResolutionMinutes that a
      rule wrote survives exactly when a targetSLA was set too or the matrix has no entry (or the very same minutes). */
  lemma MatrixFillsIn(matrix: Matrix, tier: Value, actions: Object)
    requires FillTargets(Some(matrix), tier, actions).Done?
    ensures var after := FillTargets(Some(matrix), tier, actions).value;
            var entry := LookupTargets(matrix, tier, Get(actions, PRIORITY));
            && (TARGET_SLA in actions ==> after == actions)
            && (forall f :: f != TARGET_SLA && f != RESOLUTION ==>
               (f in after <==> f in actions) && Get(after, f) == Get(actions, f))
            && (RESOLUTION in actions ==>
                  (Get(after, RESOLUTION) == actions[RESOLUTION] <==>
                     TARGET_SLA in actions || entry == Done(None)
                     || (entry.Done? && entry.value.Some?
                        && Int(entry.value.value.resolutionMinutes) == actions[RESOLUTION])))
  {
    hide LookupTargets;
    FieldsDiffer();
  }

  lemma FieldsDiffer()
    ensures TARGET_SLA != RESOLUTION
  {
    assert TARGET_SLA[0] == 't' && RESOLUTION[0] == 's';
  }

  // ---------------------------------------------------------------------- plan

  function OrderOf(step: Step): nat { step.order }

  function Wanted(actions: Object, rs: seq<Rule>): string -> bool {
    (field: string) => Truthy(Get(actions, field)) && !Inserted(rs, field)
  }

  ghost predicate DirectFor(steps: seq<Step>, fields: seq<string>, order: nat) {
    |steps| == |fields| && forall i :: 0 <= i < |steps| ==> steps[i] == Direct(order + i, fields[i])
  }

  lemma DirectOneMore(fields: seq<string>, actions: Object, rs: seq<Rule>, order: nat)
    requires fields != []
    ensures var more := Wanted(actions, rs)(fields[0]); var next := if more then order + 1 else order;
            && DirectSteps(fields, actions, rs, order) ==
               (if more then [Direct(order, fields[0])] else []) + DirectSteps(fields[1..], actions, rs, next)
            && Filter(Wanted(actions, rs), fields) ==
               (if more then [fields[0]] else []) + Filter(Wanted(actions, rs), fields[1..])
  {
    hide Inserted, Truthy;
  }

  lemma DirectForCons(steps: seq<Step>, fields: seq<string>, order: nat, field: string)
    requires DirectFor(steps, fields, order + 1)
    ensures DirectFor([Direct(order, field)] + steps, [field] + fields, order)
  {
  }

  /** The direct steps are the wanted fields that no sequence has taken, in order of precedence, numbered from
      `order`. */
  lemma {:induction false} DirectStepsAre(fields: seq<string>, actions: Object, rs: seq<Rule>, order: nat)
    ensures DirectFor(DirectSteps(fields, actions, rs, order), Filter(Wanted(actions, rs), fields), order)
    decreases |fields|
  {
    if fields != [] {
      hide Wanted, DirectSteps, Filter, DirectFor;
      var rest := Filter(Wanted(actions, rs), fields[1..]);
      DirectOneMore(fields, actions, rs, order);
      if Wanted(actions, rs)(fields[0]) {
        DirectStepsAre(fields[1..], actions, rs, order + 1);
        DirectForCons(DirectSteps(fields[1..], actions, rs, order + 1), rest, order, fields[0]);
      } else {
        DirectStepsAre(fields[1..], actions, rs, order);
        assert [] + rest == rest;
        assert [] + DirectSteps(fields[1..], actions, rs, order) == DirectSteps(fields[1..], actions, rs, order);
      }
    }
  }

  /** A rule's two steps: first try, then fall back on that very try. */
  ghost predicate PairAt(steps: seq<Step>, k: nat, r: Rule, order: nat) {
    && 2 * k + 1 < |steps|
    && steps[2 * k] == Sequenced(order, TryFirst(r), r.code, None)
    && steps[2 * k + 1] == Sequenced(order + 1, FallbackTo(r), r.code, Some((TryFirst(r), FallbackAfter(r))))
  }

  lemma PairMoves(head: seq<Step>, steps: seq<Step>, k: nat, r: Rule, order: nat)
    requires |head| == 2 && PairAt(steps, k, r, order)
    ensures PairAt(head + steps, k + 1, r, order)
  {
    var all := head + steps;
    assert all[2 * (k + 1)] == steps[2 * k] && all[2 * (k + 1) + 1] == steps[2 * k + 1];
  }

  lemma {:induction false} SequencedStepsAre(rs: seq<Rule>, order: nat)
    ensures |SequencedSteps(rs, order)| == 2 * |rs|
    ensures forall k :: 0 <= k < |rs| ==> PairAt(SequencedSteps(rs, order), k, rs[k], order + 2 * k)
    decreases |rs|
  {
    hide TryFirst, FallbackTo, FallbackAfter, PairAt;
    if rs != [] {
      var steps, rest := SequencedSteps(rs, order), SequencedSteps(rs[1..], order + 2);
      SequencedStepsAre(rs[1..], order + 2);
      assert steps == steps[..2] + rest;
      forall k | 0 <= k < |rs| ensures PairAt(steps, k, rs[k], order + 2 * k) {
        if k == 0 {
          FirstPair(rs, order);
        } else {
          PairMoves(steps[..2], rest, k - 1, rs[1..][k - 1], order + 2 + 2 * (k - 1));
        }
      }
    }
  }

  lemma FirstPair(rs: seq<Rule>, order: nat)
    requires rs != []
    ensures PairAt(SequencedSteps(rs, order), 0, rs[0], order)
  {
  }

  /** Said with the keys of the hint itself: its two actions, and the minutes after which to fall back, "?" if it names
      none. */
  lemma HintsBecomeSteps(r: Rule, hint: Object, order: nat)
    requires r.sequencing == Some(hint) && "tryFirst" in hint && "fallbackTo" in hint
    ensures var minutes := if "fallbackAfterMinutes" in hint then hint["fallbackAfterMinutes"] else Str("?");
            SequencedSteps([r], order) ==
              [Sequenced(order, hint["tryFirst"], r.code, None),
               Sequenced(order + 1, hint["fallbackTo"], r.code, Some((hint["tryFirst"], minutes)))]
  {
    OneSequenced(r, order);
  }

  predicate Scalar(v: Value) { !v.List? && !v.Dict? }

  /** The plan raises exactly when some matched rule has a hint that lacks one of its two actions, or gives a list or a
      dictionary for one. */
  lemma PlanFailsExactly(matched: seq<Rule>)
    ensures PlanFails(matched) <==>
            exists r :: r in matched && r.sequencing.Some? && r.sequencing.value != map[]
                        && !("tryFirst" in r.sequencing.value && Scalar(r.sequencing.value["tryFirst"])
                             && "fallbackTo" in r.sequencing.value && Scalar(r.sequencing.value["fallbackTo"]))
  {
    FilterMembers(HasSequencing(), matched);
  }

  ghost predicate NumberedFrom(steps: seq<Step>, order: nat) {
    forall i :: 0 <= i < |steps| ==> OrderOf(steps[i]) == order + i
  }

  ghost predicate AllSequenced(steps: seq<Step>) { forall i :: 0 <= i < |steps| ==> steps[i].Sequenced? }

  ghost predicate HasDirect(steps: seq<Step>, field: string) {
    exists i :: 0 <= i < |steps| && steps[i].Direct? && steps[i].field == field
  }

  /** Direct steps come last, each for another field. */
  ghost predicate DirectOnce(steps: seq<Step>) {
    forall i, j :: 0 <= i < j < |steps| && steps[i].Direct? ==> steps[j].Direct? && steps[i].field != steps[j].field
  }

  lemma {:induction false} SequencedNumbered(rs: seq<Rule>, order: nat)
    ensures NumberedFrom(SequencedSteps(rs, order), order) && AllSequenced(SequencedSteps(rs, order))
    decreases |rs|
  {
    hide TryFirst, FallbackTo, FallbackAfter;
    if rs != [] {
      SequencedNumbered(rs[1..], order + 2);
    }
  }

  /** The plan is numbered 1, 2, 3, ...; a field gets a direct step exactly when it is wanted, and never two. */
  lemma PlanMeans(actions: Object, matched: seq<Rule>)
    ensures var plan := PlanOf(actions, matched);
            && NumberedFrom(plan, 1) && DirectOnce(plan)
            && forall f :: HasDirect(plan, f) <==>
               f in PLAN_FIELDS && Wanted(actions, Filter(HasSequencing(), matched))(f)
  {
    hide SequencedSteps, DirectSteps, HasSequencing, Wanted, Filter, NumberedFrom, AllSequenced, DirectOnce, HasDirect,
         Distinct, DirectFor, PairAt;
    var rs := Filter(HasSequencing(), matched);
    var wanted := Filter(Wanted(actions, rs), PLAN_FIELDS);
    SequencedStepsAre(rs, 1);
    SequencedNumbered(rs, 1);
    DirectStepsAre(PLAN_FIELDS, actions, rs, 1 + 2 * |rs|);
    WantedFields(Wanted(actions, rs), wanted);
    PlanShape(SequencedSteps(rs, 1), DirectSteps(PLAN_FIELDS, actions, rs, 1 + 2 * |rs|), wanted);
  }

  lemma PlanShape(first: seq<Step>, second: seq<Step>, wanted: seq<string>)
    requires NumberedFrom(first, 1) && AllSequenced(first)
    requires DirectFor(second, wanted, 1 + |first|) && Distinct(wanted)
    ensures NumberedFrom(first + second, 1) && DirectOnce(first + second)
    ensures forall f :: HasDirect(first + second, f) <==> f in wanted
  {
    var plan, n := first + second, |first|;
    assert forall i :: 0 <= i < |plan| ==> plan[i] == if i < n then first[i] else Direct(1 + i, wanted[i - n]);
    forall f ensures HasDirect(plan, f) <==> f in wanted {
      if f in wanted {
        var j :| 0 <= j < |wanted| && wanted[j] == f;
        assert plan[n + j] == Direct(1 + n + j, wanted[j]);
      }
    }
  }

  lemma WantedFields(want: string -> bool, wanted: seq<string>)
    requires wanted == Filter(want, PLAN_FIELDS)
    ensures forall f :: f in wanted <==> f in PLAN_FIELDS && want(f)
    ensures Distinct(wanted)
  {
    hide Filter, Distinct;
    FilterMembers(want, PLAN_FIELDS);
    PlanFieldsDiffer();
    FilterKeepsDistinct(want, PLAN_FIELDS);
  }

  ghost predicate Distinct(s: seq<string>) { forall i, j :: 0 <= i < j < |s| ==> s[i] != s[j] }

  lemma PlanFieldsDiffer()
    ensures Distinct(PLAN_FIELDS)
  {
    assert PLAN_FIELDS[0][0] == 'a' && PLAN_FIELDS[1][0] == 'r' && PLAN_FIELDS[2][0] == 'd' && PLAN_FIELDS[3][0] == 'c'
           && PLAN_FIELDS[4][0] == 'n';
  }

  lemma {:induction false} FilterKeepsDistinct(want: string -> bool, s: seq<string>)
    requires Distinct(s)
    ensures Distinct(Filter(want, s))
  {
    if s != [] {
      FilterKeepsDistinct(want, s[1..]);
      FilterMembers(want, s[1..]);
      var rest := Filter(want, s[1..]);
      forall j | 0 <= j < |rest| ensures rest[j] != s[0] {
        assert rest[j] in rest;
        var k :| 0 <= k < |s[1..]| && s[1..][k] == rest[j];
        assert s[k + 1] == rest[j];
      }
    }
  }
}
