/** The escalation sweep: which level opens next, and how repeated sweeps drain a policy. */
module Escalation {
  import opened Common

  datatype Level = Level(level: string, timeoutMinutes: int)

  datatype Event = Event(id: string, decisionId: string, level: string, triggeredAt: real)

  function Elapsed(createdAt: real, now: real): real { (now - createdAt) / 60.0 }

  /** Its timeout has passed and no event has its name. */
  predicate Due(l: Level, elapsed: real, triggered: set<string>) {
    elapsed >= l.timeoutMinutes as real && l.level !in triggered
  }

  /** The last listed level that is due. */
  function Next(levels: seq<Level>, elapsed: real, triggered: set<string>): (r: Option<Level>)
    ensures r.Some? ==> r.value in levels && Due(r.value, elapsed, triggered)
    ensures r.None? ==> forall l :: l in levels ==> !Due(l, elapsed, triggered)
  {
    if levels == [] then None
    else
      var last := levels[|levels| - 1];
      assert levels == levels[..|levels| - 1] + [last];
      if Due(last, elapsed, triggered) then Some(last) else Next(levels[..|levels| - 1], elapsed, triggered)
  }

  function Names(events: seq<Event>): set<string> { set e | e in events :: e.level }

  class EscalationSweep {
    constructor () { }

    /** run: opens the last listed due level, if there is one. */
    method Run(decisionId: string, levels: seq<Level>, existing: seq<Event>, createdAt: real, now: real,
               freshId: string)
      returns (fired: Option<Event>)
      ensures match Next(levels, Elapsed(createdAt, now), Names(existing))
              case Some(l) => fired == Some(Event(freshId, decisionId, l.level, now))
              case None => fired == None
    {
      var elapsed := (now - createdAt) / 60.0;
      var triggered := set e | e in existing :: e.level;
      var next: Option<Level> := None;
      for i := 0 to |levels|
        invariant next == Next(levels[..i], elapsed, triggered)
      {
        assert levels[..i + 1][..i] == levels[..i];
        if elapsed >= levels[i].timeoutMinutes as real && levels[i].level !in triggered { next := Some(levels[i]); }
      }
      assert levels[..|levels|] == levels;
      fired := if next.None? then None else Some(Event(freshId, decisionId, next.value.level, now));
    }
  }

  /** Sixty seconds a minute of its timeout have passed since the decision, and no event has its name. */
  predicate Ripe(l: Level, createdAt: real, now: real, existing: seq<Event>) {
    now - createdAt >= 60.0 * (l.timeoutMinutes as real) && forall e :: e in existing ==> e.level != l.level
  }

  lemma DueIsRipe(l: Level, createdAt: real, now: real, existing: seq<Event>)
    ensures Due(l, Elapsed(createdAt, now), Names(existing)) <==> Ripe(l, createdAt, now, existing)
  {
  }

  predicate LastDue(levels: seq<Level>, elapsed: real, triggered: set<string>, i: int) {
    0 <= i < |levels| && Due(levels[i], elapsed, triggered)
    && forall j :: i < j < |levels| ==> !Due(levels[j], elapsed, triggered)
  }

  lemma {:induction false} NextIsLast(levels: seq<Level>, elapsed: real, triggered: set<string>, l: Level)
    ensures Next(levels, elapsed, triggered) == Some(l) <==>
            exists i :: LastDue(levels, elapsed, triggered, i) && levels[i] == l
    decreases |levels|
  {
    hide Due;
    if levels != [] {
      var last := |levels| - 1;
      if Due(levels[last], elapsed, triggered) {
        assert LastDue(levels, elapsed, triggered, last);
      } else {
        NextIsLast(levels[..last], elapsed, triggered, l);
        forall i ensures LastDue(levels, elapsed, triggered, i) <==> LastDue(levels[..last], elapsed, triggered, i) { }
      }
    }
  }

  ghost predicate LastRipe(levels: seq<Level>, createdAt: real, now: real, existing: seq<Event>, i: int) {
    0 <= i < |levels| && Ripe(levels[i], createdAt, now, existing)
    && forall j :: i < j < |levels| ==> !Ripe(levels[j], createdAt, now, existing)
  }

  /** In seconds: the level to open is the last listed one whose timeout, counted from the decision, has passed and
      whose name no event has. */
  lemma NextIsLastRipe(levels: seq<Level>, createdAt: real, now: real, existing: seq<Event>, l: Level)
    ensures Next(levels, Elapsed(createdAt, now), Names(existing)) == Some(l) <==>
            exists i :: LastRipe(levels, createdAt, now, existing, i) && levels[i] == l
  {
    hide Due, Ripe, Elapsed, Names;
    var elapsed, triggered := Elapsed(createdAt, now), Names(existing);
    forall x ensures Due(x, elapsed, triggered) <==> Ripe(x, createdAt, now, existing) {
      DueIsRipe(x, createdAt, now, existing);
    }
    NextIsLast(levels, elapsed, triggered, l);
    forall i ensures LastDue(levels, elapsed, triggered, i) <==> LastRipe(levels, createdAt, now, existing, i) { }
  }

  // ------------------------------------------------------------------- draining

  /** The names repeated sweeps open at one time, in order, when each is recorded before the next sweep. */
  ghost function Drain(levels: seq<Level>, elapsed: real, triggered: set<string>): seq<string>
    decreases LevelNames(levels) - triggered
  {
    match Next(levels, elapsed, triggered)
    case None => []
    case Some(l) => [l.level] + Drain(levels, elapsed, triggered + {l.level})
  }

  ghost function LevelNames(levels: seq<Level>): set<string> { set l | l in levels :: l.level }

  /** Reference: walk the list backwards and take each due name the first time it is met. */
  ghost function Backwards(levels: seq<Level>, elapsed: real, triggered: set<string>): seq<string> {
    if levels == [] then []
    else
      var last, rest := levels[|levels| - 1], levels[..|levels| - 1];
      if Due(last, elapsed, triggered) then [last.level] + Backwards(rest, elapsed, triggered + {last.level})
      else Backwards(rest, elapsed, triggered)
  }

  /** A last level that is not due can be dropped: it never becomes due at this time. */
  lemma {:induction false} DrainDropsLast(levels: seq<Level>, elapsed: real, triggered: set<string>)
    requires levels != [] && !Due(levels[|levels| - 1], elapsed, triggered)
    ensures Drain(levels, elapsed, triggered) == Drain(levels[..|levels| - 1], elapsed, triggered)
    decreases LevelNames(levels) - triggered
  {
    match Next(levels, elapsed, triggered) {
      case None =>
      case Some(l) => DrainDropsLast(levels, elapsed, triggered + {l.level});
    }
  }

  /** The drain is that walk: each due name once, from the last listed to the first, then nothing. */
  lemma {:induction false} DrainIsBackwards(levels: seq<Level>, elapsed: real, triggered: set<string>)
    ensures Drain(levels, elapsed, triggered) == Backwards(levels, elapsed, triggered)
    decreases |levels|
  {
    if levels != [] {
      var last, rest := levels[|levels| - 1], levels[..|levels| - 1];
      if Due(last, elapsed, triggered) {
        DrainDropsLast(levels, elapsed, triggered + {last.level});
        DrainIsBackwards(rest, elapsed, triggered + {last.level});
      } else {
        DrainDropsLast(levels, elapsed, triggered);
        DrainIsBackwards(rest, elapsed, triggered);
      }
    }
  }

  ghost predicate NoRepeats(names: seq<string>) { forall i, j :: 0 <= i < j < |names| ==> names[i] != names[j] }

  /** Draining opens exactly the due names, each once, and leaves nothing due. */
  lemma {:induction false} DrainOpensEachOnce(levels: seq<Level>, elapsed: real, triggered: set<string>)
    ensures NoRepeats(Drain(levels, elapsed, triggered))
    ensures forall name :: name in Drain(levels, elapsed, triggered) <==>
            exists l :: l in levels && l.level == name && Due(l, elapsed, triggered)
    ensures Next(levels, elapsed, triggered + set name | name in Drain(levels, elapsed, triggered)) == None
    decreases LevelNames(levels) - triggered
  {
    match Next(levels, elapsed, triggered) {
      case None =>
        assert triggered + (set name | name in Drain(levels, elapsed, triggered)) == triggered;
      case Some(l) =>
        var wider := triggered + {l.level};
        var rest := Drain(levels, elapsed, wider);
        DrainOpensEachOnce(levels, elapsed, wider);
        var all := Drain(levels, elapsed, triggered);
        assert all == [l.level] + rest;
        assert triggered + (set name | name in all) == wider + (set name | name in rest);
        assert l.level !in rest;
        forall name ensures name in all <==> exists x :: x in levels && x.level == name && Due(x, elapsed, triggered) {
          if name == l.level {
            assert l in levels && Due(l, elapsed, triggered);
          } else {
            assert forall x :: x in levels && x.level == name ==> Due(x, elapsed, wider) == Due(x, elapsed, triggered);
            assert name in all <==> name in rest;
          }
        }
    }
  }

  // ------------------------------------------------------------------- any run

  /** Sweeps at any times, each record what it opened; `times` need not be ordered. */
  function Sweeps(levels: seq<Level>, times: seq<real>, triggered: seq<string>): seq<string>
    decreases |times|
  {
    if times == [] then triggered
    else
      match Next(levels, times[0], set name | name in triggered)
      case Some(l) => Sweeps(levels, times[1..], triggered + [l.level])
      case None => Sweeps(levels, times[1..], triggered)
  }

  /** Over any run no level name opens twice for a decision. */
  lemma {:induction false} NeverOpensTwice(levels: seq<Level>, times: seq<real>, triggered: seq<string>)
    requires NoRepeats(triggered)
    ensures NoRepeats(Sweeps(levels, times, triggered)) && triggered <= Sweeps(levels, times, triggered)
    decreases |times|
  {
    if times != [] {
      match Next(levels, times[0], set name | name in triggered) {
        case Some(l) =>
          assert l.level !in triggered;
          NeverOpensTwice(levels, times[1..], triggered + [l.level]);
        case None =>
          NeverOpensTwice(levels, times[1..], triggered);
      }
    }
  }
}
