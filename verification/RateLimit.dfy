/** The fixed-window rate limiter: what one client gets through in any minute, and when it may come back. */
module RateLimit {
  import opened Common

  const WINDOW := 60.0

  /** Requests counted since the window started. */
  datatype Bucket = Bucket(count: nat, start: real)

  const FRESH := Bucket(0, 0.0)

  function Hit(b: Bucket, now: real): Bucket {
    if now - b.start >= WINDOW then Bucket(1, now) else Bucket(b.count + 1, b.start)
  }

  predicate Admitted(b: Bucket, now: real, limit: int) { Hit(b, now).count <= limit }

  /** Whole seconds until the window ends, cut off, and at least one. */
  function RetryAfter(b: Bucket, now: real): int {
    var left := WINDOW - (now - b.start);
    if left.Floor < 1 then 1 else left.Floor
  }

  datatype Reply = Passed | Rejected(retryAfter: int)

  class RateLimitMiddleware {
    var counts: map<string, Bucket>

    constructor ()
      ensures counts == map[]
    {
      counts := map[];
    }

    function BucketOf(key: string): Bucket
      reads this
    {
      if key in counts then counts[key] else FRESH
    }

    function ClientKey(host: Option<string>): string { "ip:" + if host.Some? then host.value else "unknown" }

    /** dispatch: only the client's own bucket changes, and only when limiting is on. */
    method Dispatch(host: Option<string>, now: real, enabled: bool, limit: int) returns (reply: Reply)
      modifies this
      ensures !enabled ==> counts == old(counts) && reply == Passed
      ensures enabled ==>
                var key := ClientKey(host); var b := old(BucketOf(key));
                && counts == old(counts)[key := Hit(b, now)]
                && reply == if Admitted(b, now, limit) then Passed else Rejected(RetryAfter(Hit(b, now), now))
    {
      if !enabled { return Passed; }
      var key := ClientKey(host);
      var count, start := BucketOf(key).count, BucketOf(key).start;
      if now - start >= WINDOW { count, start := 0, now; }
      count := count + 1;
      counts := counts[key := Bucket(count, start)];
      if count > limit {
        var left := WINDOW - (now - start);
        return Rejected(if left.Floor < 1 then 1 else left.Floor);
      }
      reply := Passed;
    }
  }

  /** Two clients share a bucket only if one is called "unknown" and the other has no address. */
  lemma ClientsApart(m: RateLimitMiddleware, a: Option<string>, b: Option<string>)
    ensures m.ClientKey(a) == m.ClientKey(b) <==>
            a == b || (a == Some("unknown") && b.None?) || (a.None? && b == Some("unknown"))
  {
    var x, y := m.ClientKey(a), m.ClientKey(b);
    assert x[3..] == if a.Some? then a.value else "unknown";
    assert y[3..] == if b.Some? then b.value else "unknown";
  }

  // ---------------------------------------------------------------- rate bounds

  /** The times of one client's requests, in order. */
  predicate Ordered(times: seq<real>) { forall i, j :: 0 <= i < j < |times| ==> times[i] <= times[j] }

  /** How many of the requests between `lo` and `hi`, both included, get through. */
  function Through(b: Bucket, times: seq<real>, limit: int, lo: real, hi: real): nat
    decreases |times|
  {
    if times == [] then 0
    else
      (if lo <= times[0] <= hi && Admitted(b, times[0], limit) then 1 else 0)
      + Through(Hit(b, times[0]), times[1..], limit, lo, hi)
  }

  function Most(limit: int): nat { if limit < 0 then 0 else limit }

  /** What the window still lets through. */
  function Left(b: Bucket, limit: int): nat { Most(limit - b.count) }

  /** While the window covers the rest of the interval, only what it has left gets through. */
  lemma {:induction false} SameWindow(b: Bucket, times: seq<real>, limit: int, lo: real, hi: real)
    requires Ordered(times) && hi < b.start + WINDOW
    ensures Through(b, times, limit, lo, hi) <= Left(b, limit)
    decreases |times|
  {
    if times != [] && times[0] <= hi {
      SameWindow(Hit(b, times[0]), times[1..], limit, lo, hi);
    } else if times != [] {
      NothingAfter(b, times, limit, lo, hi);
    }
  }

  lemma {:induction false} NothingAfter(b: Bucket, times: seq<real>, limit: int, lo: real, hi: real)
    requires Ordered(times) && (times != [] ==> hi < times[0])
    ensures Through(b, times, limit, lo, hi) == 0
    decreases |times|
  {
    if times != [] {
      NothingAfter(Hit(b, times[0]), times[1..], limit, lo, hi);
    }
  }

  /** A window that is open at the start of the interval is followed by at most one more inside it. */
  lemma {:induction false} TwoWindows(b: Bucket, times: seq<real>, limit: int, lo: real)
    requires Ordered(times) && (times != [] ==> lo <= times[0]) && lo < b.start + WINDOW
    ensures Through(b, times, limit, lo, lo + WINDOW) <= Left(b, limit) + Most(limit)
    decreases |times|
  {
    if times != [] {
      if times[0] - b.start >= WINDOW {
        SameWindow(Hit(b, times[0]), times[1..], limit, lo, lo + WINDOW);
      } else {
        TwoWindows(Hit(b, times[0]), times[1..], limit, lo);
      }
    }
  }

  /** Any closed interval of 60 seconds lets at most twice the limit through. */
  lemma {:induction false} TwiceTheLimit(b: Bucket, times: seq<real>, limit: int, lo: real)
    requires Ordered(times)
    ensures Through(b, times, limit, lo, lo + WINDOW) <= 2 * Most(limit)
    decreases |times|
  {
    if times == [] {
    } else if times[0] < lo {
      TwiceTheLimit(Hit(b, times[0]), times[1..], limit, lo);
    } else if lo < b.start + WINDOW {
      TwoWindows(b, times, limit, lo);
    } else {
      TwoWindows(Hit(b, times[0]), times[1..], limit, lo);
    }
  }

  /** The bound is met: a burst at the end of one window and one at the start of the next. */
  lemma {:induction false} TwiceTheLimitIsReached(limit: nat, start: real)
    ensures exists times ::
              Ordered(times) && Through(Bucket(0, start), times, limit, start + 30.0, start + 90.0) == 2 * limit
  {
    var late, early := Repeat(start + 59.0, limit), Repeat(start + 60.0, limit);
    BurstThrough(Bucket(0, start), start + 59.0, limit, early, limit, start + 30.0, start + 90.0);
    assert Through(Bucket(limit, start), early, limit, start + 30.0, start + 90.0) == limit by {
      if limit > 0 {
        assert early[1..] == Repeat(start + 60.0, limit - 1);
        BurstThrough(Bucket(1, start + 60.0), start + 60.0, limit - 1, [], limit, start + 30.0, start + 90.0);
        assert early[1..] + [] == early[1..];
      }
    }
    assert Ordered(late + early);
  }

  function Repeat(t: real, n: nat): seq<real> { seq(n, i => t) }

  lemma {:induction false} BurstThrough(b: Bucket, t: real, n: nat, rest: seq<real>, limit: nat, lo: real, hi: real)
    requires t < b.start + WINDOW && lo <= t <= hi && b.count + n <= limit
    ensures Through(b, Repeat(t, n) + rest, limit, lo, hi) ==
            n + Through(Bucket(b.count + n, b.start), rest, limit, lo, hi)
    decreases n
  {
    if n == 0 {
      assert Repeat(t, n) + rest == rest;
    } else {
      assert (Repeat(t, n) + rest)[1..] == Repeat(t, n - 1) + rest;
      BurstThrough(Hit(b, t), t, n - 1, rest, limit, lo, hi);
    }
  }

  /** One window lets through exactly as many requests as the limit, or all of them if there are fewer. */
  lemma {:induction false} OneWindow(b: Bucket, times: seq<real>, limit: int, lo: real, hi: real)
    requires forall i :: 0 <= i < |times| ==> lo <= times[i] <= hi && times[i] < b.start + WINDOW
    ensures Through(b, times, limit, lo, hi) == if |times| <= Left(b, limit) then |times| else Left(b, limit)
    decreases |times|
  {
    if times != [] {
      OneWindow(Hit(b, times[0]), times[1..], limit, lo, hi);
    }
  }

  // -------------------------------------------------------------- Retry-After

  /** After a rejection the client's next request passes exactly when the window is over. */
  lemma NextPassesAfterWindow(b: Bucket, now: real, next: real, limit: int)
    requires limit >= 1 && !Admitted(b, now, limit)
    ensures Admitted(Hit(b, now), next, limit) <==> next - Hit(b, now).start >= WINDOW
  {
  }

  /** Retry-After is cut off to whole seconds, so a second more always suffices; the header alone does exactly when the
      time left was at most a second or a whole number of seconds. */
  lemma RetryAfterPlusOne(b: Bucket, now: real, next: real, limit: int)
    requires limit >= 1 && !Admitted(b, now, limit)
    ensures var after := RetryAfter(Hit(b, now), now);
            && after >= 1
            && (next >= now + (after + 1) as real ==> Admitted(Hit(b, now), next, limit))
            && (Admitted(Hit(b, now), now + after as real, limit) <==>
                  var left := WINDOW - (now - Hit(b, now).start); left <= 1.0 || left == left.Floor as real)
  {
    NextPassesAfterWindow(b, now, next, limit);
  }

  /** A client that waits exactly as told is turned away again. */
  lemma WaitingAsToldCanFail()
    ensures var b := Hit(Hit(FRESH, 100.0), 100.5);
            && !Admitted(Hit(FRESH, 100.0), 100.5, 1) && RetryAfter(b, 100.5) == 59 && !Admitted(b, 159.5, 1)
  {
    var b := Hit(Hit(FRESH, 100.0), 100.5);
    assert b == Bucket(2, 100.0);
    assert (59.5).Floor == 59;
  }
}
