/** A limiter of grants per window of time.  One `TryAcquire` is what an acquirer does while holding
    the lock, which contains no await; between two of them any other acquirer may run and any
    time may pass.  Times are real numbers from a clock that never goes back. */
module RateLimit {
  import opened Common

  datatype Attempt = Granted | Refused | Wait(seconds: real)

  /** The stamps that are still inside the window. */
  function Pruned(times: seq<real>, cutoff: real): (r: seq<real>) {
    if times != [] && times[0] <= cutoff then Pruned(times[1..], cutoff) else times
  }

  /** No `limit + 1` grants lie within less than one window. */
  ghost predicate Spaced(grants: seq<real>, limit: nat, window: real) {
    forall i, j :: 0 <= i < |grants| && 0 <= j < |grants| && j == i + limit ==> grants[j] - grants[i] >= window
  }

  /** `times` is the history without its first `expired` grants: exactly those are at or before
      the cutoff. */
  ghost predicate Suffix(grants: seq<real>, expired: nat, times: seq<real>, cutoff: real) {
    && expired <= |grants| && times == grants[expired..]
    && (forall i :: 0 <= i < expired ==> grants[i] <= cutoff)
    && (forall i :: expired <= i < |grants| ==> grants[i] > cutoff)
  }

  /** What holds between two acquirers: `times` is the part of the grant history `grants` that the
      latest cutoff left over. */
  ghost predicate Consistent(
    limit: nat, window: real, times: seq<real>, grants: seq<real>, expired: nat, clock: real, cutoff: real)
  {
    && limit > 0 && window > 0.0 && |times| <= limit
    && NonDecreasing(grants) && (forall i :: 0 <= i < |grants| ==> grants[i] <= clock)
    && cutoff <= clock - window
    && Suffix(grants, expired, times, cutoff)
    && Spaced(grants, limit, window)
  }

  class StrictSlidingWindowLimiter {
    const limit: nat
    const window: real
    var times: seq<real>
    ghost var grants: seq<real>    // every grant ever given
    ghost var expired: nat         // how many of them have left the window
    ghost var clock: real          // the latest time read
    ghost var cutoff: real         // the latest cutoff applied to `times`

    ghost predicate Valid()
      reads this
    {
      Consistent(limit, window, times, grants, expired, clock, cutoff)
    }

    constructor (limit: nat, window: real, start: real)
      requires limit > 0 && window > 0.0
      ensures Valid() && this.limit == limit && this.window == window && times == [] && grants == []
      ensures clock == start && expired == 0
    {
      this.limit, this.window, times := limit, window, [];
      grants, expired, clock, cutoff := [], 0, start, start - window;
    }

    /** Pops the stamps at or before `cut` off the front. */
    method PopExpired(cut: real)
      requires Dropping(times, grants, expired, cut)
      modifies this`times, this`expired
      ensures times == Pruned(old(times), cut) && |times| <= |old(times)|
      ensures Dropping(times, grants, expired, cut) && (times != [] ==> times[0] > cut)
    {
      while times != [] && times[0] <= cut
        invariant |times| <= |old(times)| && Pruned(times, cut) == Pruned(old(times), cut)
        invariant Dropping(times, grants, expired, cut)
        decreases |times|
      {
        DropOne(times, grants, expired, cut);
        times := times[1..];
        expired := expired + 1;
      }
    }

    /** Drops the stamps that have left the window. */
    method Expire(now: real)
      requires Valid() && clock <= now
      modifies this`times, this`expired, this`cutoff, this`clock
      ensures Valid() && cutoff == now - window && clock == now
      ensures times == Pruned(old(times), now - window)
    {
      var cut := now - window;
      NothingDropped(limit, window, times, grants, expired, clock, cutoff, cut);
      PopExpired(cut);
      CutoffMoved(limit, window, times, grants, expired, clock, now);
      clock, cutoff := now, cut;
    }

    /** One pass of the acquire loop: `now` and `stamp` are the two clock readings, `allowed` is
        what the caller's condition says at admission. */
    method TryAcquire(now: real, stamp: real, allowed: bool) returns (r: Attempt)
      requires Valid() && clock <= now <= stamp
      modifies this
      ensures Valid() && cutoff == now - window
      ensures r.Granted? ==> grants == old(grants) + [stamp] && clock == stamp
      ensures r.Granted? ==> times == Pruned(old(times), now - window) + [stamp]
      ensures !r.Granted? ==> grants == old(grants) && clock == now
      ensures r.Refused? <==> !allowed && |Pruned(old(times), now - window)| < limit
      ensures r.Wait? <==> |Pruned(old(times), now - window)| >= limit
      ensures r.Wait? <==> |old(grants)| >= limit && old(grants)[|old(grants)| - limit] > now - window
      ensures r.Wait? ==> times != [] && r.seconds == times[0] + window - now > 0.0
    {
      Expire(now);
      if |times| < limit {
        if !allowed {
          return Refused;
        }
        GrantKeepsConsistent(limit, window, times, grants, expired, clock, cutoff, stamp);
        times := times + [stamp];
        grants := grants + [stamp];
        clock := stamp;
        return Granted;
      }
      var wait := times[0] + window - now;
      assert times[0] == grants[expired];
      r := Wait(if wait > 0.0 then wait else 0.0);
    }
  }

  /** Some stamps at or before the cutoff have been dropped, maybe not yet all of them. */
  ghost predicate Dropping(times: seq<real>, grants: seq<real>, expired: nat, cutoff: real) {
    && expired <= |grants| && times == grants[expired..]
    && forall i :: 0 <= i < expired ==> grants[i] <= cutoff
  }

  lemma NothingDropped(
      limit: nat, window: real, times: seq<real>, grants: seq<real>, expired: nat, clock: real, cutoff: real,
      later: real)
    requires Consistent(limit, window, times, grants, expired, clock, cutoff) && cutoff <= later
    ensures Dropping(times, grants, expired, later)
  {
  }

  lemma DropOne(times: seq<real>, grants: seq<real>, expired: nat, cutoff: real)
    requires Dropping(times, grants, expired, cutoff) && times != [] && times[0] <= cutoff
    ensures Dropping(times[1..], grants, expired + 1, cutoff)
  {
    assert times[0] == grants[expired];
    assert grants[expired..][1..] == grants[expired + 1..];
  }

  /** Dropping stamps up to a later cutoff leaves exactly the grants inside the window. */
  lemma CutoffMoved(limit: nat, window: real, times: seq<real>, grants: seq<real>, expired: nat, clock: real, now: real)
    requires limit > 0 && window > 0.0 && |times| <= limit && NonDecreasing(grants) && Spaced(grants, limit, window)
    requires clock <= now && forall i :: 0 <= i < |grants| ==> grants[i] <= clock
    requires Dropping(times, grants, expired, now - window) && (times != [] ==> times[0] > now - window)
    ensures Consistent(limit, window, times, grants, expired, now, now - window)
  {
    if times != [] {
      assert times[0] == grants[expired];
    }
    forall i | expired <= i < |grants| ensures grants[i] > now - window {
      assert i == expired || grants[expired] <= grants[i];
    }
  }

  lemma GrantKeepsConsistent(
      limit: nat, window: real, times: seq<real>, grants: seq<real>, expired: nat, clock: real, cutoff: real,
      stamp: real)
    requires Consistent(limit, window, times, grants, expired, clock, cutoff) && |times| < limit
    requires clock <= stamp
    ensures Consistent(limit, window, times + [stamp], grants + [stamp], expired, stamp, cutoff)
  {
    GrantKeepsSpacing(grants, limit, window, expired, cutoff, stamp);
    assert (grants + [stamp])[expired..] == times + [stamp];
  }

  /** A grant given while fewer than `limit` stamps are inside the window keeps the spacing. */
  lemma GrantKeepsSpacing(grants: seq<real>, limit: nat, window: real, expired: nat, cutoff: real, stamp: real)
    requires Spaced(grants, limit, window) && expired <= |grants| < expired + limit && stamp >= cutoff + window
    requires forall i :: 0 <= i < expired ==> grants[i] <= cutoff
    ensures Spaced(grants + [stamp], limit, window)
  {
    var longer := grants + [stamp];
    forall i, j | 0 <= i < |longer| && 0 <= j < |longer| && j == i + limit ensures longer[j] - longer[i] >= window {
      if j < |grants| {
        assert longer[j] == grants[j];
      }
    }
  }

  /** An acquirer was told to wait for the oldest stamp of `times`.  Whatever the others did in
      the meantime, once the stamps are pruned at or after the computed time, the awaited one no
      longer counts against the limit; and if nobody was granted anything, there is room. */
  lemma SleeperFindsExpired(
      limit: nat, window: real, now: real, times: seq<real>, grants: seq<real>, expired: nat, clock: real, wait: real,
      later: real, times': seq<real>, grants': seq<real>, expired': nat, clock': real)
    requires Consistent(limit, window, times, grants, expired, clock, now - window)
    requires times != [] && wait == times[0] + window - now
    requires Consistent(limit, window, times', grants', expired', clock', later - window)
    requires grants <= grants' && later >= now + wait
    ensures expired' > expired
    ensures grants' == grants ==> |times'| < limit
  {
    assert times[0] == grants[expired] == grants'[expired];
  }

  // ----- how many grants a window holds

  /** How many of the first `n` grants are `inside`. */
  function CountOf(grants: seq<real>, n: nat, inside: real -> bool): nat
    requires n <= |grants|
  {
    if n == 0 then 0 else CountOf(grants, n - 1, inside) + if inside(grants[n - 1]) then 1 else 0
  }

  function HalfOpen(from: real, window: real): real -> bool { (t: real) => from <= t < from + window }

  function Closed(from: real, window: real): real -> bool { (t: real) => from <= t <= from + window }

  ghost predicate Convex(inside: real -> bool) {
    forall x: real, y: real, z: real :: x <= y <= z && inside(x) && inside(z) ==> inside(y)
  }

  /** The grants inside a window are consecutive. */
  lemma {:induction false} Consecutive(grants: seq<real>, n: nat, inside: real -> bool) returns (lo: nat, hi: nat)
    requires n <= |grants| && NonDecreasing(grants) && Convex(inside)
    ensures lo <= hi <= n && hi - lo == CountOf(grants, n, inside)
    ensures forall i :: 0 <= i < n ==> (inside(grants[i]) <==> lo <= i < hi)
  {
    if n == 0 {
      lo, hi := 0, 0;
    } else {
      lo, hi := Consecutive(grants, n - 1, inside);
      if inside(grants[n - 1]) {
        if lo == hi {
          lo := n - 1;
        } else {
          forall i | lo <= i < n ensures inside(grants[i]) {
            assert i == lo || grants[lo] <= grants[i];
            assert i == n - 1 || grants[i] <= grants[n - 1];
          }
        }
        hi := n;
      }
    }
  }

  /** More than `limit` grants inside a window: two of them are `limit` grants apart. */
  lemma Crowded(grants: seq<real>, limit: nat, inside: real -> bool) returns (i: nat, j: nat)
    requires NonDecreasing(grants) && Convex(inside) && CountOf(grants, |grants|, inside) > limit
    ensures j == i + limit < |grants| && inside(grants[i]) && inside(grants[j])
  {
    var lo, hi := Consecutive(grants, |grants|, inside);
    i, j := lo, lo + limit;
  }

  lemma CrowdedIsNotSpaced(grants: seq<real>, limit: nat, from: real, window: real)
    requires NonDecreasing(grants) && CountOf(grants, |grants|, HalfOpen(from, window)) > limit
    ensures !Spaced(grants, limit, window)
  {
    var i, j := Crowded(grants, limit, HalfOpen(from, window));
    assert grants[j] - grants[i] < window;
  }

  /** Spaced, ordered grants never exceed the limit in any half-open window. */
  lemma WindowBound(grants: seq<real>, limit: nat, from: real, window: real)
    requires limit > 0 && window > 0.0 && NonDecreasing(grants) && Spaced(grants, limit, window)
    ensures CountOf(grants, |grants|, HalfOpen(from, window)) <= limit
  {
    if CountOf(grants, |grants|, HalfOpen(from, window)) > limit {
      CrowdedIsNotSpaced(grants, limit, from, window);
    }
  }

  lemma {:induction false} ClosedInTwo(grants: seq<real>, n: nat, from: real, window: real)
    requires n <= |grants| && window > 0.0
    ensures CountOf(grants, n, Closed(from, window))
         <= CountOf(grants, n, HalfOpen(from, window)) + CountOf(grants, n, HalfOpen(from + window, window))
  {
    if n > 0 {
      ClosedInTwo(grants, n - 1, from, window);
    }
  }

  /** A closed window holds at most twice the limit. */
  lemma ClosedWindowBound(grants: seq<real>, limit: nat, from: real, window: real)
    requires limit > 0 && window > 0.0 && NonDecreasing(grants) && Spaced(grants, limit, window)
    ensures CountOf(grants, |grants|, Closed(from, window)) <= 2 * limit
  {
    ClosedInTwo(grants, |grants|, from, window);
    WindowBound(grants, limit, from, window);
    WindowBound(grants, limit, from + window, window);
  }

  /** Some grant is followed, `limit` grants later, by one exactly one window after it. */
  ghost predicate Touching(grants: seq<real>, limit: nat, window: real) {
    exists i, j :: 0 <= i < |grants| && 0 <= j < |grants| && j == i + limit && grants[j] - grants[i] == window
  }

  lemma CrowdedTouches(grants: seq<real>, limit: nat, from: real, window: real)
    requires NonDecreasing(grants) && Spaced(grants, limit, window)
    requires CountOf(grants, |grants|, Closed(from, window)) > limit
    ensures Touching(grants, limit, window)
  {
    var i, j := Crowded(grants, limit, Closed(from, window));
    assert grants[j] - grants[i] == window;
  }

  /** The documented bound, for intervals that contain both their ends, holds exactly when no two
      grants `limit` apart lie exactly one window apart. */
  lemma ClosedWindowExactly(grants: seq<real>, limit: nat, window: real)
    requires limit > 0 && window > 0.0 && NonDecreasing(grants) && Spaced(grants, limit, window)
    ensures (forall from: real :: CountOf(grants, |grants|, Closed(from, window)) <= limit)
       <==> !Touching(grants, limit, window)
  {
    if Touching(grants, limit, window) {
      var i, j :| 0 <= i < |grants| && 0 <= j < |grants| && j == i + limit && grants[j] - grants[i] == window;
      var inside := Closed(grants[i], window);
      var lo, hi := Consecutive(grants, |grants|, inside);
      assert inside(grants[i]) && inside(grants[j]);
      assert CountOf(grants, |grants|, Closed(grants[i], window)) > limit;
    } else {
      forall from: real ensures CountOf(grants, |grants|, Closed(from, window)) <= limit {
        if CountOf(grants, |grants|, Closed(from, window)) > limit {
          CrowdedTouches(grants, limit, from, window);
        }
      }
    }
  }

  /** `n` grants at one time. */
  function At(t: real, n: nat): seq<real> { seq(n, _ => t) }

  lemma {:induction false} AllPruned(t: real, n: nat, cutoff: real)
    requires t <= cutoff
    ensures Pruned(At(t, n), cutoff) == []
  {
    if n > 0 {
      assert At(t, n)[1..] == At(t, n - 1);
      AllPruned(t, n - 1, cutoff);
    }
  }

  lemma {:induction false} CountAll(grants: seq<real>, n: nat, inside: real -> bool)
    requires n <= |grants| && forall i :: 0 <= i < n ==> inside(grants[i])
    ensures CountOf(grants, n, inside) == n
  {
    if n > 0 {
      CountAll(grants, n - 1, inside);
    }
  }

  /** Granted as many as allowed at once and again one window later, a closed window holds twice
      the limit. */
  lemma TwoBursts(limit: nat, window: real, start: real)
    requires window > 0.0
    ensures var grants := At(start, limit) + At(start + window, limit);
            |grants| == CountOf(grants, |grants|, Closed(start, window)) == 2 * limit
  {
    CountAll(At(start, limit) + At(start + window, limit), 2 * limit, Closed(start, window));
  }

  /** Fills an empty window at one moment. */
  method Fill(limiter: StrictSlidingWindowLimiter, now: real)
    requires limiter.Valid() && limiter.clock <= now && Pruned(limiter.times, now - limiter.window) == []
    modifies limiter
    ensures limiter.Valid() && limiter.clock == now && limiter.times == At(now, limiter.limit)
    ensures limiter.grants == old(limiter.grants) + At(now, limiter.limit)
  {
    for i := 0 to limiter.limit
      invariant limiter.Valid() && limiter.clock <= now && (i > 0 ==> limiter.clock == now)
      invariant Pruned(limiter.times, now - limiter.window) == At(now, i) && (i > 0 ==> limiter.times == At(now, i))
      invariant limiter.grants == old(limiter.grants) + At(now, i)
    {
      var r := limiter.TryAcquire(now, now, true);
      assert At(now, i + 1) == At(now, i) + [now];
    }
  }

  method NewAndFull(limit: nat, window: real, now: real) returns (limiter: StrictSlidingWindowLimiter)
    requires limit > 0 && window > 0.0
    ensures fresh(limiter) && limiter.Valid() && limiter.limit == limit && limiter.window == window
    ensures limiter.clock == now && limiter.times == limiter.grants == At(now, limit)
  {
    limiter := new StrictSlidingWindowLimiter(limit, window, now);
    Fill(limiter, now);
  }

  /** A run of the limiter that attains the bound of a closed window. */
  method FillTwice(limit: nat, window: real, start: real) returns (limiter: StrictSlidingWindowLimiter)
    requires limit > 0 && window > 0.0
    ensures limiter.Valid() && limiter.limit == limit && limiter.window == window
    ensures limiter.grants == At(start, limit) + At(start + window, limit)
  {
    var later := start + window;
    assert later - window == start;
    AllPruned(start, limit, start);
    limiter := NewAndFull(limit, window, start);
    Fill(limiter, later);
  }
}
