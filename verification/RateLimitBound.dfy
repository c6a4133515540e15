/** How many hits the limiter lets through: at most the maximum in an aligned window, and at
    most twice the maximum in any stretch of one window's length. */
module RateLimitBound {
  import opened RateLimit

  /** A log of accepted hits: each was admitted on the log before it, and windows never go back. */
  ghost predicate Admitted(log: seq<int>, policy: Policy)
    requires policy.Valid()
  {
    && (forall i | 0 <= i < |log| :: LogAdmits(log[..i], policy, log[i]))
    && (forall i, j | 0 <= i <= j < |log| ::
          Window(log[i], policy.windowSeconds) <= Window(log[j], policy.windowSeconds))
  }

  /** How many logged hits lie in the `w` seconds that begin at `start`. */
  function CountFrom(log: seq<int>, start: int, w: int): nat {
    if log == [] then 0
    else CountFrom(log[..|log| - 1], start, w) + (if start <= log[|log| - 1] < start + w then 1 else 0)
  }

  lemma PrefixAdmitted(log: seq<int>, policy: Policy, n: nat)
    requires policy.Valid() && Admitted(log, policy) && n <= |log|
    ensures Admitted(log[..n], policy)
  {
    forall i | 0 <= i < n ensures LogAdmits(log[..n][..i], policy, log[..n][i]) {
      assert log[..n][..i] == log[..i];
    }
  }

  lemma ExtendAdmitted(log: seq<int>, policy: Policy, now: int)
    requires policy.Valid() && Admitted(log, policy) && LogAdmits(log, policy, now)
    requires LoggedUpTo(log, Window(now, policy.windowSeconds), policy.windowSeconds)
    ensures Admitted(log + [now], policy)
  {
    var longer := log + [now];
    forall i | 0 <= i < |longer| ensures LogAdmits(longer[..i], policy, longer[i]) {
      assert longer[..i] == log[..i];
      assert log[..|log|] == log;
    }
  }

  /** At most the maximum is accepted in any aligned window. */
  lemma {:induction false} AlignedBound(log: seq<int>, policy: Policy, v: int)
    requires policy.Valid() && Admitted(log, policy)
    ensures Count(log, v, policy.windowSeconds) <= policy.maxRequests
    decreases |log|
  {
    if log != [] {
      var n := |log| - 1;
      PrefixAdmitted(log, policy, n);
      AlignedBound(log[..n], policy, v);
      if Window(log[n], policy.windowSeconds) == v {
        assert LogAdmits(log[..n], policy, log[n]);
        RoomLeft(Count(log[..n], v - 1, policy.windowSeconds), Count(log[..n], v, policy.windowSeconds), policy,
            log[n]);
      }
    }
  }

  /** An admitted hit finds fewer than the maximum in its own window. */
  lemma RoomLeft(previous: nat, current: nat, policy: Policy, now: int)
    requires policy.Valid() && UnderLimit(previous, current, policy, now)
    ensures current < policy.maxRequests
  {
  }

  /** Up to a hit at `last`, the stretch only meets the hit's own window and the one before it. */
  lemma {:induction false} StretchMeetsTwoWindows(log: seq<int>, start: int, last: int, w: int)
    requires w > 0 && start <= last < start + w && LoggedUpTo(log, Window(last, w), w)
    ensures CountFrom(log, start, w) <= Count(log, Window(last, w) - 1, w) + Count(log, Window(last, w), w)
    decreases |log|
  {
    if log != [] {
      var n := |log| - 1;
      StretchMeetsTwoWindows(log[..n], start, last, w);
      if start <= log[n] {
        WindowMonotone(last - w, log[n], w);
        WindowBefore(last, w);
      }
    }
  }

  lemma NewestWasAdmitted(log: seq<int>, policy: Policy)
    requires policy.Valid() && Admitted(log, policy) && log != []
    ensures var before, last, w := log[..|log| - 1], log[|log| - 1], policy.windowSeconds;
            && LoggedUpTo(before, Window(last, w), w)
            && Count(before, Window(last, w), w) * w
               + Count(before, Window(last, w) - 1, w) * (w - (last - Window(last, w) * w)) < policy.maxRequests * w
  {
    assert LogAdmits(log[..|log| - 1], policy, log[|log| - 1]);
  }

  /** The sharp bound: with `P` hits in the window before and the newest hit at offset `e` of its
      own window, the `n` hits of a stretch that ends with it satisfy (n - 1) * W < max * W + P * e. */
  lemma SharpBound(log: seq<int>, policy: Policy, start: int)
    requires policy.Valid() && Admitted(log, policy) && log != []
    requires start <= log[|log| - 1] < start + policy.windowSeconds
    ensures var w, last := policy.windowSeconds, log[|log| - 1];
            var e := last - Window(last, w) * w;
            (CountFrom(log, start, w) - 1) * w <
            policy.maxRequests * w + Count(log[..|log| - 1], Window(last, w) - 1, w) * e
  {
    var n, w := |log| - 1, policy.windowSeconds;
    var last := log[n];
    var before := log[..n];
    var e := last - Window(last, w) * w;
    NewestWasAdmitted(log, policy);
    StretchMeetsTwoWindows(before, start, last, w);
    var P, c := Count(before, Window(last, w) - 1, w), Count(before, Window(last, w), w);
    Weigh(CountFrom(before, start, w), P, c, e, policy);
  }

  lemma Weigh(n: nat, previous: nat, current: nat, e: int, policy: Policy)
    requires policy.Valid() && n <= previous + current
    requires current * policy.windowSeconds + previous * (policy.windowSeconds - e) <
             policy.maxRequests * policy.windowSeconds
    ensures n * policy.windowSeconds < policy.maxRequests * policy.windowSeconds + previous * e
  {
  }

  /** At most twice the maximum is accepted in any stretch of one window's length. */
  lemma {:induction false} SlidingBound(log: seq<int>, policy: Policy, start: int)
    requires policy.Valid() && Admitted(log, policy)
    ensures CountFrom(log, start, policy.windowSeconds) <= 2 * policy.maxRequests
    decreases |log|
  {
    if log != [] {
      var n, w := |log| - 1, policy.windowSeconds;
      PrefixAdmitted(log, policy, n);
      SlidingBound(log[..n], policy, start);
      if start <= log[n] < start + w {
        SharpBound(log, policy, start);
        AlignedBound(log[..n], policy, Window(log[n], w) - 1);
        WindowBounds(log[n], w);
        TwiceAtMost(CountFrom(log, start, w), Count(log[..n], Window(log[n], w) - 1, w),
            log[n] - Window(log[n], w) * w, policy);
      }
    }
  }

  lemma TwiceAtMost(n: nat, previous: nat, e: nat, policy: Policy)
    requires policy.Valid() && previous <= policy.maxRequests && e < policy.windowSeconds
    requires (n - 1) * policy.windowSeconds < policy.maxRequests * policy.windowSeconds + previous * e
    ensures n <= 2 * policy.maxRequests
  {
    var w, m := policy.windowSeconds, policy.maxRequests;
    Scaled2(previous, m, e, w);
    assert (m + m) * w == m * w + m * w;
    if n > 2 * m {
      Scaled(m + m, n - 1, w);
    }
  }

  lemma Scaled2(a: nat, b: nat, c: nat, d: nat)
    requires a <= b && c <= d
    ensures a * c <= b * d
  {
  }

  // ----- the bound is exact -----

  /** The first `n` of `m` hits in the last second of window 0 and `m` hits at the end of the
      stretch, with windows of 2m + 1 seconds. */
  function Burst(m: nat, n: nat): seq<int> {
    seq(n, i requires 0 <= i < n => if i < m then 2 * m else 4 * m)
  }

  lemma BurstWindows(m: nat)
    requires m > 0
    ensures Window(2 * m, 2 * m + 1) == 0 && Window(4 * m, 2 * m + 1) == 1
  {
  }

  lemma {:induction false} BurstCounts(m: nat, n: nat)
    requires m > 0 && n <= 2 * m
    ensures Count(Burst(m, n), -1, 2 * m + 1) == 0
    ensures Count(Burst(m, n), 0, 2 * m + 1) == if n < m then n else m
    ensures Count(Burst(m, n), 1, 2 * m + 1) == if n < m then 0 else n - m
    ensures CountFrom(Burst(m, n), 2 * m, 2 * m + 1) == n
    decreases n
  {
    if n > 0 {
      BurstWindows(m);
      BurstCounts(m, n - 1);
      assert Burst(m, n)[..n - 1] == Burst(m, n - 1);
    }
  }

  lemma BurstFits(m: nat, n: nat)
    requires m > 0 && n < 2 * m
    ensures LogAdmits(Burst(m, n), Policy(2 * m + 1, m), if n < m then 2 * m else 4 * m)
  {
    BurstCounts(m, n);
    BurstWindows(m);
    var policy := Policy(2 * m + 1, m);
    if n < m {
      StartsApart(n, m, policy.windowSeconds);
      assert UnderLimit(0, n, policy, 2 * m);
    } else {
      LateHitFits(m, n - m);
    }
  }

  lemma LateHitFits(m: nat, current: nat)
    requires m > 0 && current < m
    ensures UnderLimit(m, current, Policy(2 * m + 1, m), 4 * m)
  {
    var w := 2 * m + 1;
    BurstWindows(m);
    StartsApart(current, m, w);
    assert w - (4 * m - w) == 2;
  }

  /** Twice the maximum is reached: for every maximum, some policy admits that many in one stretch. */
  lemma BoundIsReached(m: nat)
    requires m > 0
    ensures var policy := Policy(2 * m + 1, m);
            Admitted(Burst(m, 2 * m), policy) && CountFrom(Burst(m, 2 * m), 2 * m, policy.windowSeconds) == 2 * m
  {
    BurstCounts(m, 2 * m);
    BurstWindows(m);
    forall i | 0 <= i < 2 * m ensures LogAdmits(Burst(m, 2 * m)[..i], Policy(2 * m + 1, m), Burst(m, 2 * m)[i]) {
      BurstFits(m, i);
      assert Burst(m, 2 * m)[..i] == Burst(m, i);
    }
  }
}
