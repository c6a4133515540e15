/** The sliding-window rate limiter: two counters that stand in for the log of accepted hits. */
module RateLimit {
  import opened Wrappers
  import opened StoreRecords

  /** Configuration accepts only positive whole numbers. */
  datatype Policy = Policy(windowSeconds: int, maxRequests: int) {
    predicate Valid() {
      windowSeconds > 0 && maxRequests > 0
    }
  }

  /** The number of the aligned window that a time falls in. */
  function Window(now: int, w: int): int
    requires w > 0
  {
    now / w
  }

  function CountersForWindow(existing: Option<RateLimitRecord>, windowStart: int, windowSeconds: int, now: int): (int,
      int) {
    if existing.None? || existing.value.expiresAt <= now then (0, 0)
    else if existing.value.windowStart == windowStart then (existing.value.previousCount, existing.value.currentCount)
    else if existing.value.windowStart == windowStart - windowSeconds then (existing.value.currentCount, 0)
    else (0, 0)
  }

  /** The weighted comparison, multiplied out so that it stays in whole numbers. */
  predicate UnderLimit(previous: int, current: int, policy: Policy, now: int)
    requires policy.Valid()
  {
    var elapsed := now - Window(now, policy.windowSeconds) * policy.windowSeconds;
    current * policy.windowSeconds + previous * (policy.windowSeconds - elapsed) <
    policy.maxRequests * policy.windowSeconds
  }

  /** The comparison of the source: hits of this window and, in proportion to the part of it that still
      overlaps, of the one before, against the maximum. */
  lemma UnderLimitWeighs(previous: int, current: int, policy: Policy, now: int)
    requires policy.Valid()
    ensures var w := policy.windowSeconds;
            var elapsed := now - Window(now, w) * w;
            UnderLimit(previous, current, policy, now) <==>
            current as real + previous as real * ((w - elapsed) as real / w as real) < policy.maxRequests as real
  {
    var w := policy.windowSeconds;
    var left := w - (now - Window(now, w) * w);
    Divided(previous, left, w);
    var weighed := previous as real * (left as real / w as real);
    Multiplied(current as real + weighed, policy.maxRequests as real, w as real);
    assert weighed * w as real == (previous * left) as real;
    assert (current as real + weighed) * w as real == current as real * w as real + weighed * w as real;
    assert current as real * w as real == (current * w) as real;
    assert policy.maxRequests as real * w as real == (policy.maxRequests * w) as real;
  }

  lemma Divided(a: int, b: int, w: int)
    requires w > 0
    ensures a as real * (b as real / w as real) * w as real == (a * b) as real
  {
    assert (b as real / w as real) * w as real == b as real;
    assert a as real * (b as real / w as real) * w as real == a as real * ((b as real / w as real) * w as real);
  }

  lemma Multiplied(x: real, y: real, w: real)
    requires w > 0.0
    ensures x < y <==> x * w < y * w
  {
  }

  /** The record after an accepted hit, or None when the hit is over the limit. */
  function NextRateLimitRecord(existing: Option<RateLimitRecord>, policy: Policy, now: int): Option<RateLimitRecord>
    requires policy.Valid()
  {
    var windowStart := Window(now, policy.windowSeconds) * policy.windowSeconds;
    var (previous, current) := CountersForWindow(existing, windowStart, policy.windowSeconds, now);
    if UnderLimit(previous, current, policy, now) then
      Some(RateLimitRecord(windowStart, previous, current + 1, windowStart + policy.windowSeconds * 2))
    else
      None
  }

  // ----- the full log -----

  /** How many logged hits fall in aligned window `v`. */
  function Count(log: seq<int>, v: int, w: int): nat
    requires w > 0
  {
    if log == [] then 0
    else Count(log[..|log| - 1], v, w) + (if Window(log[|log| - 1], w) == v then 1 else 0)
  }

  /** The decision taken from the full log of accepted hits. */
  predicate LogAdmits(log: seq<int>, policy: Policy, now: int)
    requires policy.Valid()
  {
    var v := Window(now, policy.windowSeconds);
    UnderLimit(Count(log, v - 1, policy.windowSeconds), Count(log, v, policy.windowSeconds), policy, now)
  }

  /** No logged hit lies in a window after `v`. */
  ghost predicate LoggedUpTo(log: seq<int>, v: int, w: int)
    requires w > 0
  {
    forall i | 0 <= i < |log| :: Window(log[i], w) <= v
  }

  /** From window `v` on, the record yields the counts of the log, whether or not it has expired. */
  ghost predicate Faithful(record: Option<RateLimitRecord>, log: seq<int>, v: int, w: int)
    requires w > 0
  {
    forall now | v <= Window(now, w) ::
      CountersForWindow(record, Window(now, w) * w, w, now) ==
          (Count(log, Window(now, w) - 1, w), Count(log, Window(now, w), w))
  }

  // ----- arithmetic of windows -----

  lemma WindowBounds(now: int, w: int)
    requires w > 0
    ensures Window(now, w) * w <= now < Window(now, w) * w + w
  {
  }

  lemma Scaled(a: int, b: int, w: int)
    requires w > 0 && a <= b
    ensures a * w <= b * w
  {
  }

  lemma StartsApart(a: int, b: int, w: int)
    requires w > 0 && a < b
    ensures a * w + w <= b * w
    ensures a + 1 < b ==> a * w + 2 * w <= b * w
  {
    Scaled(a + 1, b, w);
    assert (a + 1) * w == a * w + w;
    if a + 1 < b {
      Scaled(a + 2, b, w);
      assert (a + 2) * w == a * w + 2 * w;
    }
  }

  lemma WindowMonotone(a: int, b: int, w: int)
    requires w > 0 && a <= b
    ensures Window(a, w) <= Window(b, w)
  {
    WindowBounds(a, w);
    WindowBounds(b, w);
    if Window(b, w) < Window(a, w) {
      StartsApart(Window(b, w), Window(a, w), w);
    }
  }

  lemma WindowUnique(now: int, v: int, w: int)
    requires w > 0 && v * w <= now < v * w + w
    ensures Window(now, w) == v
  {
    WindowBounds(now, w);
    if v < Window(now, w) {
      StartsApart(v, Window(now, w), w);
    } else if Window(now, w) < v {
      StartsApart(Window(now, w), v, w);
    }
  }

  lemma WindowBefore(now: int, w: int)
    requires w > 0
    ensures Window(now - w, w) == Window(now, w) - 1
  {
    WindowBounds(now, w);
    assert (Window(now, w) - 1) * w == Window(now, w) * w - w;
    WindowUnique(now - w, Window(now, w) - 1, w);
  }

  lemma {:induction false} LaterWindowsAreEmpty(log: seq<int>, v: int, u: int, w: int)
    requires w > 0 && LoggedUpTo(log, v, w) && v < u
    ensures Count(log, u, w) == 0
    decreases |log|
  {
    if log != [] {
      LaterWindowsAreEmpty(log[..|log| - 1], v, u, w);
    }
  }

  // ----- the record agrees with the log -----

  lemma NoRecordIsFaithful(v: int, w: int)
    requires w > 0
    ensures Faithful(None, [], v, w)
  {
  }

  /** Removing an expired record changes no later decision. */
  lemma PruningIsFaithful(record: RateLimitRecord, log: seq<int>, v: int, w: int, now: int)
    requires w > 0 && Faithful(Some(record), log, v, w)
    requires record.expiresAt <= now && v <= Window(now, w) && record.expiresAt % w == 0
    ensures Faithful(None, log, Window(now, w), w)
  {
    forall t | Window(now, w) <= Window(t, w)
      ensures CountersForWindow(None, Window(t, w) * w, w, t) ==
          (Count(log, Window(t, w) - 1, w), Count(log, Window(t, w), w))
    {
      ExpiryIsAligned(record.expiresAt, now, t, w);
      assert CountersForWindow(Some(record), Window(t, w) * w, w, t) == (0, 0);
    }
  }

  /** An aligned expiry time that has passed has passed in the whole window. */
  lemma ExpiryIsAligned(expiresAt: int, now: int, t: int, w: int)
    requires w > 0 && expiresAt % w == 0 && expiresAt <= now && Window(now, w) <= Window(t, w)
    ensures expiresAt <= t
  {
    WindowBounds(now, w);
    WindowBounds(t, w);
    var k := expiresAt / w;
    assert expiresAt == k * w;
    WindowMonotone(expiresAt, now, w);
    assert Window(expiresAt, w) == k;
    assert (Window(t, w) - k) * w >= 0;
  }

  /** The record of a hit in window `u` gives the counts of the longer log from then on. */
  lemma NewCounts(log: seq<int>, w: int, now: int, t: int)
    requires w > 0 && LoggedUpTo(log, Window(now, w), w) && Window(now, w) <= Window(t, w)
    ensures var u := Window(now, w);
            var record := RateLimitRecord(u * w, Count(log, u - 1, w), Count(log, u, w) + 1, u * w + w * 2);
            CountersForWindow(Some(record), Window(t, w) * w, w, t) ==
            (Count(log + [now], Window(t, w) - 1, w), Count(log + [now], Window(t, w), w))
  {
    var u := Window(now, w);
    assert (log + [now])[..|log|] == log;
    WindowBounds(t, w);
    if u < Window(t, w) {
      StartsApart(u, Window(t, w), w);
      LaterWindowsAreEmpty(log, u, Window(t, w), w);
      if u + 1 < Window(t, w) {
        LaterWindowsAreEmpty(log, u, Window(t, w) - 1, w);
      } else {
        assert Window(t, w) * w == u * w + w;
      }
    }
  }

  /** An accepted hit leaves a record that agrees with the longer log. */
  lemma AcceptedHitIsFaithful(record: Option<RateLimitRecord>, log: seq<int>, v: int,
      policy: Policy, now: int)
    requires policy.Valid() && Faithful(record, log, v, policy.windowSeconds)
        && LoggedUpTo(log, v, policy.windowSeconds)
    requires v <= Window(now, policy.windowSeconds)
    ensures NextRateLimitRecord(record, policy, now).Some? <==> LogAdmits(log, policy, now)
    ensures NextRateLimitRecord(record, policy, now).Some? ==>
              Faithful(NextRateLimitRecord(record, policy, now), log + [now], Window(now, policy.windowSeconds),
                  policy.windowSeconds)
  {
    var w := policy.windowSeconds;
    var next := NextRateLimitRecord(record, policy, now);
    if next.Some? {
      forall t | Window(now, w) <= Window(t, w)
        ensures CountersForWindow(next, Window(t, w) * w, w, t) ==
            (Count(log + [now], Window(t, w) - 1, w), Count(log + [now], Window(t, w), w))
      {
        NewCounts(log, w, now, t);
      }
    }
  }
}
