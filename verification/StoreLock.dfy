/** Taking the lock file: poll until it can be created or five seconds have gone by. */
module StoreLock {
  import opened Wrappers

  const LOCK_POLL_MS := 10
  const LOCK_TIMEOUT_MS := 5000

  /** Readings of the clock by attempt; the delay between attempts lasts at least the poll time. */
  ghost predicate Polls(clock: nat -> int, startedAt: int) {
    startedAt <= clock(0) && forall k: nat :: clock(k) + LOCK_POLL_MS <= clock(k + 1)
  }

  lemma {:induction false} ClockAdvances(clock: nat -> int, startedAt: int, k: nat)
    requires Polls(clock, startedAt)
    ensures startedAt + LOCK_POLL_MS * k <= clock(k)
  {
    if k > 0 {
      ClockAdvances(clock, startedAt, k - 1);
    }
  }

  /** The attempt that creates the lock file, or None after a timeout. `taken(k)` tells whether the
      file exists at attempt `k`. */
  method AcquireLock(taken: nat -> bool, clock: nat -> int, startedAt: int)
    returns (acquired: Option<nat>, attempts: nat)
    requires Polls(clock, startedAt)
    ensures acquired.Some? <==> exists k: nat | k < attempts :: !taken(k)
    ensures acquired.Some? ==> acquired.value == attempts - 1 && !taken(attempts - 1)
    ensures acquired.None? ==> attempts > 0 && clock(attempts - 1) - startedAt >= LOCK_TIMEOUT_MS
    ensures forall k: nat | k + 1 < attempts :: taken(k) && clock(k) - startedAt < LOCK_TIMEOUT_MS
    ensures attempts <= 501
  {
    attempts := 0;
    while true
      invariant forall k: nat | k < attempts :: taken(k) && clock(k) - startedAt < LOCK_TIMEOUT_MS
      invariant attempts <= 500
      decreases 500 - attempts
    {
      attempts := attempts + 1;
      if !taken(attempts - 1) {
        return Some(attempts - 1), attempts;
      }
      ClockAdvances(clock, startedAt, attempts - 1);
      if clock(attempts - 1) - startedAt >= LOCK_TIMEOUT_MS {
        return None, attempts;
      }
    }
  }
}
