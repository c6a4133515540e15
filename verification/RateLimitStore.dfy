/** The disk rate-limit store: expired records are pruned, then the algorithm updates one key.
    A refused hit throws before the file is written, so it leaves no trace. */
module RateLimitStore {
  import opened Wrappers
  import opened StoreRecords
  import opened RateLimit
  import opened RateLimitBound

  type Limits = map<string, RateLimitRecord>

  function Lookup(limits: Limits, key: string): Option<RateLimitRecord> {
    if key in limits then Some(limits[key]) else None
  }

  function Prune(limits: Limits, now: int): Limits {
    map k | k in limits && limits[k].expiresAt > now :: limits[k]
  }

  function Hit(limits: Limits, key: string, policy: Policy, now: int): (Limits, bool)
    requires policy.Valid()
  {
    var pruned := Prune(limits, now);
    match NextRateLimitRecord(Lookup(pruned, key), policy, now)
    case Some(record) => (pruned[key := record], true)
    case None => (limits, false)
  }

  // ----- runs -----

  datatype Attempt = Attempt(key: string, now: int)

  /** The policy is fixed per key. */
  type Policies = p: string -> Policy | forall k :: p(k).Valid() witness k => Policy(1, 1)

  function Run(policies: Policies, attempts: seq<Attempt>): Limits {
    if attempts == [] then map[]
    else
      var a := attempts[|attempts| - 1];
      Hit(Run(policies, attempts[..|attempts| - 1]), a.key, policies(a.key), a.now).0
  }

  predicate Accepted(policies: Policies, attempts: seq<Attempt>, i: nat)
    requires i < |attempts|
  {
    Hit(Run(policies, attempts[..i]), attempts[i].key, policies(attempts[i].key), attempts[i].now).1
  }

  /** The times of the accepted hits of one key. */
  function Log(policies: Policies, attempts: seq<Attempt>, key: string): seq<int> {
    if attempts == [] then []
    else
      var n := |attempts| - 1;
      Log(policies, attempts[..n], key) + (if attempts[n].key == key && Accepted(policies, attempts, n)
          then [attempts[n].now] else [])
  }

  ghost predicate ClockNeverGoesBack(attempts: seq<Attempt>) {
    forall i, j | 0 <= i <= j < |attempts| :: attempts[i].now <= attempts[j].now
  }

  // ----- the store agrees with the logs -----

  /** One key's record agrees with its log from the window of time `now` on. */
  ghost predicate KeyTracked(record: Option<RateLimitRecord>, log: seq<int>, policy: Policy, now: int)
    requires policy.Valid()
  {
    var w := policy.windowSeconds;
    && Faithful(record, log, Window(now, w), w)
    && LoggedUpTo(log, Window(now, w), w)
    && (record.Some? ==> record.value.expiresAt % w == 0)
    && Admitted(log, policy)
  }

  lemma TimePasses(record: Option<RateLimitRecord>, log: seq<int>, policy: Policy, now: int,
      later: int)
    requires policy.Valid() && KeyTracked(record, log, policy, now) && now <= later
    ensures KeyTracked(record, log, policy, later)
  {
    WindowMonotone(now, later, policy.windowSeconds);
  }

  lemma PrunedKeyTracked(limits: Limits, key: string, log: seq<int>, policy: Policy, now: int)
    requires policy.Valid() && KeyTracked(Lookup(limits, key), log, policy, now)
    ensures KeyTracked(Lookup(Prune(limits, now), key), log, policy, now)
  {
    if key in limits && limits[key].expiresAt <= now {
      PruningIsFaithful(limits[key], log, Window(now, policy.windowSeconds), policy.windowSeconds, now);
    }
  }

  lemma AlignedExpiry(now: int, w: int)
    requires w > 0
    ensures (Window(now, w) * w + w * 2) % w == 0
  {
    var k := Window(now, w) + 2;
    assert Window(now, w) * w + w * 2 == k * w;
    WindowUnique(k * w, k, w);
    assert k * w == (k * w) / w * w + (k * w) % w;
  }

  lemma AcceptedKeyTracked(record: Option<RateLimitRecord>, log: seq<int>, policy: Policy, now: int)
    requires policy.Valid() && KeyTracked(record, log, policy, now)
    ensures NextRateLimitRecord(record, policy, now).Some? <==> LogAdmits(log, policy, now)
    ensures NextRateLimitRecord(record, policy, now).Some? ==> KeyTracked(NextRateLimitRecord(record, policy, now),
        log + [now], policy, now)
  {
    var w := policy.windowSeconds;
    AcceptedHitIsFaithful(record, log, Window(now, w), policy, now);
    if NextRateLimitRecord(record, policy, now).Some? {
      NextExpiryIsAligned(record, policy, now);
      ExtendAdmitted(log, policy, now);
      assert LoggedUpTo(log + [now], Window(now, w), w);
    }
  }

  lemma NextExpiryIsAligned(record: Option<RateLimitRecord>, policy: Policy, now: int)
    requires policy.Valid() && NextRateLimitRecord(record, policy, now).Some?
    ensures NextRateLimitRecord(record, policy, now).value.expiresAt % policy.windowSeconds == 0
  {
    AlignedExpiry(now, policy.windowSeconds);
  }

  /** After one attempt the record of every key agrees with its log, longer by the hit if it was accepted. */
  lemma AttemptTracked(limits: Limits, a: Attempt, policies: Policies, key: string, log: seq<int>)
    requires KeyTracked(Lookup(limits, key), log, policies(key), a.now)
    ensures var (after, accepted) := Hit(limits, a.key, policies(a.key), a.now);
            var longer := if a.key == key && accepted then log + [a.now] else log;
            KeyTracked(Lookup(after, key), longer, policies(key), a.now)
  {
    PrunedKeyTracked(limits, key, log, policies(key), a.now);
    AcceptedKeyTracked(Lookup(Prune(limits, a.now), key), log, policies(key), a.now);
  }

  /** Every run keeps every key's record in agreement with the full log of its accepted hits. */
  lemma {:induction false} RunTracksLogs(policies: Policies, attempts: seq<Attempt>, key: string, now: int)
    requires ClockNeverGoesBack(attempts) && (attempts == [] || attempts[|attempts| - 1].now <= now)
    ensures KeyTracked(Lookup(Run(policies, attempts), key), Log(policies, attempts, key), policies(key), now)
    decreases |attempts|
  {
    if attempts == [] {
      NoRecordIsFaithful(Window(now, policies(key).windowSeconds), policies(key).windowSeconds);
    } else {
      var n := |attempts| - 1;
      var a := attempts[n];
      var limits := Run(policies, attempts[..n]);
      var log := Log(policies, attempts[..n], key);
      RunTracksLogs(policies, attempts[..n], key, a.now);
      AttemptTracked(limits, a, policies, key, log);
      assert log + [] == log;
      TimePasses(Lookup(Run(policies, attempts), key), Log(policies, attempts, key), policies(key), a.now, now);
    }
  }

  /** Every decision is the one the full log would give: expiry and pruning never change it. */
  lemma DecisionsMatchTheLog(policies: Policies, attempts: seq<Attempt>, i: nat)
    requires ClockNeverGoesBack(attempts) && i < |attempts|
    ensures Accepted(policies, attempts, i) <==>
            LogAdmits(Log(policies, attempts[..i], attempts[i].key), policies(attempts[i].key), attempts[i].now)
  {
    var a := attempts[i];
    RunTracksLogs(policies, attempts[..i], a.key, a.now);
    PrunedKeyTracked(Run(policies, attempts[..i]), a.key, Log(policies, attempts[..i], a.key), policies(a.key), a.now);
    AcceptedKeyTracked(Lookup(Prune(Run(policies, attempts[..i]), a.now), a.key), Log(policies, attempts[..i], a.key),
        policies(a.key), a.now);
  }

  /** Over every run, one key gets at most the maximum in an aligned window and at most twice
      the maximum in any stretch of one window's length. */
  lemma RunsAreBounded(policies: Policies, attempts: seq<Attempt>, key: string, v: int, start: int)
    requires ClockNeverGoesBack(attempts)
    ensures Count(Log(policies, attempts, key), v, policies(key).windowSeconds) <= policies(key).maxRequests
    ensures CountFrom(Log(policies, attempts, key), start, policies(key).windowSeconds) <= 2 * policies(key).maxRequests
  {
    RunTracksLogs(policies, attempts, key, if attempts == [] then 0 else attempts[|attempts| - 1].now);
    AlignedBound(Log(policies, attempts, key), policies(key), v);
    SlidingBound(Log(policies, attempts, key), policies(key), start);
  }
}
