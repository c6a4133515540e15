/** What the store operations promise when any number of processes call them on one file that
    starts empty. */
module StoreFileGuarantees {
  import opened StoreRecords
  import opened StoreFileProtocol
  import opened StoreFileRuns
  import StoreOperations
  import StoreHistory
  import StoreReload
  import StoreCodec
  import Json

  function Seconds(clock: int): int {
    clock / 1000
  }

  /** The inputs of each call are well formed for the time at which its callback runs. */
  ghost predicate InputsWellFormed(requests: Requests, states: seq<System>, steps: seq<Step>)
    requires |states| == |steps| + 1
  {
    forall k | 0 <= k < |steps| && steps[k].Compute? ::
      StoreReload.WellFormed(requests(steps[k].c), Seconds(states[k].clock))
  }

  /** A run of store operations on an empty file, after the first second of the epoch, in which no
      two calls draw the same random value. */
  ghost predicate IsStoreRun(effects: Effects, digest: string -> string, requests: Requests, states: seq<System>,
      steps: seq<Step>) {
    && AreOperations(effects, digest, requests) && IsRun(effects, states, steps)
    && states[0].file == EMPTY_STORE && states[0].clock >= 1000
    && InputsWellFormed(requests, states, steps)
    && forall c, d | c != d :: StoreHistory.DrawnApart(requests(c), requests(d))
  }

  // ----- the times of the commits -----

  ghost predicate Fits(requests: Requests, c: nat, time: int, clock: int) {
    0 < time <= Seconds(clock) && StoreReload.WellFormed(requests(c), time)
  }

  /** `times` are those at which the committed callbacks ran, and `pending` that of the callback
      whose result is not yet renamed. */
  ghost predicate TimesTracked(requests: Requests, s: System, times: seq<int>, pending: int) {
    && s.clock >= 1000
    && |times| == |s.commits|
    && (forall j, k | 0 <= j <= k < |times| :: times[j] <= times[k])
    && (forall k | 0 <= k < |times| :: Fits(requests, s.commits[k], times[k], s.clock))
    && (forall c | c in s.calls && s.calls[c].phase.Computed? ::
          Fits(requests, c, pending, s.clock) && forall k | 0 <= k < |times| :: times[k] <= pending)
  }

  lemma OneComputed(s: System, c: nat, d: nat)
    requires LockTracked(s) && c in s.calls && d in s.calls && InLock(s.calls[c].phase) && InLock(s.calls[d].phase)
    ensures c == d
  {
    assert Owns(s.lock, c, s.calls[c].phase) && Owns(s.lock, d, s.calls[d].phase);
  }

  lemma ComputeKeepsTimes(effects: Effects, requests: Requests, s: System, c: nat, s': System, times: seq<int>,
      pending: int)
    requires LockTracked(s) && TimesTracked(requests, s, times, pending) && ComputeAction(effects, s, c, s')
    requires StoreReload.WellFormed(requests(c), Seconds(s.clock))
    ensures TimesTracked(requests, s', times, Seconds(s.clock))
  {
    forall d | d in s'.calls && s'.calls[d].phase.Computed? ensures d == c {
      OneComputed(s, c, d);
    }
  }

  lemma RenameKeepsTimes(requests: Requests, s: System, c: nat, synced: bool, s': System, times: seq<int>, pending: int)
    requires LockTracked(s) && TimesTracked(requests, s, times, pending) && RenameAction(s, c, synced, s')
    ensures TimesTracked(requests, s', times + [pending], pending)
  {
    forall d | d in s'.calls ensures !s'.calls[d].phase.Computed? {
      if d != c && s'.calls[d].phase.Computed? {
        OneComputed(s, c, d);
      }
    }
  }

  lemma FitsLater(requests: Requests, c: nat, time: int, clock: int, later: int)
    requires Fits(requests, c, time, clock) && clock <= later
    ensures Fits(requests, c, time, later)
  {
  }

  lemma OthersKeepTimes(effects: Effects, requests: Requests, s: System, step: Step, s': System, times: seq<int>,
      pending: int)
    requires TimesTracked(requests, s, times, pending) && Next(effects, s, step, s')
    requires !step.Compute? && !step.Rename?
    ensures TimesTracked(requests, s', times, pending)
  {
    assert s'.commits == s.commits && s.clock <= s'.clock;
    forall k | 0 <= k < |times| ensures Fits(requests, s'.commits[k], times[k], s'.clock) {
      FitsLater(requests, s.commits[k], times[k], s.clock, s'.clock);
    }
    forall c | c in s'.calls && s'.calls[c].phase.Computed?
      ensures Fits(requests, c, pending, s'.clock) && forall k | 0 <= k < |times| :: times[k] <= pending
    {
      assert c in s.calls && s.calls[c].phase.Computed?;
      FitsLater(requests, c, pending, s.clock, s'.clock);
    }
  }

  lemma NextKeepsTimes(effects: Effects, requests: Requests, s: System, step: Step, s': System, times: seq<int>,
      pending: int) returns (times': seq<int>, pending': int)
    requires LockTracked(s) && TimesTracked(requests, s, times, pending) && Next(effects, s, step, s')
    requires step.Compute? ==> StoreReload.WellFormed(requests(step.c), Seconds(s.clock))
    ensures TimesTracked(requests, s', times', pending')
  {
    match step {
      case Compute(c) =>
        times', pending' := times, Seconds(s.clock);
        ComputeKeepsTimes(effects, requests, s, c, s', times, pending);
      case Rename(c, synced) =>
        times', pending' := times + [pending], pending;
        RenameKeepsTimes(requests, s, c, synced, s', times, pending);
      case _ =>
        times', pending' := times, pending;
        OthersKeepTimes(effects, requests, s, step, s', times, pending);
    }
  }

  lemma {:induction false} CommitTimes(effects: Effects, digest: string -> string, requests: Requests,
      states: seq<System>, steps: seq<Step>, i: nat) returns (times: seq<int>, pending: int)
    requires IsStoreRun(effects, digest, requests, states, steps) && i <= |steps|
    ensures TimesTracked(requests, states[i], times, pending)
  {
    times, pending := [], 0;
    if i > 0 {
      times, pending := CommitTimes(effects, digest, requests, states, steps, i - 1);
      RunKeepsInv(effects, states, steps, i - 1);
      assert StepAt(effects, states, steps, i - 1);
      times, pending := NextKeepsTimes(effects, requests, states[i - 1], steps[i - 1], states[i], times, pending);
    }
  }

  // ----- the committed requests -----

  lemma {:induction false} RequestedAt(requests: Requests, calls: seq<nat>, k: nat)
    requires k < |calls|
    ensures Requested(requests, calls)[k] == requests(calls[k])
    ensures Requested(requests, calls)[..k] == Requested(requests, calls[..k])
    decreases |calls|
  {
    var n := |calls| - 1;
    if k < n {
      RequestedAt(requests, calls[..n], k);
      assert calls[..n][..k] == calls[..k];
      assert Requested(requests, calls)[..k] == Requested(requests, calls[..n])[..k];
    }
  }

  function Committed(requests: Requests, s: System): seq<StoreOperations.Request> {
    Requested(requests, s.commits)
  }

  lemma TimedRequests(requests: Requests, s: System, times: seq<int>, pending: int)
    requires TimesTracked(requests, s, times, pending)
    ensures StoreReload.WellFormedRun(Committed(requests, s), times)
    ensures forall k | 0 <= k < |times| :: StoreHistory.Timely(Committed(requests, s)[k])
  {
    forall k | 0 <= k < |times|
      ensures StoreReload.WellFormed(Committed(requests, s)[k], times[k])
           && StoreOperations.Callable(Committed(requests, s)[k]) && StoreHistory.Timely(Committed(requests, s)[k])
    {
      assert Fits(requests, s.commits[k], times[k], s.clock);
      RequestedAt(requests, s.commits, k);
    }
  }

  /** The committed requests are a history: their values are distinct and their times are set. */
  lemma CommittedIsHistory(effects: Effects, digest: string -> string, requests: Requests, states: seq<System>,
      steps: seq<Step>, i: nat)
    requires IsStoreRun(effects, digest, requests, states, steps) && i <= |steps|
    ensures StoreHistory.IsHistory(Committed(requests, states[i]))
  {
    var times, pending := CommitTimes(effects, digest, requests, states, steps, i);
    TimedRequests(requests, states[i], times, pending);
    UpdatesAreSerial(effects, states, steps, i);
    var commits := states[i].commits;
    forall k, l | 0 <= k < l < |commits|
      ensures StoreHistory.DrawnApart(Committed(requests, states[i])[k], Committed(requests, states[i])[l])
    {
      RequestedAt(requests, commits, k);
      RequestedAt(requests, commits, l);
    }
  }

  // ----- results -----

  /** At every moment of every run the file reads back as exactly the store it holds. */
  lemma FileAlwaysReloads(syntax: Json.Syntax, effects: Effects, digest: string -> string, requests: Requests,
      states: seq<System>, steps: seq<Step>, i: nat)
    requires IsStoreRun(effects, digest, requests, states, steps) && i <= |steps| && syntax.RoundTrips()
    ensures StoreCodec.Reloads(syntax, states[i].file)
  {
    var times, pending := CommitTimes(effects, digest, requests, states, steps, i);
    TimedRequests(requests, states[i], times, pending);
    StoreIsSequential(effects, digest, requests, states, steps, i);
    StoreReload.ReachableStoresReload(syntax, digest, Committed(requests, states[i]), times);
  }

  /** A call that returned without an error was committed, and its reply by the store as the committed
      calls before it left it is not a failure, unless it stored the revocation of a reused token. */
  lemma ReturnedIsAnswered(effects: Effects, digest: string -> string, requests: Requests, states: seq<System>,
      steps: seq<Step>, i: nat, c: nat) returns (k: nat)
    requires IsStoreRun(effects, digest, requests, states, steps) && i <= |steps|
    requires c in states[i].calls && states[i].calls[c].phase == Settled(true)
    ensures k < |states[i].commits| && states[i].commits[k] == c
    ensures var rs := Committed(requests, states[i]);
            && rs[k] == requests(c)
            && (StoreHistory.ReplyAt(digest, rs, k).Failed? ==>
                  StoreOperations.IsReuse(StoreHistory.Before(digest, rs, k), requests(c)))
  {
    NoUpdateIsLost(effects, states, steps, i, i, c);
    UpdatesAreSerial(effects, states, steps, i);
    var commits := states[i].commits;
    k :| 0 <= k < |commits| && commits[k] == c;
    RequestedAt(requests, commits, k);
    ReplayIsRun(effects, digest, requests, EMPTY_STORE, commits[..k]);
    assert effects(c, Replay(effects, EMPTY_STORE, commits[..k])).Some?;
  }

  /** Of all calls in all processes, at most one consumes an authorization code. */
  lemma OneCallConsumesACode(effects: Effects, digest: string -> string, requests: Requests, states: seq<System>,
      steps: seq<Step>, i: nat, c: nat, d: nat)
    requires IsStoreRun(effects, digest, requests, states, steps) && i <= |steps|
    requires c in states[i].calls && states[i].calls[c].phase == Settled(true) && requests(c).ConsumeCode?
    requires d in states[i].calls && states[i].calls[d].phase == Settled(true) && requests(d).ConsumeCode?
    requires requests(c).hash == requests(d).hash
    ensures c == d
  {
    CommittedIsHistory(effects, digest, requests, states, steps, i);
    var k := ReturnedIsAnswered(effects, digest, requests, states, steps, i, c);
    var l := ReturnedIsAnswered(effects, digest, requests, states, steps, i, d);
    ConsumptionIsAnswered(digest, Committed(requests, states[i]), k);
    ConsumptionIsAnswered(digest, Committed(requests, states[i]), l);
    StoreHistory.CodeConsumedAtMostOnce(digest, Committed(requests, states[i]), k, l, requests(c).hash);
  }

  lemma ConsumptionIsAnswered(digest: string -> string, rs: seq<StoreOperations.Request>, k: nat)
    requires StoreOperations.AllCallable(rs) && k < |rs| && rs[k].ConsumeCode?
    requires StoreHistory.ReplyAt(digest, rs, k).Failed? ==>
               StoreOperations.IsReuse(StoreHistory.Before(digest, rs, k), rs[k])
    ensures StoreHistory.ConsumesAt(digest, rs, k, rs[k].hash)
  {
  }

  /** Call `c` rotated the token. */
  ghost predicate Rotated(digest: string -> string, requests: Requests, s: System, c: nat, hash: string) {
    exists k | 0 <= k < |s.commits| ::
      s.commits[k] == c && StoreHistory.RotatesAt(digest, Committed(requests, s), k, hash)
  }

  /** Of all calls in all processes, at most one rotates a refresh token. */
  lemma OneCallRotatesAToken(effects: Effects, digest: string -> string, requests: Requests, states: seq<System>,
      steps: seq<Step>, i: nat, c: nat, d: nat, hash: string)
    requires IsStoreRun(effects, digest, requests, states, steps) && i <= |steps|
    requires Rotated(digest, requests, states[i], c, hash) && Rotated(digest, requests, states[i], d, hash)
    ensures c == d
  {
    CommittedIsHistory(effects, digest, requests, states, steps, i);
    var rs, commits := Committed(requests, states[i]), states[i].commits;
    var k :| 0 <= k < |commits| && commits[k] == c && StoreHistory.RotatesAt(digest, rs, k, hash);
    var l :| 0 <= l < |commits| && commits[l] == d && StoreHistory.RotatesAt(digest, rs, l, hash);
    StoreHistory.TokenRotatedAtMostOnce(digest, rs, k, l, hash);
  }

  /** After the committed reuse of a token, by whichever process, no call rotates a token of its family. */
  lemma ReuseEndsTheFamily(effects: Effects, digest: string -> string, requests: Requests, states: seq<System>,
      steps: seq<Step>, i: nat, k: nat, l: nat)
    requires IsStoreRun(effects, digest, requests, states, steps) && i <= |steps| && k < l < |states[i].commits|
    requires var rs := Committed(requests, states[i]);
             StoreOperations.IsReuse(StoreHistory.Before(digest, rs, k), rs[k])
                 && rs[l].RotateToken? && StoreHistory.RotatesAt(digest, rs, l, rs[l].rotation.hash)
    ensures var rs := Committed(requests, states[i]);
            StoreHistory.Before(digest, rs, l).refreshTokens[rs[l].rotation.hash].familyId !=
            StoreHistory.Before(digest, rs, k).refreshTokens[rs[k].rotation.hash].familyId
  {
    CommittedIsHistory(effects, digest, requests, states, steps, i);
    var rs := Committed(requests, states[i]);
    StoreHistory.ReuseEndsFamily(digest, rs, k, l, rs[l].rotation.hash);
  }
}
