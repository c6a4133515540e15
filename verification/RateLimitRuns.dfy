/** The bounds of the rate limiter on DynamoDB: exactly when a committed write keeps the stored
    record in agreement with the log of accepted hits, and what happens when one does not. */
module RateLimitRuns {
  import opened Wrappers
  import opened StoreRecords
  import opened RateLimit
  import opened RateLimitBound
  import opened RateLimitProtocol

  // ----- the record agrees with the log -----

  function Newest(log: seq<int>, w: int): int
    requires w > 0 && log != []
  {
    Window(log[|log| - 1], w)
  }

  /** The log is the log of the algorithm, and the item, if it is still there, agrees with it from
      the window of the newest hit on. If it is not, no call can sample a time it would matter for. */
  ghost predicate ItemTracked(s: System)
    requires s.policy.Valid()
  {
    var w := s.policy.windowSeconds;
    && Admitted(s.log, s.policy)
    && if s.log == [] then s.item.None? else
         var v := Newest(s.log, w);
         && LoggedUpTo(s.log, v, w)
         && match s.item
            case Some(record) => record.windowStart == v * w && Faithful(s.item, s.log, v, w)
            case None => SamplesFrom(s, v * w + w * 2)
  }

  /** A committed write whose sample is not before the window of the stored record. Every other
      step counts as punctual. */
  ghost predicate Punctual(s: System, step: Step, s': System) {
    step.Write? && step.p in s.calls && s.calls[step.p].phase.Writing? && s'.log != s.log && s.item.Some? ==>
      s.item.value.windowStart <= s.calls[step.p].phase.now
  }

  ghost predicate Commits(s: System, p: nat, s': System)
    requires s.policy.Valid()
  {
    WriteAction(s, p, s') && s'.calls[p].phase == Done(Accepted)
  }

  /** A collected record no longer matters for samples from its expiry on. */
  lemma CollectedIsFaithful(log: seq<int>, v: int, w: int)
    requires w > 0 && LoggedUpTo(log, v, w)
    ensures Faithful(None, log, v + 2, w)
  {
    forall t | v + 2 <= Window(t, w)
      ensures CountersForWindow(None, Window(t, w) * w, w, t) ==
              (Count(log, Window(t, w) - 1, w), Count(log, Window(t, w), w))
    {
      LaterWindowsAreEmpty(log, v, Window(t, w), w);
      LaterWindowsAreEmpty(log, v, Window(t, w) - 1, w);
    }
  }

  lemma WindowFrom(now: int, v: int, w: int)
    requires w > 0 && v * w <= now
    ensures v <= Window(now, w)
  {
    WindowBounds(now, w);
    if Window(now, w) < v {
      StartsApart(Window(now, w), v, w);
    }
  }

  lemma HitKeepsItemTracked(s: System, now: int, v: int, s': System)
    requires s.policy.Valid() && Admitted(s.log, s.policy)
    requires Faithful(s.item, s.log, v, s.policy.windowSeconds) && LoggedUpTo(s.log, v, s.policy.windowSeconds)
    requires v <= Window(now, s.policy.windowSeconds)
    requires s'.item == NextRateLimitRecord(s.item, s.policy, now) && s'.item.Some?
    requires s'.log == s.log + [now] && s'.policy == s.policy
    ensures ItemTracked(s')
  {
    AcceptedHitIsFaithful(s.item, s.log, v, s.policy, now);
    ExtendAdmitted(s.log, s.policy, now);
  }

  lemma CollectedWindow(now: int, v: int, w: int)
    requires w > 0 && v * w + w * 2 <= now
    ensures v + 2 <= Window(now, w)
  {
    assert (v + 2) * w == v * w + w * 2;
    WindowFrom(now, v + 2, w);
  }

  lemma CommitKeepsItemTracked(s: System, p: nat, s': System)
    requires Inv(s) && ItemTracked(s) && Commits(s, p, s') && Punctual(s, Write(p), s')
    ensures ItemTracked(s')
  {
    CommitIsOneAlgorithmStep(s, p, s');
    var w, now := s.policy.windowSeconds, s.calls[p].phase.now;
    if s.log == [] {
      NoRecordIsFaithful(Window(now, w), w);
      HitKeepsItemTracked(s, now, Window(now, w), s');
    } else {
      var v := Newest(s.log, w);
      if s.item.Some? {
        WindowFrom(now, v, w);
        HitKeepsItemTracked(s, now, v, s');
      } else {
        CollectedWindow(now, v, w);
        CollectedIsFaithful(s.log, v, w);
        HitKeepsItemTracked(s, now, v + 2, s');
      }
    }
  }

  /** A late commit: the sample lies in an earlier window than the stored record. */
  lemma LateCommit(s: System, p: nat, s': System)
    requires Inv(s) && ItemTracked(s) && Commits(s, p, s') && !Punctual(s, Write(p), s')
    ensures s.log != [] && s.item.Some?
    ensures var w, now := s.policy.windowSeconds, s.calls[p].phase.now;
            var u := Window(now, w);
            && u < Newest(s.log, w) && s'.log == s.log + [now]
            && s'.item == Some(RateLimitRecord(u * w, 0, 1, u * w + w * 2))
  {
    CommitIsOneAlgorithmStep(s, p, s');
    var w, now := s.policy.windowSeconds, s.calls[p].phase.now;
    var u, v := Window(now, w), Newest(s.log, w);
    WindowBounds(now, w);
    if v <= u {
      Scaled(v, u, w);
    } else {
      StartsApart(u, v, w);
    }
  }

  /** Exactly the punctual commits keep the record in agreement with the log. */
  lemma CommitTrackedIffPunctual(s: System, p: nat, s': System)
    requires Inv(s) && ItemTracked(s) && Commits(s, p, s')
    ensures s'.policy.Valid() && (ItemTracked(s') <==> Punctual(s, Write(p), s'))
  {
    if Punctual(s, Write(p), s') {
      CommitKeepsItemTracked(s, p, s');
    } else {
      LateCommit(s, p, s');
      var n := |s.log|;
      assert s'.log[n - 1] == s.log[n - 1] && s'.log[n] == s.calls[p].phase.now;
    }
  }

  lemma OthersKeepItemTracked(s: System, step: Step, s': System)
    requires Inv(s) && ItemTracked(s) && Next(s, step, s') && s'.log == s.log
    ensures s'.policy.Valid() && ItemTracked(s')
  {
  }

  lemma NextTrackedIffPunctual(s: System, step: Step, s': System)
    requires Inv(s) && ItemTracked(s) && Next(s, step, s')
    ensures s'.policy.Valid() && (ItemTracked(s') <==> Punctual(s, step, s'))
  {
    if step.Write? && s'.calls[step.p].phase == Done(Accepted) {
      CommitTrackedIffPunctual(s, step.p, s');
    } else {
      OthersKeepItemTracked(s, step, s');
    }
  }

  ghost predicate TrackedAt(states: seq<System>, i: nat)
    requires i < |states|
  {
    states[i].policy.Valid() && ItemTracked(states[i])
  }

  ghost predicate PunctualAt(states: seq<System>, steps: seq<Step>, i: nat)
    requires |states| == |steps| + 1 && i < |steps|
  {
    Punctual(states[i], steps[i], states[i + 1])
  }

  lemma StepTrackedIffPunctual(states: seq<System>, steps: seq<Step>, i: nat)
    requires IsRun(states, steps) && i < |steps| && TrackedAt(states, i)
    ensures TrackedAt(states, i + 1) <==> PunctualAt(states, steps, i)
  {
    RunInv(states, steps, i);
    assert StepAt(states, steps, i);
    NextTrackedIffPunctual(states[i], steps[i], states[i + 1]);
  }

  lemma PunctualRunIsTracked(states: seq<System>, steps: seq<Step>, i: nat)
    requires IsRun(states, steps) && i <= |steps|
    requires forall k: nat | k < i :: PunctualAt(states, steps, k)
    ensures TrackedAt(states, i)
  {
    if i > 0 {
      PunctualRunIsTracked(states, steps, i - 1);
      StepTrackedIffPunctual(states, steps, i - 1);
    }
  }

  /** Over a run the record agrees with the log all along exactly when every commit is punctual. */
  lemma RunTrackedIffPunctual(states: seq<System>, steps: seq<Step>)
    requires IsRun(states, steps)
    ensures (forall i: nat | i < |states| :: TrackedAt(states, i)) <==>
            (forall k: nat | k < |steps| :: PunctualAt(states, steps, k))
  {
    if forall k: nat | k < |steps| :: PunctualAt(states, steps, k) {
      forall i: nat | i < |states| ensures TrackedAt(states, i) {
        PunctualRunIsTracked(states, steps, i);
      }
    } else if forall i: nat | i < |states| :: TrackedAt(states, i) {
      forall k: nat | k < |steps| ensures PunctualAt(states, steps, k) {
        assert TrackedAt(states, k) && TrackedAt(states, k + 1);
        StepTrackedIffPunctual(states, steps, k);
      }
    }
  }

  /** With punctual samples the shared limiter keeps the same bounds as the disk one. */
  lemma PunctualRunsAreBounded(states: seq<System>, steps: seq<Step>, i: nat, v: int, start: int)
    requires IsRun(states, steps) && i <= |steps|
    requires forall k: nat | k < |steps| :: PunctualAt(states, steps, k)
    ensures var s := states[i];
            && s.policy.Valid()
            && Count(s.log, v, s.policy.windowSeconds) <= s.policy.maxRequests
            && CountFrom(s.log, start, s.policy.windowSeconds) <= 2 * s.policy.maxRequests
  {
    PunctualRunIsTracked(states, steps, i);
    AlignedBound(states[i].log, states[i].policy, v);
    SlidingBound(states[i].log, states[i].policy, start);
  }

  // ----- paths -----

  function Last(states: seq<System>): System
    requires states != []
  {
    states[|states| - 1]
  }

  /** The path goes on from where the other one ends, and every commit from there on is punctual. */
  ghost predicate Continues(states: seq<System>, steps: seq<Step>, longer: seq<System>, more: seq<Step>) {
    && IsPath(longer, more) && states <= longer && steps <= more
    && forall k: nat | |steps| <= k < |more| :: PunctualAt(longer, more, k)
  }

  lemma ContinuesFurther(states: seq<System>, steps: seq<Step>, longer: seq<System>, more: seq<Step>,
      longest: seq<System>, most: seq<Step>)
    requires IsPath(states, steps) && Continues(states, steps, longer, more)
    requires Continues(longer, more, longest, most)
    ensures Continues(states, steps, longest, most)
  {
    forall k: nat | |steps| <= k < |most| ensures PunctualAt(longest, most, k) {
      if k < |more| {
        assert PunctualAt(longer, more, k);
      }
    }
  }

  lemma Extend(states: seq<System>, steps: seq<Step>, step: Step, s': System)
    requires IsPath(states, steps) && Last(states).policy.Valid() && Next(Last(states), step, s')
    requires Punctual(Last(states), step, s')
    ensures Continues(states, steps, states + [s'], steps + [step])
  {
    var longer, more := states + [s'], steps + [step];
    forall i: nat | i < |more| ensures StepAt(longer, more, i) {
      if i < |steps| {
        assert StepAt(states, steps, i);
      }
    }
  }

  lemma ExtendOnce(states: seq<System>, steps: seq<Step>, longer: seq<System>, more: seq<Step>, step: Step, s': System)
      returns (longest: seq<System>, most: seq<Step>)
    requires IsPath(states, steps) && Continues(states, steps, longer, more)
    requires Last(longer).policy.Valid() && Next(Last(longer), step, s') && Punctual(Last(longer), step, s')
    ensures Continues(states, steps, longest, most) && Last(longest) == s'
  {
    longest, most := longer + [s'], more + [step];
    Extend(longer, more, step, s');
    ContinuesFurther(states, steps, longer, more, longest, most);
  }

  /** A new call that samples, reads and writes without interruption is accepted if the algorithm
      accepts at the clock. */
  lemma OneHit(states: seq<System>, steps: seq<Step>, p: nat) returns (longer: seq<System>, more: seq<Step>)
    requires IsPath(states, steps) && Last(states).policy.Valid() && p !in Last(states).calls
    requires NextRateLimitRecord(Last(states).item, Last(states).policy, Last(states).clock).Some?
    requires Last(states).item.Some? ==> Last(states).item.value.windowStart <= Last(states).clock
    ensures Continues(states, steps, longer, more)
    ensures var s, s' := Last(states), Last(longer);
            && s'.item == NextRateLimitRecord(s.item, s.policy, s.clock) && s'.log == s.log + [s.clock]
            && s'.clock == s.clock && s'.policy == s.policy && s'.calls.Keys == s.calls.Keys + {p}
  {
    var s := Last(states);
    var seen := ReadRecord(s.item, s.clock);
    var s1 := s.(calls := s.calls[p := Call(Sampling(0), |s.log|)]);
    var s2 := To(s1, p, Reading(0, s.clock));
    var s3 := To(s2, p, Writing(0, s.clock, seen, |s.log|));
    var written := NextRateLimitRecord(seen, s.policy, s.clock);
    var s4 := To(s3, p, Done(Accepted)).(item := written, log := s.log + [s.clock]);
    longer, more := ExtendOnce(states, steps, states, steps, Begin(p), s1);
    longer, more := ExtendOnce(states, steps, longer, more, Sample(p), s2);
    longer, more := ExtendOnce(states, steps, longer, more, Read(p), s3);
    longer, more := ExtendOnce(states, steps, longer, more, Write(p), s4);
  }

  lemma AboveAll(keys: set<nat>) returns (p: nat)
    ensures p !in keys && forall k | k in keys :: k < p
    decreases |keys|
  {
    if keys == {} {
      p := 0;
    } else {
      var k :| k in keys;
      var q := AboveAll(keys - {k});
      p := if q <= k then k + 1 else q;
      assert forall j | j in keys :: j == k || j in keys - {k};
    }
  }

  // ----- after a late commit -----

  /** The record `k` accepted hits in window `v` after a late commit in window `u`. */
  function LateRecord(u: int, v: int, k: nat, w: int): RateLimitRecord {
    if k == 0 then RateLimitRecord(u * w, 0, 1, u * w + w * 2)
    else RateLimitRecord(v * w, if u + 1 == v then 1 else 0, k, v * w + w * 2)
  }

  lemma LateRecordCounts(u: int, v: int, k: nat, w: int, t: int)
    requires w > 0 && u < v && v * w <= t < v * w + w
    ensures CountersForWindow(Some(LateRecord(u, v, k, w)), v * w, w, t) == (if u + 1 == v then 1 else 0, k)
  {
    StartsApart(u, v, w);
    if u + 1 == v {
      assert v * w == u * w + w;
    }
  }

  lemma LateRecordAccepts(u: int, v: int, k: nat, policy: Policy, t: int)
    requires policy.Valid() && u < v && k < policy.maxRequests
    requires v * policy.windowSeconds <= t < v * policy.windowSeconds + policy.windowSeconds
    requires u + 1 < v || v * policy.windowSeconds < t || k + 1 < policy.maxRequests
    ensures NextRateLimitRecord(Some(LateRecord(u, v, k, policy.windowSeconds)), policy, t) ==
            Some(LateRecord(u, v, k + 1, policy.windowSeconds))
  {
    var w, m := policy.windowSeconds, policy.maxRequests;
    WindowUnique(t, v, w);
    LateRecordCounts(u, v, k, w, t);
    Scaled(k + 1, m, w);
    assert (k + 1) * w == k * w + w;
    if k + 1 < m {
      Scaled(k + 2, m, w);
      assert (k + 2) * w == k * w + w + w;
    }
  }

  /** The algorithm keeps accepting in window `v` as if nothing had been accepted there before. */
  lemma ManyHits(states: seq<System>, steps: seq<Step>, u: int, v: int, k: nat, n: nat)
    returns (longer: seq<System>, more: seq<Step>)
    requires IsPath(states, steps) && Last(states).policy.Valid()
    requires var s, w := Last(states), Last(states).policy.windowSeconds;
             && u < v && s.item == Some(LateRecord(u, v, k, w)) && v * w <= s.clock < v * w + w
             && k + n <= s.policy.maxRequests
             && (u + 1 < v || v * w < s.clock || k + n < s.policy.maxRequests)
    ensures Continues(states, steps, longer, more)
    ensures var s, s' := Last(states), Last(longer);
            && s'.policy == s.policy && s'.clock == s.clock
            && Count(s'.log, v, s.policy.windowSeconds) == Count(s.log, v, s.policy.windowSeconds) + n
    decreases n
  {
    longer, more := states, steps;
    if n > 0 {
      var s := Last(states);
      var p := AboveAll(s.calls.Keys);
      LateRecordAccepts(u, v, k, s.policy, s.clock);
      var one, first := OneHit(states, steps, p);
      WindowUnique(s.clock, v, s.policy.windowSeconds);
      assert (s.log + [s.clock])[..|s.log|] == s.log;
      longer, more := ManyHits(one, first, u, v, k + 1, n - 1);
      ContinuesFurther(states, steps, one, first, longer, more);
    }
  }

  /** While the item agrees with the log its current count is the number of hits in its window. */
  lemma StoredCount(s: System)
    requires Inv(s) && ItemTracked(s) && s.log != [] && s.item.Some?
    ensures var w := s.policy.windowSeconds; s.item.value.currentCount == Count(s.log, Newest(s.log, w), w) >= 1
  {
    var w := s.policy.windowSeconds;
    var v := Newest(s.log, w);
    WindowUnique(v * w, v, w);
    assert CountersForWindow(s.item, v * w, w, v * w) == (Count(s.log, v - 1, w), Count(s.log, v, w));
  }

  /** The step is a commit from a state that agrees with the log, with a sample from before the
      window of the stored record, while the clock still is in that window. */
  ghost predicate LateAt(states: seq<System>, steps: seq<Step>, i: nat, p: nat) {
    && IsRun(states, steps) && i < |steps| && steps[i] == Write(p)
    && TrackedAt(states, i) && Commits(states[i], p, states[i + 1]) && !PunctualAt(states, steps, i)
    && states[i].item.Some?
    && var stored := states[i].item.value;
    stored.windowStart <= states[i].clock < stored.windowStart + states[i].policy.windowSeconds
  }

  /** More hits can be packed into the stored window than the maximum, except in one corner: windows
      of one second, a single stored hit and a sample from the very second before. */
  predicate CanOverrun(stored: RateLimitRecord, policy: Policy, now: int) {
    policy.windowSeconds > 1 || stored.currentCount > 1 || now + 1 < stored.windowStart
  }

  lemma TickIntoWindow(states: seq<System>, steps: seq<Step>, v: int) returns (longer: seq<System>, more: seq<Step>)
    requires IsPath(states, steps) && Last(states).policy.Valid()
    requires var s, w := Last(states), Last(states).policy.windowSeconds; v * w <= s.clock < v * w + w
    ensures Continues(states, steps, longer, more)
    ensures var s, s', w := Last(states), Last(longer), Last(states).policy.windowSeconds;
            && s' == s.(clock := s'.clock) && v * w <= s'.clock < v * w + w && (w > 1 ==> v * w < s'.clock)
  {
    var s := Last(states);
    var w := s.policy.windowSeconds;
    var time := if s.clock == v * w && w > 1 then s.clock + 1 else s.clock;
    Extend(states, steps, Tick(time), s.(clock := time));
    longer, more := states + [s.(clock := time)], steps + [Tick(time)];
  }

  /** After the late commit the run goes on with punctual commits only, and still more than the maximum
      is accepted in the window of the record that was stored before it. */
  ghost predicate Overruns(states: seq<System>, steps: seq<Step>, longer: seq<System>, more: seq<Step>)
    requires |steps| > 0 && |states| == |steps| + 1 && states[|steps| - 1].item.Some?
  {
    && Continues(states, steps, longer, more)
    && var s := states[|steps| - 1];
    && s.policy.Valid()
    && Count(Last(longer).log, Window(s.item.value.windowStart, s.policy.windowSeconds), s.policy.windowSeconds) >
       s.policy.maxRequests
  }

  /** From every other late commit the run can go on so that it overruns, without the clock leaving
      that window. */
  lemma LateCommitCanExceed(states: seq<System>, steps: seq<Step>, p: nat)
    returns (longer: seq<System>, more: seq<Step>)
    requires |steps| > 0 && LateAt(states, steps, |steps| - 1, p)
    requires var s := states[|steps| - 1]; CanOverrun(s.item.value, s.policy, s.calls[p].phase.now)
    ensures IsRun(longer, more) && Overruns(states, steps, longer, more)
    ensures var w := states[|steps| - 1].policy.windowSeconds;
            Window(Last(longer).clock, w) == Window(states[|steps| - 1].item.value.windowStart, w)
  {
    var i := |steps| - 1;
    var s, s' := states[i], states[i + 1];
    var w, m, now := s.policy.windowSeconds, s.policy.maxRequests, s.calls[p].phase.now;
    var u := Window(now, w);
    RunInv(states, steps, i);
    LateCommit(s, p, s');
    StoredCount(s);
    var v := Newest(s.log, w);
    assert s'.log[..|s.log|] == s.log;
    assert Count(s'.log, v, w) == s.item.value.currentCount;
    longer, more := TickIntoWindow(states, steps, v);
    var n := if u + 1 < v || v * w < Last(longer).clock then m else m - 1;
    if n < m {
      OneSecondBefore(now, v, w);
    }
    assert Last(longer).item == Some(LateRecord(u, v, 0, w));
    WindowUnique(v * w, v, w);
    var burst, hits := ManyHits(longer, more, u, v, 0, n);
    ContinuesFurther(states, steps, longer, more, burst, hits);
    longer, more := burst, hits;
    WindowUnique(Last(longer).clock, v, w);
  }

  lemma OneSecondBefore(now: int, v: int, w: int)
    requires w == 1 && Window(now, w) + 1 == v
    ensures now + 1 == v * w
  {
  }

  // ----- the corner -----

  /** In the corner a reset record counts the late hit in full against second `v`, in the place of the
      stored one. */
  ghost predicate CornerTracked(s: System, policy: Policy, v: int)
    requires policy.Valid() && policy.windowSeconds == 1
  {
    && s.policy == policy && Count(s.log, v, 1) <= policy.maxRequests
    && match s.item
       case None => SamplesFrom(s, v + 1)
       case Some(r) =>
         && (r.windowStart < v ==> r.windowStart == v - 1 && r.currentCount >= 1 && Count(s.log, v, 1) == 1)
         && (r.windowStart == v ==> r.previousCount >= 1 && Count(s.log, v, 1) <= r.currentCount + 1)
  }

  lemma OneSecondWindow(t: int)
    ensures Window(t, 1) == t
  {
    WindowBounds(t, 1);
  }

  lemma CommitKeepsCorner(s: System, p: nat, s': System, v: int)
    requires Inv(s) && Commits(s, p, s') && Punctual(s, Write(p), s')
    requires s.policy.windowSeconds == 1 && CornerTracked(s, s.policy, v)
    ensures CornerTracked(s', s.policy, v)
  {
    var now := s.calls[p].phase.now;
    CommitIsOneAlgorithmStep(s, p, s');
    OneSecondWindow(now);
    assert s'.log[..|s.log|] == s.log;
  }

  lemma NextKeepsCorner(s: System, step: Step, s': System, v: int)
    requires Inv(s) && Next(s, step, s') && Punctual(s, step, s')
    requires s.policy.windowSeconds == 1 && CornerTracked(s, s.policy, v)
    ensures CornerTracked(s', s.policy, v)
  {
    if step.Write? && s'.calls[step.p].phase == Done(Accepted) {
      CommitKeepsCorner(s, step.p, s', v);
    }
  }

  lemma LateCommitStartsCorner(s: System, p: nat, s': System)
    requires Inv(s) && ItemTracked(s) && Commits(s, p, s') && !Punctual(s, Write(p), s')
    requires s.item.Some? && !CanOverrun(s.item.value, s.policy, s.calls[p].phase.now)
    ensures s.policy.windowSeconds == 1 && CornerTracked(s', s.policy, s.item.value.windowStart)
  {
    LateCommit(s, p, s');
    StoredCount(s);
    OneSecondWindow(s.calls[p].phase.now);
    assert s'.log[..|s.log|] == s.log;
  }

  lemma {:induction false} CornerStays(longer: seq<System>, more: seq<Step>, n: nat, i: nat, v: int)
    requires IsRun(longer, more) && n <= i <= |more| && longer[n].policy.Valid()
    requires longer[n].policy.windowSeconds == 1 && CornerTracked(longer[n], longer[n].policy, v)
    requires forall k: nat | n <= k < |more| :: PunctualAt(longer, more, k)
    ensures CornerTracked(longer[i], longer[n].policy, v)
    decreases i
  {
    if n < i {
      CornerStays(longer, more, n, i - 1, v);
      RunInv(longer, more, i - 1);
      assert StepAt(longer, more, i - 1) && PunctualAt(longer, more, i - 1);
      NextKeepsCorner(longer[i - 1], more[i - 1], longer[i], v);
    }
  }

  /** In the corner the stored second keeps to the maximum, however the run goes on with punctual commits. */
  lemma CornerNeverExceeds(states: seq<System>, steps: seq<Step>, p: nat, longer: seq<System>, more: seq<Step>)
    requires |steps| > 0 && LateAt(states, steps, |steps| - 1, p)
    requires var s := states[|steps| - 1]; !CanOverrun(s.item.value, s.policy, s.calls[p].phase.now)
    requires Continues(states, steps, longer, more)
    ensures !Overruns(states, steps, longer, more)
  {
    var s := states[|steps| - 1];
    RunInv(states, steps, |steps| - 1);
    LateCommitStartsCorner(s, p, states[|steps|]);
    assert longer[0] == states[0] && longer[|steps|] == states[|steps|];
    CornerStays(longer, more, |steps|, |more|, s.item.value.windowStart);
    OneSecondWindow(s.item.value.windowStart);
  }

  /** A late commit by itself, with punctual ones after it, can break the bound of the stored window
      exactly outside the corner. */
  lemma LateCommitExceedsIff(states: seq<System>, steps: seq<Step>, p: nat)
    requires |steps| > 0 && LateAt(states, steps, |steps| - 1, p)
    ensures var s := states[|steps| - 1];
            CanOverrun(s.item.value, s.policy, s.calls[p].phase.now) <==>
            exists longer, more :: Overruns(states, steps, longer, more)
  {
    var s := states[|steps| - 1];
    if CanOverrun(s.item.value, s.policy, s.calls[p].phase.now) {
      var longer, more := LateCommitCanExceed(states, steps, p);
    } else {
      forall longer, more ensures !Overruns(states, steps, longer, more) {
        if Continues(states, steps, longer, more) {
          CornerNeverExceeds(states, steps, p, longer, more);
        }
      }
    }
  }

  // ----- one such run -----

  const ONE_IN_TEN := Policy(10, 1)
  const AT_11 := RateLimitRecord(10, 0, 1, 30)
  const AT_5 := RateLimitRecord(0, 0, 1, 20)
  const AT_12 := RateLimitRecord(10, 1, 1, 30)

  function StaleState(item: Option<RateLimitRecord>, clock: int, calls: map<nat, Call>, log: seq<int>): System {
    System(item, clock, ONE_IN_TEN, calls, log)
  }

  /** Call 0 samples at 5, call 1 samples and writes at 11, call 0 reads and writes, and call 2
      samples and writes at 12. */
  function StaleStates(): seq<System> {
    var first, late := Call(Reading(0, 5), 0), Call(Writing(0, 5, Some(AT_11), 1), 0);
    var done, newest := Call(Done(Accepted), 0), Call(Done(Accepted), 2);
    [ StaleState(None, 5, map[], []),
      StaleState(None, 5, map[0 := Call(Sampling(0), 0)], []),
      StaleState(None, 5, map[0 := first], []),
      StaleState(None, 11, map[0 := first], []),
      StaleState(None, 11, map[0 := first, 1 := Call(Sampling(0), 0)], []),
      StaleState(None, 11, map[0 := first, 1 := Call(Reading(0, 11), 0)], []),
      StaleState(None, 11, map[0 := first, 1 := Call(Writing(0, 11, None, 0), 0)], []),
      StaleState(Some(AT_11), 11, map[0 := first, 1 := done], [11]),
      StaleState(Some(AT_11), 11, map[0 := late, 1 := done], [11]),
      StaleState(Some(AT_5), 11, map[0 := done, 1 := done], [11, 5]),
      StaleState(Some(AT_5), 12, map[0 := done, 1 := done], [11, 5]),
      StaleState(Some(AT_5), 12, map[0 := done, 1 := done, 2 := Call(Sampling(0), 2)], [11, 5]),
      StaleState(Some(AT_5), 12, map[0 := done, 1 := done, 2 := Call(Reading(0, 12), 2)], [11, 5]),
      StaleState(Some(AT_5), 12, map[0 := done, 1 := done, 2 := Call(Writing(0, 12, Some(AT_5), 2), 2)], [11, 5]),
      StaleState(Some(AT_12), 12, map[0 := done, 1 := done, 2 := newest], [11, 5, 12])]
  }

  function StaleSteps(): seq<Step> {
    [Begin(0), Sample(0), Tick(11), Begin(1), Sample(1), Read(1), Write(1), Read(0), Write(0),
     Tick(12), Begin(2), Sample(2), Read(2), Write(2)]
  }

  lemma FirstStaleSteps(i: nat)
    requires i < 6
    ensures StepAt(StaleStates(), StaleSteps(), i)
  {
  }

  lemma MiddleStaleSteps(i: nat)
    requires 6 <= i < 8
    ensures StepAt(StaleStates(), StaleSteps(), i)
  {
  }

  lemma LateStaleSteps(i: nat)
    requires 8 <= i < 10
    ensures StepAt(StaleStates(), StaleSteps(), i)
  {
  }

  lemma LastStaleSteps(i: nat)
    requires 10 <= i < 14
    ensures StepAt(StaleStates(), StaleSteps(), i)
  {
  }

  /** Only the write of the call that sampled at 5 is late, but then two hits share an aligned window
      and three lie within ten seconds, although one is allowed. */
  lemma StaleSampleBreaksBothBounds()
    ensures IsRun(StaleStates(), StaleSteps())
    ensures forall k: nat | k < 14 :: PunctualAt(StaleStates(), StaleSteps(), k) <==> k != 8
    ensures var s := StaleStates()[14];
            s.policy.maxRequests == 1 && Count(s.log, 1, 10) == 2 && CountFrom(s.log, 5, 10) == 3
  {
    forall i: nat | i < 14 ensures StepAt(StaleStates(), StaleSteps(), i) {
      if i < 6 {
        FirstStaleSteps(i);
      } else if i < 8 {
        MiddleStaleSteps(i);
      } else if i < 10 {
        LateStaleSteps(i);
      } else {
        LastStaleSteps(i);
      }
    }
    var log := [11, 5, 12];
    assert log[..2] == [11, 5] && [11, 5][..1] == [11] && [11][..0] == [];
    assert Count([11], 1, 10) == 1 && Count([11, 5], 1, 10) == 1;
    assert CountFrom([11], 5, 10) == 1 && CountFrom([11, 5], 5, 10) == 2;
  }
}
