/** Rate limiting one key on DynamoDB: each attempt samples the clock, reads the item and puts
    the next record only if the item has not changed; five failed attempts are a conflict error.
    An expired item may be collected. */
module RateLimitProtocol {
  import opened Wrappers
  import opened StoreRecords
  import opened RateLimit

  const MAX_ATTEMPTS := 5

  datatype Reply = Accepted | Limited | ConflictError

  /** `version` is the number of writes there had been when the item was read. */
  datatype Phase =
    | Sampling(attempt: nat)
    | Reading(attempt: nat, now: int)
    | Writing(attempt: nat, now: int, seen: Option<RateLimitRecord>, version: nat)
    | Done(reply: Reply)

  /** `started` is the number of writes there had been when the call began. */
  datatype Call = Call(phase: Phase, started: nat)

  /** `log` lists the times of the accepted hits in the order of their writes. */
  datatype System = System(
    item: Option<RateLimitRecord>,
    clock: int,
    policy: Policy,
    calls: map<nat, Call>,
    log: seq<int>)

  datatype Step = Begin(p: nat) | Sample(p: nat) | Read(p: nat) | Write(p: nat) | Collect | Tick(time: int)

  /** An item that has expired at the sampled time reads as absent. */
  function ReadRecord(item: Option<RateLimitRecord>, now: int): Option<RateLimitRecord> {
    if item.Some? && item.value.expiresAt > now then item else None
  }

  predicate PutAllowed(item: Option<RateLimitRecord>, seen: Option<RateLimitRecord>, now: int) {
    match seen
    case None => item.None? || item.value.expiresAt <= now
    case Some(r) =>
      item.Some? && item.value.windowStart == r.windowStart && item.value.previousCount == r.previousCount
          && item.value.currentCount == r.currentCount
  }

  function To(s: System, p: nat, phase: Phase): System
    requires p in s.calls
  {
    s.(calls := s.calls[p := s.calls[p].(phase := phase)])
  }

  predicate InFlight(phase: Phase) {
    phase.Reading? || phase.Writing?
  }

  /** No time sampled by a call in flight, nor any to be sampled, lies before `time`. */
  ghost predicate SamplesFrom(s: System, time: int) {
    && time <= s.clock
    && forall p | p in s.calls && InFlight(s.calls[p].phase) :: time <= s.calls[p].phase.now
  }

  ghost predicate Init(s: System) {
    s.item == None && s.policy.Valid() && s.calls == map[] && s.log == []
  }

  ghost predicate BeginAction(s: System, p: nat, s': System) {
    p !in s.calls && s' == s.(calls := s.calls[p := Call(Sampling(0), |s.log|)])
  }

  ghost predicate SampleAction(s: System, p: nat, s': System) {
    p in s.calls && s.calls[p].phase.Sampling? && s' == To(s, p, Reading(s.calls[p].phase.attempt, s.clock))
  }

  ghost predicate ReadAction(s: System, p: nat, s': System)
    requires s.policy.Valid()
  {
    && p in s.calls && s.calls[p].phase.Reading?
    && var Reading(attempt, now) := s.calls[p].phase;
    && var seen := ReadRecord(s.item, now);
    && s' == To(s, p, if NextRateLimitRecord(seen, s.policy, now).None? then Done(Limited)
        else Writing(attempt, now, seen, |s.log|))
  }

  ghost predicate WriteAction(s: System, p: nat, s': System)
    requires s.policy.Valid()
  {
    && p in s.calls && s.calls[p].phase.Writing?
    && var Writing(attempt, now, seen, _) := s.calls[p].phase;
    if PutAllowed(s.item, seen, now) then
      s' == To(s, p, Done(Accepted)).(item := NextRateLimitRecord(seen, s.policy, now), log := s.log + [now])
    else
      s' == To(s, p, if attempt + 1 < MAX_ATTEMPTS then Sampling(attempt + 1) else Done(ConflictError))
  }

  /** Expiry collection removes the item once it has expired for every call in flight. */
  ghost predicate CollectAction(s: System, s': System) {
    && s.item.Some? && SamplesFrom(s, s.item.value.expiresAt)
    && s' == s.(item := None)
  }

  ghost predicate Next(s: System, step: Step, s': System)
    requires s.policy.Valid()
  {
    match step
    case Begin(p) => BeginAction(s, p, s')
    case Sample(p) => SampleAction(s, p, s')
    case Read(p) => ReadAction(s, p, s')
    case Write(p) => WriteAction(s, p, s')
    case Collect => CollectAction(s, s')
    case Tick(time) => s.clock <= time && s' == s.(clock := time)
  }

  // ----- invariant -----

  ghost predicate WellShaped(item: Option<RateLimitRecord>, w: int) {
    item.Some? ==> item.value.expiresAt == item.value.windowStart + w * 2
  }

  /** A call in its attempt `k` has seen at least `k` other writes; if none came since its read,
      the item still is the one it read. */
  ghost predicate CallTracked(s: System, call: Call)
    requires s.policy.Valid()
  {
    match call.phase
    case Sampling(attempt) => call.started + attempt <= |s.log| && attempt < MAX_ATTEMPTS
    case Reading(attempt, _) => call.started + attempt <= |s.log| && attempt < MAX_ATTEMPTS
    case Writing(attempt, now, seen, version) =>
      && call.started + attempt <= version <= |s.log| && attempt < MAX_ATTEMPTS
      && WellShaped(seen, s.policy.windowSeconds)
      && ReadRecord(seen, now) == seen
      && NextRateLimitRecord(seen, s.policy, now).Some?
      && (version == |s.log| ==> seen == ReadRecord(s.item, now))
    case Done(reply) => reply.ConflictError? ==> call.started + MAX_ATTEMPTS <= |s.log|
  }

  ghost predicate Inv(s: System) {
    && s.policy.Valid()
    && WellShaped(s.item, s.policy.windowSeconds)
    && forall p | p in s.calls :: CallTracked(s, s.calls[p])
  }

  lemma InitInv(s: System)
    requires Init(s)
    ensures Inv(s)
  {
  }

  lemma NextInv(s: System, step: Step, s': System)
    requires Inv(s) && Next(s, step, s')
    ensures Inv(s')
  {
  }

  /** Every committed write is one step of the algorithm on the record stored at that moment. */
  lemma CommitIsOneAlgorithmStep(s: System, p: nat, s': System)
    requires Inv(s) && WriteAction(s, p, s') && s'.calls[p].phase == Done(Accepted)
    ensures s'.item == NextRateLimitRecord(s.item, s.policy, s.calls[p].phase.now) && s'.item.Some?
    ensures s'.log == s.log + [s.calls[p].phase.now]
  {
  }

  /** A refusal is the algorithm's refusal of the record stored when it was read. */
  lemma RefusalIsOneAlgorithmStep(s: System, p: nat, s': System)
    requires Inv(s) && ReadAction(s, p, s') && s'.calls[p].phase == Done(Limited)
    ensures NextRateLimitRecord(s.item, s.policy, s.calls[p].phase.now) == None && s'.item == s.item
  {
  }

  // ----- runs -----

  ghost predicate StepAt(states: seq<System>, steps: seq<Step>, i: nat)
    requires |states| == |steps| + 1 && i < |steps|
  {
    states[i].policy.Valid() && Next(states[i], steps[i], states[i + 1])
  }

  ghost predicate IsPath(states: seq<System>, steps: seq<Step>) {
    && |states| == |steps| + 1
    && forall i: nat | i < |steps| :: StepAt(states, steps, i)
  }

  ghost predicate IsRun(states: seq<System>, steps: seq<Step>) {
    IsPath(states, steps) && Init(states[0])
  }

  lemma {:induction false} RunInv(states: seq<System>, steps: seq<Step>, i: nat)
    requires IsRun(states, steps) && i <= |steps|
    ensures Inv(states[i])
  {
    if i == 0 {
      InitInv(states[0]);
    } else {
      RunInv(states, steps, i - 1);
      assert StepAt(states, steps, i - 1);
      NextInv(states[i - 1], steps[i - 1], states[i]);
    }
  }

  function AcceptedCalls(s: System): set<nat> {
    set p | p in s.calls && s.calls[p].phase == Done(Accepted)
  }

  /** Nothing but a committed write extends the log, and nothing else but collection touches the item. */
  lemma OnlyCommitsWrite(s: System, step: Step, s': System)
    requires Inv(s) && Next(s, step, s')
    ensures if s'.log == s.log then
              AcceptedCalls(s') == AcceptedCalls(s) && (s'.item == s.item || (step.Collect? && s'.item == None))
            else
              && step.Write? && step.p !in AcceptedCalls(s) && AcceptedCalls(s') == AcceptedCalls(s) + {step.p}
              && |s'.log| == |s.log| + 1
  {
  }

  /** Over every run the log holds one hit for each accepted call, and no other. */
  lemma {:induction false} EveryAcceptedCallIsLoggedOnce(states: seq<System>, steps: seq<Step>, i: nat)
    requires IsRun(states, steps) && i <= |steps|
    ensures |states[i].log| == |AcceptedCalls(states[i])|
  {
    if i > 0 {
      EveryAcceptedCallIsLoggedOnce(states, steps, i - 1);
      RunInv(states, steps, i - 1);
      assert StepAt(states, steps, i - 1);
      OnlyCommitsWrite(states[i - 1], steps[i - 1], states[i]);
    }
  }

  /** A conflict error means that at least five other hits on the key were written during the call. */
  lemma ConflictMeansFiveOtherWrites(states: seq<System>, steps: seq<Step>, i: nat, p: nat)
    requires IsRun(states, steps) && i <= |steps|
    requires p in states[i].calls && states[i].calls[p].phase == Done(ConflictError)
    ensures |states[i].log| >= states[i].calls[p].started + 5
  {
    RunInv(states, steps, i);
    assert CallTracked(states[i], states[i].calls[p]);
  }

  // ----- nothing gets stuck -----

  /** How many steps of its own a call is away from its reply, at most. */
  function StepsLeft(phase: Phase): nat {
    match phase
    case Sampling(attempt) => if attempt < MAX_ATTEMPTS then (MAX_ATTEMPTS - attempt) * 3 else 3
    case Reading(attempt, _) => if attempt < MAX_ATTEMPTS then (MAX_ATTEMPTS - attempt) * 3 - 1 else 2
    case Writing(attempt, _, _, _) => if attempt < MAX_ATTEMPTS then (MAX_ATTEMPTS - attempt) * 3 - 2 else 1
    case Done(_) => 0
  }

  /** Whatever the others do, a call without a reply has a step that brings it closer to one: after at
      most five attempts it is answered. */
  lemma CallMovesOn(s: System, p: nat) returns (step: Step, s': System)
    requires Inv(s) && p in s.calls && !s.calls[p].phase.Done?
    ensures Next(s, step, s') && p in s'.calls
    ensures StepsLeft(s'.calls[p].phase) < StepsLeft(s.calls[p].phase)
  {
    assert CallTracked(s, s.calls[p]);
    match s.calls[p].phase {
      case Sampling(attempt) => step, s' := Sample(p), To(s, p, Reading(attempt, s.clock));
      case Reading(attempt, now) =>
        var seen := ReadRecord(s.item, now);
        step := Read(p);
        s' := To(s, p, if NextRateLimitRecord(seen, s.policy, now).None? then Done(Limited)
                       else Writing(attempt, now, seen, |s.log|));
      case Writing(attempt, now, seen, _) =>
        step := Write(p);
        s' := if PutAllowed(s.item, seen, now) then
                To(s, p, Done(Accepted)).(item := NextRateLimitRecord(seen, s.policy, now), log := s.log + [now])
              else To(s, p, if attempt + 1 < MAX_ATTEMPTS then Sampling(attempt + 1) else Done(ConflictError));
    }
  }
}
