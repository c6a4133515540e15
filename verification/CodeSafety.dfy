/** What the conditional update guarantees by itself: over every run in which items may be
    collected at any time, a code is consumed at most once and only by a request that matches it. */
module CodeSafety {
  import opened Wrappers
  import opened StoreRecords
  import opened AuthorizationCodes
  import opened CodeProtocol

  /** As in the protocol, except that any item may be collected at any time. */
  ghost predicate FreeNext(digest: Digest, s: System, step: Step, s': System, event: Option<Event>) {
    if step.Collect? then s' == s.(table := s.table - {step.hash}) && event == None
    else Next(digest, s, step, s', event)
  }

  ghost predicate StepAt(digest: Digest, states: seq<System>, steps: seq<Step>, events: seq<Option<Event>>, i: nat)
    requires |states| == |steps| + 1 && |events| == |steps| && i < |steps|
  {
    FreeNext(digest, states[i], steps[i], states[i + 1], events[i])
  }

  ghost predicate IsFreeRun(digest: Digest, states: seq<System>, steps: seq<Step>, events: seq<Option<Event>>) {
    && |states| == |steps| + 1 && |events| == |steps|
    && Init(states[0])
    && forall i: nat | i < |steps| :: StepAt(digest, states, steps, events, i)
  }

  // ----- the history of the codes -----

  /** Every code that was created, with the effect of the successful consumptions. */
  function Recorded(codes: Codes, event: Option<Event>): Codes {
    match event
    case Some(Event(CreateOp(hash, input, createdAt), _)) => CreateCode(codes, hash, input, createdAt)
    case Some(Event(ConsumeOp(_, _), Consumed(record))) => codes[record.codeHash := record]
    case _ => codes
  }

  function History(events: seq<Option<Event>>, n: nat): Codes
    requires n <= |events|
  {
    if n == 0 then map[] else Recorded(History(events, n - 1), events[n - 1])
  }

  /** An item holds the recorded code. */
  ghost predicate ItemsRecorded(s: System, codes: Codes) {
    && (forall h | h in s.table ::
          h in codes && s.table[h] == Item(Some(codes[h]), Some(codes[h].expiresAt), codes[h].consumedAt))
    && (forall h | h in codes ::
          h in s.drawn && codes[h].codeHash == h && (codes[h].consumedAt.Some? ==> IsSet(codes[h].consumedAt)))
  }

  ghost predicate FreeInv(digest: Digest, s: System, codes: Codes) {
    s.clock > 0 && ItemsRecorded(s, codes) && CallsTracked(digest, s, codes)
  }

  /** A consumption that succeeds finds the recorded code unconsumed and acceptable. */
  lemma ConsumptionAccepted(digest: Digest, s: System, codes: Codes, p: nat, s': System, event: Option<Event>)
    requires FreeInv(digest, s, codes) && UpdateAction(s, p, s', event) && event.value.reply.Consumed?
    ensures var Validated(record, now) := s.procs[p].phase;
            var ConsumeCall(hash, verifier, expected) := s.procs[p].call;
            && hash in codes && hash in s.table && codes[hash].consumedAt == None && now > 0
            && CodeAccepted(digest, codes[hash], verifier, expected, now)
            && event.value == Event(ConsumeOp(s.procs[p].call, now), Consumed(codes[hash].(consumedAt := Some(now))))
            && Recorded(codes, event) == codes[hash := codes[hash].(consumedAt := Some(now))]
            && s'.table ==
               s.table[hash := Item(Some(Recorded(codes, event)[hash]), Some(codes[hash].expiresAt), Some(now))]
  {
    CallOf(digest, s, codes, p);
  }

  lemma ConsumptionKeepsCalls(digest: Digest, s: System, codes: Codes, p: nat, s': System, event: Option<Event>)
    requires FreeInv(digest, s, codes) && UpdateAction(s, p, s', event) && event.value.reply.Consumed?
    ensures CallsTracked(digest, s', Recorded(codes, event))
  {
    ConsumptionAccepted(digest, s, codes, p, s', event);
    forall q | q in s'.procs
      ensures CallTracked(digest, s', Recorded(codes, event), s'.procs[q].call, s'.procs[q].phase)
    {
      if q != p {
        CallOf(digest, s, codes, q);
        OtherCallTracked(digest, s, s', codes, s.procs[p].call.hash, s.procs[p].phase.now, s.procs[q].call,
            s.procs[q].phase);
      }
    }
  }

  lemma CreationKeepsCalls(digest: Digest, s: System, codes: Codes, p: nat, s': System, event: Option<Event>)
    requires FreeInv(digest, s, codes) && PutAction(s, p, s', event)
    ensures s.procs[p].phase.hash !in codes
    ensures CallsTracked(digest, s', Recorded(codes, event))
  {
    CallOf(digest, s, codes, p);
    forall q | q in s'.procs
      ensures CallTracked(digest, s', Recorded(codes, event), s'.procs[q].call, s'.procs[q].phase)
    {
      CallOf(digest, s, codes, q);
    }
  }

  lemma MoveKeepsCalls(digest: Digest, s: System, codes: Codes, p: nat, s': System)
    requires CallsTracked(digest, s, codes) && p in s'.procs && s.drawn <= s'.drawn && s.clock == s'.clock
    requires s'.procs == s.procs[p := s'.procs[p]]
    requires CallTracked(digest, s', codes, s'.procs[p].call, s'.procs[p].phase)
    requires s'.procs[p].phase.Creating? ==> s'.procs[p].phase.hash !in s.drawn
    ensures CallsTracked(digest, s', codes)
  {
    forall q | q in s.procs ensures CallTracked(digest, s, codes, s.procs[q].call, s.procs[q].phase) {
      CallOf(digest, s, codes, q);
    }
  }

  lemma QuietKeepsFreeInv(digest: Digest, s: System, codes: Codes, step: Step, s': System, event: Option<Event>)
    requires FreeInv(digest, s, codes) && FreeNext(digest, s, step, s', event)
    requires step.Arrive? || step.Draw? || step.Read? || step.Validate?
    ensures FreeInv(digest, s', codes) && Recorded(codes, event) == codes
  {
    if step.p in s.procs {
      CallOf(digest, s, codes, step.p);
    }
    MoveKeepsCalls(digest, s, codes, step.p, s');
  }

  lemma UpdateKeepsFreeInv(digest: Digest, s: System, codes: Codes, p: nat, s': System, event: Option<Event>)
    requires FreeInv(digest, s, codes) && UpdateAction(s, p, s', event)
    ensures FreeInv(digest, s', Recorded(codes, event))
  {
    if event.value.reply.Consumed? {
      ConsumptionAccepted(digest, s, codes, p, s', event);
      ConsumptionKeepsCalls(digest, s, codes, p, s', event);
    } else {
      MoveKeepsCalls(digest, s, codes, p, s');
    }
  }

  lemma StepKeepsFreeInv(digest: Digest, s: System, codes: Codes, step: Step, s': System, event: Option<Event>)
    requires FreeInv(digest, s, codes) && FreeNext(digest, s, step, s', event)
    ensures FreeInv(digest, s', Recorded(codes, event))
  {
    match step {
      case Put(p) => CreationKeepsCalls(digest, s, codes, p, s', event);
      case Update(p) => UpdateKeepsFreeInv(digest, s, codes, p, s', event);
      case Tick(_) =>
      case Collect(_) =>
      case _ => QuietKeepsFreeInv(digest, s, codes, step, s', event);
    }
  }

  lemma {:induction false} RunKeepsFreeInv(digest: Digest, states: seq<System>, steps: seq<Step>,
      events: seq<Option<Event>>, n: nat)
    requires IsFreeRun(digest, states, steps, events) && n <= |steps|
    ensures FreeInv(digest, states[n], History(events, n))
  {
    if n > 0 {
      RunKeepsFreeInv(digest, states, steps, events, n - 1);
      assert StepAt(digest, states, steps, events, n - 1);
      StepKeepsFreeInv(digest, states[n - 1], History(events, n - 1), steps[n - 1], states[n], events[n - 1]);
    }
  }

  // ----- what no step undoes -----

  ghost predicate Spent(codes: Codes, hash: string) {
    hash in codes && IsSet(codes[hash].consumedAt)
  }

  ghost predicate Gone(s: System, codes: Codes, hash: string) {
    hash in codes && hash !in s.table
  }

  lemma StepKeepsSpent(digest: Digest, s: System, codes: Codes, step: Step, s': System, event: Option<Event>,
      hash: string)
    requires FreeInv(digest, s, codes) && FreeNext(digest, s, step, s', event) && Spent(codes, hash)
    ensures Spent(Recorded(codes, event), hash)
  {
    match step {
      case Put(p) => CreationKeepsCalls(digest, s, codes, p, s', event);
      case Update(p) =>
        if event.value.reply.Consumed? {
          ConsumptionAccepted(digest, s, codes, p, s', event);
        }
      case _ =>
    }
  }

  lemma StepKeepsGone(digest: Digest, s: System, codes: Codes, step: Step, s': System, event: Option<Event>,
      hash: string)
    requires FreeInv(digest, s, codes) && FreeNext(digest, s, step, s', event) && Gone(s, codes, hash)
    ensures Gone(s', Recorded(codes, event), hash)
  {
    match step {
      case Put(p) => CreationKeepsCalls(digest, s, codes, p, s', event);
      case Update(p) =>
        if event.value.reply.Consumed? {
          ConsumptionAccepted(digest, s, codes, p, s', event);
        }
      case _ =>
    }
  }

  lemma {:induction false} RunKeepsSpent(digest: Digest, states: seq<System>, steps: seq<Step>,
      events: seq<Option<Event>>, i: nat, j: nat, hash: string)
    requires IsFreeRun(digest, states, steps, events) && i <= j <= |steps| && Spent(History(events, i), hash)
    ensures Spent(History(events, j), hash)
    decreases j - i
  {
    if i < j {
      RunKeepsSpent(digest, states, steps, events, i, j - 1, hash);
      RunKeepsFreeInv(digest, states, steps, events, j - 1);
      assert StepAt(digest, states, steps, events, j - 1);
      StepKeepsSpent(digest, states[j - 1], History(events, j - 1), steps[j - 1], states[j], events[j - 1], hash);
    }
  }

  // ----- results -----

  /** Step `i` completes a successful consumption of the code. */
  ghost predicate ConsumesAt(events: seq<Option<Event>>, i: nat, hash: string) {
    && i < |events| && events[i].Some? && events[i].value.op.ConsumeOp? && events[i].value.reply.Consumed?
    && events[i].value.op.call.ConsumeCall? && events[i].value.op.call.hash == hash
  }

  /** Only an unexpired request with the code's client, redirect, resource, scopes and PKCE verifier
      consumes it, and only its time of consumption changes. */
  lemma OnlyMatchingRequestsConsume(digest: Digest, states: seq<System>, steps: seq<Step>, events: seq<Option<Event>>,
      i: nat, hash: string)
    requires IsFreeRun(digest, states, steps, events) && ConsumesAt(events, i, hash)
    ensures var codes, call, now := History(events, i), events[i].value.op.call, events[i].value.op.now;
            && hash in codes && now > 0
            && var code, expected := codes[hash], call.expected;
            && code.consumedAt == None && code.expiresAt > now
            && code.clientId == expected.clientId && code.redirectUri == expected.redirectUri
            && (expected.resource.Some? ==> code.resource == expected.resource.value)
            && (expected.allowedResources.Some? ==> code.resource in expected.allowedResources.value)
            && (expected.allowedScopes.Some? ==>
                  forall scope | scope in code.scopes :: scope in expected.allowedScopes.value)
            && (code.codeChallenge.Some? && code.codeChallenge.value != "" ==>
                  Proves(digest, call.verifier, code.codeChallenge.value))
            && events[i].value.reply.record == code.(consumedAt := Some(now))
            && History(events, i + 1) == codes[hash := events[i].value.reply.record]
  {
    RunKeepsFreeInv(digest, states, steps, events, i);
    assert StepAt(digest, states, steps, events, i);
    var codes, call := History(events, i), events[i].value.op.call;
    ConsumptionAccepted(digest, states[i], codes, steps[i].p, states[i + 1], events[i]);
    ConsumesIff(digest, codes, hash, call.verifier, call.expected, events[i].value.op.now);
  }

  /** Over every interleaving, with items collected at any time, a code is consumed at most once. */
  lemma ConsumedAtMostOnce(digest: Digest, states: seq<System>, steps: seq<Step>, events: seq<Option<Event>>, i: nat,
      j: nat, hash: string)
    requires IsFreeRun(digest, states, steps, events) && ConsumesAt(events, i, hash) && ConsumesAt(events, j, hash)
    ensures i == j
  {
    var first, second := if i <= j then i else j, if i <= j then j else i;
    if first < second {
      OnlyMatchingRequestsConsume(digest, states, steps, events, first, hash);
      RunKeepsSpent(digest, states, steps, events, first + 1, second, hash);
      OnlyMatchingRequestsConsume(digest, states, steps, events, second, hash);
    }
  }

  lemma {:induction false} SpentBySomeStep(digest: Digest, states: seq<System>, steps: seq<Step>,
      events: seq<Option<Event>>, i: nat, hash: string) returns (k: nat)
    requires IsFreeRun(digest, states, steps, events) && i <= |steps| && Spent(History(events, i), hash)
    ensures k < i && ConsumesAt(events, k, hash)
  {
    assert i > 0;
    if Spent(History(events, i - 1), hash) {
      k := SpentBySomeStep(digest, states, steps, events, i - 1, hash);
    } else {
      k := i - 1;
      RunKeepsFreeInv(digest, states, steps, events, k);
      assert StepAt(digest, states, steps, events, k);
      if steps[k].Update? && events[k].value.reply.Consumed? {
        ConsumptionAccepted(digest, states[k], History(events, k), steps[k].p, states[k + 1], events[k]);
      }
    }
  }

  lemma OnlyCollectionLoses(digest: Digest, s: System, codes: Codes, step: Step, s': System, event: Option<Event>,
      hash: string)
    requires FreeInv(digest, s, codes) && FreeNext(digest, s, step, s', event)
    requires !Gone(s, codes, hash) && Gone(s', Recorded(codes, event), hash)
    ensures step == Collect(hash)
  {
    if step.Update? && event.value.reply.Consumed? {
      ConsumptionAccepted(digest, s, codes, step.p, s', event);
    }
  }

  lemma {:induction false} CollectedBySomeStep(digest: Digest, states: seq<System>, steps: seq<Step>,
      events: seq<Option<Event>>, i: nat, hash: string) returns (k: nat)
    requires IsFreeRun(digest, states, steps, events) && i <= |steps| && Gone(states[i], History(events, i), hash)
    ensures k < i && steps[k] == Collect(hash)
  {
    assert i > 0;
    if Gone(states[i - 1], History(events, i - 1), hash) {
      k := CollectedBySomeStep(digest, states, steps, events, i - 1, hash);
    } else {
      k := i - 1;
      RunKeepsFreeInv(digest, states, steps, events, k);
      assert StepAt(digest, states, steps, events, k);
      OnlyCollectionLoses(digest, states[k], History(events, k), steps[k], states[k + 1], events[k], hash);
    }
  }

  /** Step `i` is an update that fails. */
  ghost predicate LosesAt(steps: seq<Step>, events: seq<Option<Event>>, i: nat, hash: string) {
    && i < |steps| && i < |events| && steps[i].Update?
    && events[i].Some? && events[i].value.op.ConsumeOp? && events[i].value.reply.Refused?
    && events[i].value.op.call.ConsumeCall? && events[i].value.op.call.hash == hash
  }

  /** A request that passed all checks and then fails its update changes nothing, and it lost:
      an earlier request consumed the code, or the code was collected. */
  lemma RefusalHasACause(digest: Digest, states: seq<System>, steps: seq<Step>, events: seq<Option<Event>>, i: nat,
      hash: string)
    requires IsFreeRun(digest, states, steps, events) && LosesAt(steps, events, i, hash)
    ensures states[i + 1].table == states[i].table && History(events, i + 1) == History(events, i)
    ensures (exists k | 0 <= k < i :: ConsumesAt(events, k, hash)) || Collect(hash) in steps[..i]
  {
    RunKeepsFreeInv(digest, states, steps, events, i);
    assert StepAt(digest, states, steps, events, i);
    CallOf(digest, states[i], History(events, i), steps[i].p);
    if Spent(History(events, i), hash) {
      var k := SpentBySomeStep(digest, states, steps, events, i, hash);
    } else {
      var k := CollectedBySomeStep(digest, states, steps, events, i, hash);
      assert steps[..i][k] == Collect(hash);
    }
  }

  /** A collected code is never written again: no conditional update recreates it. */
  lemma {:induction false} CollectedStaysGone(digest: Digest, states: seq<System>, steps: seq<Step>,
      events: seq<Option<Event>>, i: nat, j: nat, hash: string)
    requires IsFreeRun(digest, states, steps, events) && i <= j <= |steps| && Gone(states[i], History(events, i), hash)
    ensures Gone(states[j], History(events, j), hash)
    decreases j - i
  {
    if i < j {
      CollectedStaysGone(digest, states, steps, events, i, j - 1, hash);
      RunKeepsFreeInv(digest, states, steps, events, j - 1);
      assert StepAt(digest, states, steps, events, j - 1);
      StepKeepsGone(digest, states[j - 1], History(events, j - 1), steps[j - 1], states[j], events[j - 1], hash);
    }
  }
}
