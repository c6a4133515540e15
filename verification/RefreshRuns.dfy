/** Whole runs of the DynamoDB protocol, and what clients can conclude from them. */
module RefreshRuns {
  import opened Wrappers
  import opened RefreshTokens
  import opened FamilyChain
  import opened FamilyHistory
  import opened RefreshProtocol
  import opened RefreshInvariant
  import opened RefreshRefinement

  lemma RefusalKeepsChains(disk: Tokens, chains: Chains, event: Event)
    requires Matches(disk, event) && event.reply == None
    ensures ChainsAfter(disk, chains, event.op) == chains
  {
  }

  lemma RefusalRefines(disk: Tokens, chains: Chains, s': System, event: Option<Event>)
    requires Unchanging(disk, event) && Inv(s', disk, chains)
    requires event.Some? ==> event.value.op.RotateOp? && event.value.reply == None
    ensures Refines(disk, chains, s', event)
  {
    if event.Some? {
      RefusalKeepsChains(disk, chains, event.value);
    }
  }

  lemma ReadTokenRefines(s: System, disk: Tokens, chains: Chains, p: nat, s': System,
      event: Option<Event>)
    requires Inv(s, disk, chains) && ReadTokenAction(s, p, s', event)
    ensures Refines(disk, chains, s', event)
  {
    ChainedIsStamped(disk, chains);
    ReadTokenReplies(s, disk, p, s', event);
    ReadTokenStep(s, disk, chains, p, s', event);
    RefusalRefines(disk, chains, s', event);
  }

  lemma SampleClockRefines(s: System, disk: Tokens, chains: Chains, p: nat, s': System,
      event: Option<Event>)
    requires Inv(s, disk, chains) && SampleClockAction(s, p, s', event)
    ensures Refines(disk, chains, s', event)
  {
    SampleClockReplies(s, disk, p, s', event);
    SampleClockStep(s, disk, chains, p, s', event);
    RefusalRefines(disk, chains, s', event);
  }

  lemma ReadFamilyRefines(s: System, disk: Tokens, chains: Chains, p: nat, s': System,
      event: Option<Event>)
    requires Inv(s, disk, chains) && ReadFamilyAction(s, p, s', event)
    ensures Refines(disk, chains, s', event)
  {
    ChainedIsStamped(disk, chains);
    ReadFamilyReplies(s, disk, p, s', event);
    ReadFamilyStep(s, disk, chains, p, s', event);
    RefusalRefines(disk, chains, s', event);
  }

  lemma TransactRefines(s: System, disk: Tokens, chains: Chains, p: nat, s': System,
      event: Option<Event>)
    requires Inv(s, disk, chains) && TransactAction(s, p, s', event)
    ensures Refines(disk, chains, s', event)
  {
    match event {
      case None => TransactFails(s, disk, chains, p, s', event);
      case Some(e) =>
        ChainedIsStamped(disk, chains);
        TransactSucceeds(s, disk, p, s', event);
        TransactStep(s, disk, chains, p, s', event);
    }
  }

  lemma RevokeRefines(s: System, disk: Tokens, chains: Chains, p: nat, s': System,
      event: Option<Event>)
    requires Inv(s, disk, chains) && RevokeAction(s, p, s', event)
    ensures Refines(disk, chains, s', event)
  {
    ChainedIsStamped(disk, chains);
    RevokeFacts(s, disk, p, s', event);
    RevokeStep(s, disk, chains, p, s', event);
    RefusalKeepsChains(disk, chains, event.value);
  }

  lemma WriteNewRefines(s: System, disk: Tokens, chains: Chains, p: nat, s': System,
      event: Option<Event>)
    requires Inv(s, disk, chains) && WriteNewAction(s, p, s', event)
    ensures Refines(disk, chains, s', event)
  {
    WriteNewSucceeds(s, disk, p, s', event);
    WriteNewStep(s, disk, chains, p, s', event);
  }

  /** Collecting an item that has expired for every request in flight loses nothing. */
  lemma CollectRefines(s: System, disk: Tokens, chains: Chains, key: string, s': System,
      event: Option<Event>)
    requires Inv(s, disk, chains)
    requires CollectTokenAction(s, key, s', event) || CollectFamilyAction(s, key, s', event)
        || CollectMarkerAction(s, key, s', event)
    ensures Refines(disk, chains, s', event)
  {
    CollectedTable(s, disk, key, s', event);
    CollectedKeepsInv(s, s', disk, chains);
  }

  /** Every step of every request refines the disk store. */
  lemma StepRefines(s: System, disk: Tokens, chains: Chains, step: Step, s': System,
      event: Option<Event>)
    requires Inv(s, disk, chains) && Next(s, step, s', event)
    ensures Refines(disk, chains, s', event)
  {
    match step {
      case Arrive(p, call) => ArriveStep(s, disk, chains, p, call, s', event);
      case ReadToken(p) => ReadTokenRefines(s, disk, chains, p, s', event);
      case SampleClock(p) => SampleClockRefines(s, disk, chains, p, s', event);
      case ReadFamily(p) => ReadFamilyRefines(s, disk, chains, p, s', event);
      case ReadMarker(p, newHash) => ReadMarkerStep(s, disk, chains, p, newHash, s', event);
      case Transact(p) => TransactRefines(s, disk, chains, p, s', event);
      case Revoke(p) => RevokeRefines(s, disk, chains, p, s', event);
      case DrawTokens(p, hash, familyId) => DrawTokensStep(s, disk, chains, p, hash, familyId, s', event);
      case WriteNew(p) => WriteNewRefines(s, disk, chains, p, s', event);
      case Tick(time) => TickStep(s, disk, chains, time, s', event);
      case CollectToken(hash) => CollectRefines(s, disk, chains, hash, s', event);
      case CollectFamily(familyId) => CollectRefines(s, disk, chains, familyId, s', event);
      case CollectMarker(hash) => CollectRefines(s, disk, chains, hash, s', event);
    }
  }

  ghost predicate StepAt(states: seq<System>, steps: seq<Step>, events: seq<Option<Event>>, i: nat)
    requires |states| == |steps| + 1 && |events| == |steps| && i < |steps|
  {
    Next(states[i], steps[i], states[i + 1], events[i])
  }

  /** A run: states one longer than the steps between them, with the events the steps completed. */
  ghost predicate IsRun(states: seq<System>, steps: seq<Step>, events: seq<Option<Event>>) {
    && |states| == |steps| + 1 && |events| == |steps|
    && Init(states[0])
    && forall i: nat | i < |steps| :: StepAt(states, steps, events, i)
  }

  /** The completed operations of a run, in the order in which they took effect. */
  function History(events: seq<Option<Event>>): seq<Event> {
    if events == [] then []
    else
      var before := History(events[..|events| - 1]);
      match events[|events| - 1]
      case None => before
      case Some(e) => before + [e]
  }

  function Operations(history: seq<Event>): (ops: seq<Operation>)
    ensures |ops| == |history| && forall i | 0 <= i < |history| :: ops[i] == history[i].op
  {
    if history == [] then [] else Operations(history[..|history| - 1]) + [history[|history| - 1].op]
  }

  /** Run one after the other on the disk store, the operations give the same replies. */
  ghost predicate ExplainedBy(history: seq<Event>) {
    && FreshRun(Operations(history))
    && forall i | 0 <= i < |history| :: Response(OutcomeAt(Operations(history), i)) == history[i].reply
  }

  lemma OneMoreOperation(ops: seq<Operation>, op: Operation, i: nat)
    requires i <= |ops|
    ensures (ops + [op])[..i] == ops[..i]
    ensures i < |ops| ==> OutcomeAt(ops + [op], i) == OutcomeAt(ops, i)
  {
  }

  lemma ExtendRun(ops: seq<Operation>, op: Operation)
    requires FreshRun(ops) && Fresh(Replay(map[], ops), op)
    ensures FreshRun(ops + [op])
  {
    forall i | 0 <= i < |ops + [op]| ensures Fresh(Replay(map[], (ops + [op])[..i]), (ops + [op])[i]) {
      OneMoreOperation(ops, op, i);
      if i == |ops| {
        assert ops[..i] == ops;
      }
    }
  }

  lemma OperationsExtend(history: seq<Event>, e: Event)
    ensures Operations(history + [e]) == Operations(history) + [e.op]
  {
    assert (history + [e])[..|history|] == history;
  }

  lemma RepliesExtend(history: seq<Event>, e: Event)
    requires ExplainedBy(history) && Matches(Replay(map[], Operations(history)), e)
    ensures ExplainedBy(history + [e])
  {
    var ops := Operations(history);
    OperationsExtend(history, e);
    ExtendRun(ops, e.op);
    forall i | 0 <= i < |history + [e]| ensures Response(OutcomeAt(ops + [e.op], i)) == (history + [e])[i].reply {
      OneMoreOperation(ops, e.op, i);
      if i < |ops| {
        assert Response(OutcomeAt(ops, i)) == history[i].reply;
      }
    }
  }

  lemma ReplayExtends(ops: seq<Operation>, op: Operation)
    ensures Replay(map[], ops + [op]) == Apply(Replay(map[], ops), op).0
    ensures ChainsOf(ops + [op]) == ChainsAfter(Replay(map[], ops), ChainsOf(ops), op)
  {
    assert (ops + [op])[..|ops|] == ops;
  }

  lemma InitIsTracked(s: System)
    requires Init(s)
    ensures Inv(s, map[], map[])
  {
  }

  ghost predicate TracksDisk(s: System, history: seq<Event>) {
    ExplainedBy(history) && Inv(s, Replay(map[], Operations(history)), ChainsOf(Operations(history)))
  }

  lemma StepTracksDisk(s: System, step: Step, s': System, event: Option<Event>, history: seq<Event>)
    requires TracksDisk(s, history) && Next(s, step, s', event)
    ensures TracksDisk(s', if event.Some? then history + [event.value] else history)
  {
    StepRefines(s, Replay(map[], Operations(history)), ChainsOf(Operations(history)), step, s', event);
    if event.Some? {
      RepliesExtend(history, event.value);
      OperationsExtend(history, event.value);
      ReplayExtends(Operations(history), event.value.op);
    }
  }

  lemma HistoryStep(events: seq<Option<Event>>, i: nat)
    requires i < |events|
    ensures History(events[..i + 1]) ==
            if events[i].Some? then History(events[..i]) + [events[i].value] else History(events[..i])
  {
    assert events[..i + 1][..i] == events[..i];
  }

  lemma NextTracksDisk(states: seq<System>, steps: seq<Step>, events: seq<Option<Event>>, i: nat)
    requires IsRun(states, steps, events) && i < |steps| && TracksDisk(states[i], History(events[..i]))
    ensures TracksDisk(states[i + 1], History(events[..i + 1]))
  {
    assert StepAt(states, steps, events, i);
    StepTracksDisk(states[i], steps[i], states[i + 1], events[i], History(events[..i]));
    HistoryStep(events, i);
  }

  /** The shared table always holds what the disk store would hold after the completed operations. */
  lemma {:induction false} RunTracksDisk(states: seq<System>, steps: seq<Step>, events: seq<Option<Event>>, n: nat)
    requires IsRun(states, steps, events) && n <= |steps|
    ensures TracksDisk(states[n], History(events[..n]))
  {
    if n == 0 {
      InitIsTracked(states[0]);
    } else {
      RunTracksDisk(states, steps, events, n - 1);
      NextTracksDisk(states, steps, events, n - 1);
    }
  }

  /** Any interleaving of any number of requests, with expired items collected in between, is
      explained by running its completed operations one at a time on the disk store. */
  lemma RunRefinesDisk(states: seq<System>, steps: seq<Step>, events: seq<Option<Event>>)
    requires IsRun(states, steps, events)
    ensures ExplainedBy(History(events))
  {
    RunTracksDisk(states, steps, events, |steps|);
    assert events[..|steps|] == events;
  }

  lemma {:induction false} SuccessOnDisk(history: seq<Event>, i: nat)
    requires ExplainedBy(history) && i < |history| && history[i].op.RotateOp?
    ensures history[i].reply.Some? <==> OutcomeAt(Operations(history), i).Rotated?
  {
    assert Response(OutcomeAt(Operations(history), i)) == history[i].reply;
  }

  /** Over every interleaving a request is answered with a rotation exactly when the token it presents
      is stored, unrevoked, unexpired and its client's own, its resource is the one expected and among
      those allowed, and no token was rotated from it. */
  lemma RotationsFollowTheFields(states: seq<System>, steps: seq<Step>, events: seq<Option<Event>>, i: nat)
    requires IsRun(states, steps, events) && i < |History(events)| && History(events)[i].op.RotateOp?
    ensures var ops := Operations(History(events));
            var tokens, request, now := Replay(map[], ops[..i]), ops[i].request, ops[i].now;
            History(events)[i].reply.Some? <==>
              && request.hash in tokens
              && var record := tokens[request.hash];
              && (record.revokedAt == None || record.revokedAt == Some(0))
              && record.expiresAt > now
              && record.clientId == request.clientId
              && (request.expectedResource.Some? ==> record.resource == request.expectedResource.value)
              && (request.allowedResources.Some? ==> record.resource in request.allowedResources.value)
              && forall k | k in tokens :: tokens[k].rotatedFromHash != Some(request.hash)
  {
    RunRefinesDisk(states, steps, events);
    SuccessOnDisk(History(events), i);
    var ops := Operations(History(events));
    RotatesIff(Replay(map[], ops[..i]), ops[i].request, ops[i].now, ops[i].newHash);
  }

  /** Over every interleaving no token is rotated twice, although markers are collected. */
  lemma NoTokenRotatedTwice(states: seq<System>, steps: seq<Step>, events: seq<Option<Event>>,
      i: nat, j: nat)
    requires IsRun(states, steps, events)
    requires i < |History(events)| && j < |History(events)|
    requires History(events)[i].op.RotateOp? && History(events)[i].reply.Some?
    requires History(events)[j].op.RotateOp? && History(events)[j].reply.Some?
    requires History(events)[i].op.request.hash == History(events)[j].op.request.hash
    ensures i == j
  {
    RunRefinesDisk(states, steps, events);
    SuccessOnDisk(History(events), i);
    SuccessOnDisk(History(events), j);
    TokenRotatesAtMostOnce(Operations(History(events)), i, j);
  }

  /** Once a rotated token has been replayed over DynamoDB, no token of its family is accepted again. */
  lemma ReplayEndsFamilyInEveryRun(states: seq<System>, steps: seq<Step>,
      events: seq<Option<Event>>, i: nat, j: nat)
    requires IsRun(states, steps, events)
    requires ReplayedAt(Operations(History(events)), i) && i <= j < |History(events)|
    requires History(events)[j].op.RotateOp? && History(events)[j].reply.Some?
    ensures var ops := Operations(History(events));
            && ops[j].request.hash in Replay(map[], ops[..j])
            && Replay(map[], ops[..j])[ops[j].request.hash].familyId !=
               Replay(map[], ops[..i])[ops[i].request.hash].familyId
  {
    RunRefinesDisk(states, steps, events);
    SuccessOnDisk(History(events), j);
    ReplayEndsFamily(Operations(History(events)), i, j);
  }

  /** In every reachable state a request without a reply has a step that brings it closer to one. */
  lemma NoRequestIsStuck(states: seq<System>, steps: seq<Step>, events: seq<Option<Event>>, i: nat, p: nat,
      hash: string, familyId: string) returns (step: Step, s': System, event: Option<Event>)
    requires IsRun(states, steps, events) && i <= |steps|
    requires p in states[i].procs && !states[i].procs[p].phase.Replied?
    requires hash !in states[i].drawn && familyId !in states[i].drawn
    ensures Next(states[i], step, s', event)
    ensures p in s'.procs && StepsLeft(s'.procs[p].phase) < StepsLeft(states[i].procs[p].phase)
  {
    RunTracksDisk(states, steps, events, i);
    CallOf(states[i], Replay(map[], Operations(History(events[..i]))), p);
    step, s', event := RequestMovesOn(states[i], p, hash, familyId);
  }
}
