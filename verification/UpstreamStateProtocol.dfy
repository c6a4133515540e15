/** Upstream login states on DynamoDB: a request samples the clock and then deletes the item on
    condition that it is unexpired. Items may be collected at any time. */
module UpstreamStateProtocol {
  import opened StoreRecords
  import opened AuthorizationCodes

  datatype Call = CreateCall(input: StateInput) | ConsumeCall(hash: string)

  datatype Reply = Created(hash: string) | Consumed(record: UpstreamStateRecord) | Refused

  datatype Phase = Arrived | Creating(hash: string, createdAt: int) | Sampled(now: int) | Replied(reply: Reply)

  datatype Process = Process(call: Call, phase: Phase)

  /** `created` and `consumed` record the history; no step reads them. */
  datatype System = System(
    table: States,
    clock: int,
    procs: map<nat, Process>,
    drawn: set<string>,
    created: States,
    consumed: seq<string>)

  datatype Step =
    | Arrive(p: nat, call: Call)
    | Draw(p: nat, hash: string)
    | Put(p: nat)
    | Sample(p: nat)
    | Delete(p: nat)
    | Tick(time: int)
    | Collect(hash: string)

  function To(s: System, p: nat, phase: Phase): System
    requires p in s.procs
  {
    s.(procs := s.procs[p := s.procs[p].(phase := phase)])
  }

  ghost predicate DrawAction(s: System, p: nat, hash: string, s': System) {
    && p in s.procs && s.procs[p].call.CreateCall? && s.procs[p].phase.Arrived? && hash !in s.drawn
    && s' == To(s, p, Creating(hash, s.clock)).(drawn := s.drawn + {hash})
  }

  ghost predicate PutAction(s: System, p: nat, s': System) {
    && p in s.procs && s.procs[p].call.CreateCall? && s.procs[p].phase.Creating?
    && var Creating(hash, createdAt) := s.procs[p].phase;
    && hash !in s.table
    && var record := NewState(hash, s.procs[p].call.input, createdAt);
    && s' == To(s, p, Replied(Created(hash))).(table := s.table[hash := record], created := s.created[hash := record])
  }

  ghost predicate DeleteAction(s: System, p: nat, s': System) {
    && p in s.procs && s.procs[p].call.ConsumeCall? && s.procs[p].phase.Sampled?
    && var hash := s.procs[p].call.hash;
    if hash in s.table && s.table[hash].expiresAt > s.procs[p].phase.now then
      s' == To(s, p, Replied(Consumed(s.table[hash]))).(table := s.table - {hash}, consumed := s.consumed + [hash])
    else
      s' == To(s, p, Replied(Refused))
  }

  ghost predicate Next(s: System, step: Step, s': System) {
    match step
    case Arrive(p, call) => p !in s.procs && s' == s.(procs := s.procs[p := Process(call, Arrived)])
    case Draw(p, hash) => DrawAction(s, p, hash, s')
    case Put(p) => PutAction(s, p, s')
    case Sample(p) =>
      && p in s.procs && s.procs[p].call.ConsumeCall? && s.procs[p].phase.Arrived?
      && s' == To(s, p, Sampled(s.clock))
    case Delete(p) => DeleteAction(s, p, s')
    case Tick(time) => s.clock <= time && s' == s.(clock := time)
    case Collect(hash) => s' == s.(table := s.table - {hash})
  }

  ghost predicate Init(s: System) {
    s.table == map[] && s.procs == map[] && s.drawn == {} && s.created == map[] && s.consumed == []
  }

  ghost predicate StepAt(states: seq<System>, steps: seq<Step>, i: nat)
    requires |states| == |steps| + 1 && i < |steps|
  {
    Next(states[i], steps[i], states[i + 1])
  }

  ghost predicate IsRun(states: seq<System>, steps: seq<Step>) {
    && |states| == |steps| + 1 && Init(states[0])
    && forall i: nat | i < |steps| :: StepAt(states, steps, i)
  }

  // ----- invariant -----

  /** A state is stored, or it was consumed or collected: never stored again. */
  ghost predicate TableTracked(s: System) {
    && (forall h | h in s.table :: h in s.created && s.table[h] == s.created[h] && h !in s.consumed)
    && (forall h | h in s.created :: h in s.drawn)
    && (forall h | h in s.consumed :: h in s.created)
    && (forall i, j | 0 <= i < j < |s.consumed| :: s.consumed[i] != s.consumed[j])
  }

  predicate Fits(proc: Process) {
    match proc.phase
    case Creating(_, _) => proc.call.CreateCall?
    case Sampled(_) => proc.call.ConsumeCall?
    case _ => true
  }

  ghost predicate AllFit(s: System) {
    forall p | p in s.procs :: Fits(s.procs[p])
  }

  ghost predicate CallsTracked(s: System) {
    && AllFit(s)
    && (forall p | p in s.procs && s.procs[p].phase.Creating? ::
          s.procs[p].phase.hash in s.drawn && s.procs[p].phase.hash !in s.created)
    && (forall p, q |
          p in s.procs && q in s.procs && p != q && s.procs[p].phase.Creating? && s.procs[q].phase.Creating? ::
          s.procs[p].phase.hash != s.procs[q].phase.hash)
  }

  lemma NextKeepsTable(s: System, step: Step, s': System)
    requires TableTracked(s) && CallsTracked(s) && Next(s, step, s')
    ensures TableTracked(s')
  {
  }

  lemma NextKeepsFit(s: System, step: Step, s': System)
    requires AllFit(s) && Next(s, step, s')
    ensures AllFit(s')
  {
    forall p | p in s'.procs ensures Fits(s'.procs[p]) {
      if p in s.procs {
        assert Fits(s.procs[p]);
      }
    }
  }

  lemma NextKeepsCalls(s: System, step: Step, s': System)
    requires TableTracked(s) && CallsTracked(s) && Next(s, step, s')
    ensures CallsTracked(s')
  {
    NextKeepsFit(s, step, s');
  }

  /** What no step undoes. */
  ghost predicate Advances(s: System, s': System) {
    && s.consumed <= s'.consumed
    && (forall h | h in s.created :: h in s'.created && s'.created[h] == s.created[h])
    && (forall h | h in s.created && h !in s.table :: h !in s'.table)
  }

  lemma NextAdvances(s: System, step: Step, s': System)
    requires TableTracked(s) && CallsTracked(s) && Next(s, step, s')
    ensures Advances(s, s')
  {
  }

  lemma AdvancesTransitive(a: System, b: System, c: System)
    requires Advances(a, b) && Advances(b, c)
    ensures Advances(a, c)
  {
  }

  lemma {:induction false} RunKeepsInv(states: seq<System>, steps: seq<Step>, i: nat)
    requires IsRun(states, steps) && i <= |steps|
    ensures TableTracked(states[i]) && CallsTracked(states[i])
  {
    if i > 0 {
      RunKeepsInv(states, steps, i - 1);
      assert StepAt(states, steps, i - 1);
      NextKeepsTable(states[i - 1], steps[i - 1], states[i]);
      NextKeepsCalls(states[i - 1], steps[i - 1], states[i]);
    }
  }

  lemma {:induction false} RunAdvances(states: seq<System>, steps: seq<Step>, i: nat, j: nat)
    requires IsRun(states, steps) && i <= j <= |steps|
    ensures Advances(states[i], states[j])
    decreases j - i
  {
    if i < j {
      RunAdvances(states, steps, i, j - 1);
      RunKeepsInv(states, steps, j - 1);
      assert StepAt(states, steps, j - 1);
      NextAdvances(states[j - 1], steps[j - 1], states[j]);
      AdvancesTransitive(states[i], states[j - 1], states[j]);
    }
  }

  // ----- results -----

  /** Step `i` is the conditional delete of a request that sampled `now` and gets this reply. */
  ghost predicate DeletesAt(states: seq<System>, steps: seq<Step>, i: nat, hash: string, now: int, reply: Reply) {
    && |states| == |steps| + 1 && i < |steps| && steps[i].Delete? && steps[i].p in states[i].procs
    && steps[i].p in states[i + 1].procs
    && states[i].procs[steps[i].p] == Process(ConsumeCall(hash), Sampled(now))
    && states[i + 1].procs[steps[i].p].phase == Replied(reply)
  }

  /** A consumption hands out exactly the record that was created, still unexpired at the sampled time. */
  lemma ConsumptionReturnsWhatWasCreated(states: seq<System>, steps: seq<Step>, i: nat,
      hash: string, now: int, record: UpstreamStateRecord)
    requires IsRun(states, steps) && DeletesAt(states, steps, i, hash, now, Consumed(record))
    ensures hash in states[i].created && record == states[i].created[hash] && record.expiresAt > now
    ensures states[i + 1].consumed == states[i].consumed + [hash] && hash !in states[i].consumed
  {
    RunKeepsInv(states, steps, i);
    assert StepAt(states, steps, i);
  }

  /** Over every interleaving a state is consumed at most once. */
  lemma ConsumedAtMostOnce(states: seq<System>, steps: seq<Step>, i: nat, j: nat, hash: string,
      now: int, later: int, first: UpstreamStateRecord, second: UpstreamStateRecord)
    requires IsRun(states, steps) && i <= j
    requires DeletesAt(states, steps, i, hash, now, Consumed(first))
        && DeletesAt(states, steps, j, hash, later, Consumed(second))
    ensures i == j
  {
    if i < j {
      ConsumptionReturnsWhatWasCreated(states, steps, i, hash, now, first);
      RunAdvances(states, steps, i + 1, j);
      assert states[j].consumed[|states[i].consumed|] == hash;
      ConsumptionReturnsWhatWasCreated(states, steps, j, hash, later, second);
    }
  }

  /** Step `k` takes the state out of the table, by collection or by a consumption that hands it out. */
  ghost predicate RemovesAt(states: seq<System>, steps: seq<Step>, k: nat, hash: string) {
    && |states| == |steps| + 1 && k < |steps| && hash in states[k].table
    && (|| steps[k] == Collect(hash)
        || exists now :: DeletesAt(states, steps, k, hash, now, Consumed(states[k].table[hash])))
  }

  lemma {:induction false} RemovedBySomeStep(states: seq<System>, steps: seq<Step>, i: nat, hash: string)
      returns (k: nat)
    requires IsRun(states, steps) && i <= |steps| && hash in states[i].created && hash !in states[i].table
    ensures k < i && RemovesAt(states, steps, k, hash)
  {
    assert i > 0;
    assert StepAt(states, steps, i - 1);
    if hash in states[i - 1].table {
      k := i - 1;
      if steps[k].Delete? {
        var now := states[k].procs[steps[k].p].phase.now;
        assert DeletesAt(states, steps, k, hash, now, Consumed(states[k].table[hash]));
      }
    } else {
      k := RemovedBySomeStep(states, steps, i - 1, hash);
    }
  }

  /** A refused attempt changes nothing, and it has a cause: the state was never created, it had
      expired by the sampled time, or an earlier step consumed or collected it. */
  lemma RefusalHasACause(states: seq<System>, steps: seq<Step>, i: nat, hash: string, now: int)
    requires IsRun(states, steps) && DeletesAt(states, steps, i, hash, now, Refused)
    ensures states[i + 1].table == states[i].table
    ensures || hash !in states[i].created
            || states[i].created[hash].expiresAt <= now
            || exists k | 0 <= k < i :: RemovesAt(states, steps, k, hash)
  {
    RunKeepsInv(states, steps, i);
    assert StepAt(states, steps, i);
    if hash in states[i].created && hash !in states[i].table {
      var k := RemovedBySomeStep(states, steps, i, hash);
    }
  }

  /** A state that was consumed or collected never comes back. */
  lemma GoneStaysGone(states: seq<System>, steps: seq<Step>, i: nat, j: nat, hash: string)
    requires IsRun(states, steps) && i <= j <= |steps|
    requires hash in states[i].created && hash !in states[i].table
    ensures hash !in states[j].table
  {
    RunAdvances(states, steps, i, j);
  }

  /** Whatever the others do, a request without a reply is at most two steps of its own away from one. */
  lemma RequestMovesOn(s: System, p: nat, hash: string) returns (step: Step, s': System)
    requires TableTracked(s) && CallsTracked(s) && p in s.procs && !s.procs[p].phase.Replied? && hash !in s.drawn
    ensures Next(s, step, s') && p in s'.procs
    ensures !s'.procs[p].phase.Arrived? && (!s.procs[p].phase.Arrived? ==> s'.procs[p].phase.Replied?)
  {
    var call := s.procs[p].call;
    assert Fits(s.procs[p]);
    match s.procs[p].phase {
      case Arrived =>
        if call.CreateCall? {
          step, s' := Draw(p, hash), To(s, p, Creating(hash, s.clock)).(drawn := s.drawn + {hash});
        } else {
          step, s' := Sample(p), To(s, p, Sampled(s.clock));
        }
      case Creating(drawnHash, createdAt) =>
        var record := NewState(drawnHash, call.input, createdAt);
        step := Put(p);
        s' := To(s, p, Replied(Created(drawnHash))).(table := s.table[drawnHash := record],
            created := s.created[drawnHash := record]);
      case Sampled(now) =>
        step := Delete(p);
        s' := if call.hash in s.table && s.table[call.hash].expiresAt > now then
                To(s, p, Replied(Consumed(s.table[call.hash]))).(table := s.table - {call.hash},
                    consumed := s.consumed + [call.hash])
              else To(s, p, Replied(Refused));
    }
  }

  /** In every reachable state a request without a reply has a step that brings it closer to one. */
  lemma NoRequestIsStuck(states: seq<System>, steps: seq<Step>, i: nat, p: nat, hash: string)
      returns (step: Step, s': System)
    requires IsRun(states, steps) && i <= |steps|
    requires p in states[i].procs && !states[i].procs[p].phase.Replied? && hash !in states[i].drawn
    ensures Next(states[i], step, s') && p in s'.procs
    ensures !s'.procs[p].phase.Arrived? && (!states[i].procs[p].phase.Arrived? ==> s'.procs[p].phase.Replied?)
  {
    RunKeepsInv(states, steps, i);
    step, s' := RequestMovesOn(states[i], p, hash);
  }
}
