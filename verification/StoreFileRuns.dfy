/** What the file protocol guarantees over whole runs. */
module StoreFileRuns {
  import opened Wrappers
  import opened StoreRecords
  import opened StoreFileProtocol
  import StoreOperations

  /** The commits of one process are in the order in which it issued the calls. */
  ghost predicate OrderTracked(s: System) {
    && (forall c | c in s.commits :: c in s.calls && !s.calls[c].phase.Waiting?)
    && (forall k, l | 0 <= k < l < |s.commits| && s.calls[s.commits[k]].process == s.calls[s.commits[l]].process ::
          s.calls[s.commits[k]].index < s.calls[s.commits[l]].index)
  }

  lemma StartedAfter(s: System, c: nat, d: nat)
    requires ChainTracked(s) && Listed(s) && c in s.calls && d in s.calls && c != d
    requires s.calls[c].process == s.calls[d].process && s.calls[c].index >= s.calls[d].index
        && !s.calls[c].phase.Waiting?
    ensures s.calls[d].phase.Settled?
  {
    assert Placed(s, c, s.calls[c]) && Placed(s, d, s.calls[d]);
    EarlierCallsSettled(s, s.calls[c].process, s.calls[d].index, s.calls[c].index);
  }

  lemma RenameKeepsOrder(s: System, c: nat, synced: bool, s': System)
    requires ChainTracked(s) && Listed(s) && OrderTracked(s) && c !in s.commits && RenameAction(s, c, synced, s')
    ensures OrderTracked(s')
  {
    forall d | d in s.commits && s.calls[d].process == s.calls[c].process ensures s.calls[d].index < s.calls[c].index {
      if s.calls[c].index <= s.calls[d].index {
        StartedAfter(s, d, c);
      }
    }
  }

  lemma OthersKeepOrder(effects: Effects, s: System, step: Step, s': System)
    requires OrderTracked(s) && Next(effects, s, step, s') && !step.Rename?
    ensures OrderTracked(s')
  {
    SamePlaces(effects, s, step, s');
  }

  lemma SamePlaces(effects: Effects, s: System, step: Step, s': System)
    requires Next(effects, s, step, s')
    ensures forall c | c in s.calls ::
              && c in s'.calls && s'.calls[c].process == s.calls[c].process && s'.calls[c].index == s.calls[c].index
              && (!s.calls[c].phase.Waiting? ==> !s'.calls[c].phase.Waiting?)
  {
  }

  ghost predicate Inv(effects: Effects, initial: StoreState, s: System) {
    LockTracked(s) && FileTracked(effects, initial, s) && ChainTracked(s) && Listed(s) && OrderTracked(s)
  }

  lemma NextKeepsInv(effects: Effects, initial: StoreState, s: System, step: Step, s': System)
    requires Inv(effects, initial, s) && Next(effects, s, step, s')
    ensures Inv(effects, initial, s')
  {
    NextKeepsLock(effects, s, step, s');
    NextKeepsFile(effects, initial, s, step, s');
    NextKeepsChain(effects, s, step, s');
    NextKeepsList(effects, s, step, s');
    if step.Rename? {
      assert CallCommitted(effects, s, step.c, s.calls[step.c].phase);
      RenameKeepsOrder(s, step.c, step.synced, s');
    } else {
      OthersKeepOrder(effects, s, step, s');
    }
  }

  lemma {:induction false} RunKeepsInv(effects: Effects, states: seq<System>, steps: seq<Step>, i: nat)
    requires IsRun(effects, states, steps) && i <= |steps|
    ensures Inv(effects, states[0].file, states[i])
  {
    if i > 0 {
      RunKeepsInv(effects, states, steps, i - 1);
      assert StepAt(effects, states, steps, i - 1);
      NextKeepsInv(effects, states[0].file, states[i - 1], steps[i - 1], states[i]);
    }
  }

  /** At most one call of any process is between taking the lock and removing it. */
  lemma OneCallInsideTheLock(effects: Effects, states: seq<System>, steps: seq<Step>, i: nat,
      c: nat, d: nat)
    requires IsRun(effects, states, steps) && i <= |steps|
    requires c in states[i].calls && InLock(states[i].calls[c].phase)
    requires d in states[i].calls && InLock(states[i].calls[d].phase)
    ensures c == d
  {
    RunKeepsInv(effects, states, steps, i);
    assert Owns(states[i].lock, c, states[i].calls[c].phase) && Owns(states[i].lock, d, states[i].calls[d].phase);
  }

  /** The file is the result of the committed updates one after the other, each applied to what
      the one before it left. */
  lemma UpdatesAreSerial(effects: Effects, states: seq<System>, steps: seq<Step>, i: nat)
    requires IsRun(effects, states, steps) && i <= |steps|
    ensures states[i].file == Replay(effects, states[0].file, states[i].commits)
    ensures Serial(effects, states[0].file, states[i].commits)
  {
    RunKeepsInv(effects, states, steps, i);
  }

  type Requests = r: nat -> StoreOperations.Request | forall c :: StoreOperations.Callable(r(c)) witness c =>
      StoreOperations.ConsumeState("", 0)

  /** Every call is a store operation, with the random values and the time it used. */
  ghost predicate AreOperations(effects: Effects, digest: string -> string, requests: Requests) {
    forall c, state :: effects(c, state) == StoreOperations.Update(digest, requests(c), state)
  }

  function Requested(requests: Requests, calls: seq<nat>): (r: seq<StoreOperations.Request>)
    ensures |r| == |calls| && StoreOperations.AllCallable(r)
  {
    if calls == [] then [] else Requested(requests, calls[..|calls| - 1]) + [requests(calls[|calls| - 1])]
  }

  lemma {:induction false} ReplayIsRun(effects: Effects, digest: string -> string, requests: Requests,
      file: StoreState, calls: seq<nat>)
    requires AreOperations(effects, digest, requests)
    ensures Replay(effects, file, calls) == StoreOperations.Run(digest, file, Requested(requests, calls))
    decreases |calls|
  {
    if calls != [] {
      var n := |calls| - 1;
      ReplayIsRun(effects, digest, requests, file, calls[..n]);
      var before := Replay(effects, file, calls[..n]);
      StoreOperations.RunOneMore(digest, file, Requested(requests, calls[..n]), requests(calls[n]));
      if StoreOperations.Perform(digest, before, requests(calls[n])).1.Failed? {
        StoreOperations.FailureLeavesNoTrace(digest, before, requests(calls[n]));
      }
    }
  }

  /** Store operations called by any number of processes leave the file as one process would that
      performs the committed ones in the order of their renames. */
  lemma StoreIsSequential(effects: Effects, digest: string -> string, requests: Requests,
      states: seq<System>, steps: seq<Step>, i: nat)
    requires AreOperations(effects, digest, requests) && IsRun(effects, states, steps) && i <= |steps|
    ensures states[i].file == StoreOperations.Run(digest, states[0].file, Requested(requests, states[i].commits))
  {
    UpdatesAreSerial(effects, states, steps, i);
    ReplayIsRun(effects, digest, requests, states[0].file, states[i].commits);
  }

  lemma {:induction false} CommitsOnlyGrow(effects: Effects, states: seq<System>, steps: seq<Step>, i: nat, j: nat)
    requires IsRun(effects, states, steps) && i <= j <= |steps|
    ensures states[i].commits <= states[j].commits
    decreases j - i
  {
    if i < j {
      CommitsOnlyGrow(effects, states, steps, i, j - 1);
      assert StepAt(effects, states, steps, j - 1);
    }
  }

  /** An update that returned is in the file for good. */
  lemma NoUpdateIsLost(effects: Effects, states: seq<System>, steps: seq<Step>, i: nat, j: nat,
      c: nat)
    requires IsRun(effects, states, steps) && i <= j <= |steps|
    requires c in states[i].calls && states[i].calls[c].phase == Settled(true)
    ensures c in states[j].commits
  {
    RunKeepsInv(effects, states, steps, i);
    assert CallCommitted(effects, states[i], c, states[i].calls[c].phase);
    CommitsOnlyGrow(effects, states, steps, i, j);
  }

  /** Calls of one process run one at a time and in the order in which they were issued. */
  lemma CallsRunInIssueOrder(effects: Effects, states: seq<System>, steps: seq<Step>, i: nat,
      c: nat, d: nat)
    requires IsRun(effects, states, steps) && i <= |steps|
    requires c in states[i].calls && d in states[i].calls && states[i].calls[c].process == states[i].calls[d].process
    requires states[i].calls[d].index < states[i].calls[c].index && !states[i].calls[c].phase.Waiting?
    ensures states[i].calls[d].phase.Settled?
  {
    RunKeepsInv(effects, states, steps, i);
    StartedAfter(states[i], c, d);
  }

  lemma CommitsFollowIssueOrder(effects: Effects, states: seq<System>, steps: seq<Step>, i: nat,
      k: nat, l: nat)
    requires IsRun(effects, states, steps) && i <= |steps| && k < l < |states[i].commits|
    ensures var c, d := states[i].commits[k], states[i].commits[l];
            && c in states[i].calls && d in states[i].calls
            && (states[i].calls[c].process == states[i].calls[d].process
                ==> states[i].calls[c].index < states[i].calls[d].index)
  {
    RunKeepsInv(effects, states, steps, i);
  }

  // ----- nothing gets stuck -----

  /** A step that takes a call further on the way through the lock, none of them a failure. */
  predicate IsProgress(step: Step) {
    || step.Begin? || step.OpenLock? || step.WriteToken? || step.Read? || step.Compute? || step.Rename?
    || step.CheckToken? || step.RemoveLock?
  }

  lemma InsideCanMove(effects: Effects, s: System, c: nat) returns (step: Step, s': System)
    requires LockTracked(s) && c in s.calls && InLock(s.calls[c].phase)
    ensures IsProgress(step) && Next(effects, s, step, s')
  {
    assert Owns(s.lock, c, s.calls[c].phase);
    match s.calls[c].phase {
      case Opened(token) =>
        step, s' := WriteToken(c), To(s, c, Holding(token)).(lock := Some(s.lock.value.(token := Some(token))));
      case Holding(token) =>
        step, s' := Read(c), To(s, c, HasRead(token, s.file));
      case HasRead(token, state) =>
        step := Compute(c);
        s' := To(s, c, match effects(c, state)
                       case Some(after) => Computed(token, after)
                       case None => Releasing(token, false));
      case Computed(token, after) =>
        step, s' := Rename(c, true), To(s, c, Releasing(token, true)).(file := after, commits := s.commits + [c]);
      case Releasing(token, ok) =>
        step, s' := CheckToken(c), To(s, c, Removing(ok));
      case Removing(ok) =>
        step, s' := RemoveLock(c), To(s, c, Settled(ok)).(lock := None);
    }
  }

  lemma {:induction false} OutsideCanMove(effects: Effects, s: System, c: nat, token: string)
    returns (step: Step, s': System)
    requires LockTracked(s) && ChainTracked(s) && Listed(s) && s.lock.None? && c in s.calls
        && !s.calls[c].phase.Settled?
    ensures IsProgress(step) && Next(effects, s, step, s')
    decreases if c in s.calls then s.calls[c].index else 0
  {
    assert Owns(s.lock, c, s.calls[c].phase);
    if s.calls[c].phase.Acquiring? {
      step, s' := OpenLock(c, token), To(s, c, Opened(token)).(lock := Some(Lock(c, None, s.clock)));
    } else if s.calls[c].previous.Some? && !IsSettled(s, s.calls[c].previous.value) {
      assert CallChained(s.calls, s.calls[c]) && Placed(s, c, s.calls[c]);
      step, s' := OutsideCanMove(effects, s, s.calls[c].previous.value, token);
    } else {
      step, s' := Begin(c), To(s, c, Acquiring);
    }
  }

  /** As long as a call is unsettled, some call can move on: a failed call blocks no other. */
  lemma NothingGetsStuck(effects: Effects, states: seq<System>, steps: seq<Step>, i: nat, c: nat,
      token: string) returns (step: Step, s': System)
    requires IsRun(effects, states, steps) && i <= |steps|
    requires c in states[i].calls && !states[i].calls[c].phase.Settled?
    ensures IsProgress(step) && Next(effects, states[i], step, s')
  {
    RunKeepsInv(effects, states, steps, i);
    if states[i].lock.Some? {
      step, s' := InsideCanMove(effects, states[i], states[i].lock.value.inode);
    } else {
      step, s' := OutsideCanMove(effects, states[i], c, token);
    }
  }
}
