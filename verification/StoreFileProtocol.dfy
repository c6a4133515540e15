/** Updates of one store file by any number of processes: a promise chain per process, an O_EXCL
    lock file shared by all, and read, compute, rename while the lock is held.
    Hypothesis: no lock file reaches its stale time. */
module StoreFileProtocol {
  import opened Wrappers
  import opened StoreRecords

  const STALE_LOCK_MS := 300000

  /** What the callback of an update call makes of the state it is given; None when it throws. */
  type Effects = (nat, StoreState) -> Option<StoreState>

  /** `inode` names the call that created the file; its token is missing until it has been written. */
  datatype Lock = Lock(inode: nat, token: Option<string>, openedAt: int)

  datatype Phase =
    | Waiting
    | Acquiring
    | Opened(token: string)
    | Holding(token: string)
    | HasRead(token: string, state: StoreState)
    | Computed(token: string, after: StoreState)
    | Releasing(token: string, ok: bool)
    | Removing(ok: bool)
    | Settled(ok: bool)

  /** `previous` is the promise that the call is chained to. As history, `index` is its place among
      the calls of its process and `predecessor` the one issued just before it. */
  datatype Call = Call(process: nat, index: nat, predecessor: Option<nat>, previous: Option<nat>, phase: Phase)

  /** `tails` is the map from path to pending promise, one entry for each process. As history,
      `issued` lists the calls of each process and `commits` the calls in the order of their renames. */
  datatype System = System(
    file: StoreState,
    lock: Option<Lock>,
    clock: int,
    calls: map<nat, Call>,
    tails: map<nat, nat>,
    issued: map<nat, seq<nat>>,
    commits: seq<nat>)

  datatype Step =
    | Issue(c: nat, process: nat)
    | Forget(c: nat)
    | Begin(c: nat)
    | OpenLock(c: nat, token: string)
    | WriteToken(c: nat)
    | LoseToken(c: nat)
    | Recover(c: nat)
    | GiveUp(c: nat)
    | Read(c: nat)
    | Compute(c: nat)
    | Rename(c: nat, synced: bool)
    | Abort(c: nat)
    | CheckToken(c: nat)
    | RemoveLock(c: nat)
    | Tick(time: int)

  function To(s: System, c: nat, phase: Phase): System
    requires c in s.calls
  {
    s.(calls := s.calls[c := s.calls[c].(phase := phase)])
  }

  predicate IsSettled(s: System, c: nat) {
    c in s.calls && s.calls[c].phase.Settled?
  }

  function TailOf(s: System, process: nat): Option<nat> {
    if process in s.tails then Some(s.tails[process]) else None
  }

  function IssuedBy(s: System, process: nat): seq<nat> {
    if process in s.issued then s.issued[process] else []
  }

  function LastOf(calls: seq<nat>): Option<nat> {
    if calls == [] then None else Some(calls[|calls| - 1])
  }

  // ----- actions -----

  ghost predicate IssueAction(s: System, c: nat, process: nat, s': System) {
    && c !in s.calls
    && var earlier := IssuedBy(s, process);
    && s' == s.(calls := s.calls[c := Call(process, |earlier|, LastOf(earlier), TailOf(s, process), Waiting)],
                tails := s.tails[process := c], issued := s.issued[process := earlier + [c]])
  }

  /** A settled call leaves the map if nothing was chained to it. */
  ghost predicate ForgetAction(s: System, c: nat, s': System) {
    && IsSettled(s, c) && TailOf(s, s.calls[c].process) == Some(c)
    && s' == s.(tails := s.tails - {s.calls[c].process})
  }

  ghost predicate BeginAction(s: System, c: nat, s': System) {
    && c in s.calls && s.calls[c].phase.Waiting?
    && (s.calls[c].previous.Some? ==> IsSettled(s, s.calls[c].previous.value))
    && s' == To(s, c, Acquiring)
  }

  ghost predicate OpenLockAction(s: System, c: nat, token: string, s': System) {
    && c in s.calls && s.calls[c].phase.Acquiring? && s.lock.None?
    && s' == To(s, c, Opened(token)).(lock := Some(Lock(c, None, s.clock)))
  }

  ghost predicate WriteTokenAction(s: System, c: nat, s': System) {
    && c in s.calls && s.calls[c].phase.Opened?
    && var token := s.calls[c].phase.token;
    && var lock := if s.lock.Some? && s.lock.value.inode == c then Some(s.lock.value.(token := Some(token)))
        else s.lock;
    && s' == To(s, c, Holding(token)).(lock := lock)
  }

  /** Writing the metadata fails: the file at the path is removed. */
  ghost predicate LoseTokenAction(s: System, c: nat, s': System) {
    && c in s.calls && s.calls[c].phase.Opened?
    && s' == To(s, c, Settled(false)).(lock := None)
  }

  predicate Stale(lock: Lock, clock: int) {
    lock.openedAt + STALE_LOCK_MS <= clock
  }

  /** A call that finds the lock taken removes the file at the path if it is stale. */
  ghost predicate RecoverAction(s: System, c: nat, s': System) {
    && c in s.calls && s.calls[c].phase.Acquiring? && s.lock.Some? && Stale(s.lock.value, s.clock)
    && s' == s.(lock := None)
  }

  /** The wait for the lock has timed out, or the directory or the lock file cannot be created. */
  ghost predicate GiveUpAction(s: System, c: nat, s': System) {
    && c in s.calls && s.calls[c].phase.Acquiring?
    && s' == To(s, c, Settled(false))
  }

  ghost predicate ReadAction(s: System, c: nat, s': System) {
    && c in s.calls && s.calls[c].phase.Holding?
    && s' == To(s, c, HasRead(s.calls[c].phase.token, s.file))
  }

  ghost predicate ComputeAction(effects: Effects, s: System, c: nat, s': System) {
    && c in s.calls && s.calls[c].phase.HasRead?
    && var HasRead(token, state) := s.calls[c].phase;
    && s' == To(s, c, match effects(c, state)
                      case Some(after) => Computed(token, after)
                      case None => Releasing(token, false))
  }

  /** The directory may fail to sync after the rename: the call then throws, but its update stands. */
  ghost predicate RenameAction(s: System, c: nat, synced: bool, s': System) {
    && c in s.calls && s.calls[c].phase.Computed?
    && var Computed(token, after) := s.calls[c].phase;
    && s' == To(s, c, Releasing(token, synced)).(file := after, commits := s.commits + [c])
  }

  /** Reading, or writing the temporary file, fails. */
  ghost predicate AbortAction(s: System, c: nat, s': System) {
    && c in s.calls && (s.calls[c].phase.Holding? || s.calls[c].phase.Computed?)
    && s' == To(s, c, Releasing(s.calls[c].phase.token, false))
  }

  ghost predicate CheckTokenAction(s: System, c: nat, s': System) {
    && c in s.calls && s.calls[c].phase.Releasing?
    && var Releasing(token, ok) := s.calls[c].phase;
    && s' == To(s, c, if s.lock.Some? && s.lock.value.token == Some(token) then Removing(ok) else Settled(ok))
  }

  ghost predicate RemoveLockAction(s: System, c: nat, s': System) {
    && c in s.calls && s.calls[c].phase.Removing?
    && s' == To(s, c, Settled(s.calls[c].phase.ok)).(lock := None)
  }

  /** Time passes, but no lock file reaches its stale time. */
  ghost predicate TickAction(s: System, time: int, s': System) {
    && s.clock <= time && (s.lock.Some? ==> !Stale(s.lock.value, time))
    && s' == s.(clock := time)
  }

  ghost predicate Next(effects: Effects, s: System, step: Step, s': System) {
    match step
    case Issue(c, process) => IssueAction(s, c, process, s')
    case Forget(c) => ForgetAction(s, c, s')
    case Begin(c) => BeginAction(s, c, s')
    case OpenLock(c, token) => OpenLockAction(s, c, token, s')
    case WriteToken(c) => WriteTokenAction(s, c, s')
    case LoseToken(c) => LoseTokenAction(s, c, s')
    case Recover(c) => RecoverAction(s, c, s')
    case GiveUp(c) => GiveUpAction(s, c, s')
    case Read(c) => ReadAction(s, c, s')
    case Compute(c) => ComputeAction(effects, s, c, s')
    case Rename(c, synced) => RenameAction(s, c, synced, s')
    case Abort(c) => AbortAction(s, c, s')
    case CheckToken(c) => CheckTokenAction(s, c, s')
    case RemoveLock(c) => RemoveLockAction(s, c, s')
    case Tick(time) => TickAction(s, time, s')
  }

  ghost predicate Init(s: System) {
    s.lock == None && s.calls == map[] && s.tails == map[] && s.issued == map[] && s.commits == []
  }

  ghost predicate StepAt(effects: Effects, states: seq<System>, steps: seq<Step>, i: nat)
    requires |states| == |steps| + 1 && i < |steps|
  {
    Next(effects, states[i], steps[i], states[i + 1])
  }

  ghost predicate IsRun(effects: Effects, states: seq<System>, steps: seq<Step>) {
    && |states| == |steps| + 1 && Init(states[0])
    && forall i: nat | i < |steps| :: StepAt(effects, states, steps, i)
  }

  // ----- the lock -----

  predicate InLock(phase: Phase) {
    !phase.Waiting? && !phase.Acquiring? && !phase.Settled?
  }

  function TokenOf(phase: Phase): Option<string>
    requires InLock(phase) && !phase.Removing?
  {
    if phase.Opened? then None else Some(phase.token)
  }

  ghost predicate Owns(lock: Option<Lock>, c: nat, phase: Phase) {
    InLock(phase) ==>
      && lock.Some? && lock.value.inode == c
      && (!phase.Removing? ==> lock.value.token == TokenOf(phase))
  }

  /** The lock file belongs to the one call inside the lock. */
  ghost predicate LockTracked(s: System) {
    && (s.lock.Some? ==>
          && s.lock.value.inode in s.calls && InLock(s.calls[s.lock.value.inode].phase)
          && !Stale(s.lock.value, s.clock))
    && forall c {:trigger Owns(s.lock, c, s.calls[c].phase)} | c in s.calls :: Owns(s.lock, c, s.calls[c].phase)
  }

  lemma MoverOwns(effects: Effects, s: System, step: Step, s': System, c: nat)
    requires LockTracked(s) && Next(effects, s, step, s') && c in s'.calls
    requires c in s.calls ==> Owns(s.lock, c, s.calls[c].phase)
    ensures Owns(s'.lock, c, s'.calls[c].phase)
  {
    if !step.Tick? && step.c in s.calls {
      assert Owns(s.lock, step.c, s.calls[step.c].phase);
    }
  }

  lemma NextKeepsLock(effects: Effects, s: System, step: Step, s': System)
    requires LockTracked(s) && Next(effects, s, step, s')
    ensures LockTracked(s')
  {
    if !step.Tick? && step.c in s.calls {
      assert Owns(s.lock, step.c, s.calls[step.c].phase);
    }
    forall c | c in s'.calls ensures Owns(s'.lock, c, s'.calls[c].phase) {
      if c in s.calls {
        assert Owns(s.lock, c, s.calls[c].phase);
      }
      MoverOwns(effects, s, step, s', c);
    }
  }

  // ----- the file -----

  /** The file after a list of updates, each applied to what the one before it left. */
  function Replay(effects: Effects, file: StoreState, calls: seq<nat>): StoreState {
    if calls == [] then file
    else
      var before := Replay(effects, file, calls[..|calls| - 1]);
      match effects(calls[|calls| - 1], before)
      case Some(after) => after
      case None => before
  }

  /** No call is listed twice, and none throws on the state it finds. */
  ghost predicate Serial(effects: Effects, file: StoreState, calls: seq<nat>) {
    && (forall i, j | 0 <= i < j < |calls| :: calls[i] != calls[j])
    && (forall i | 0 <= i < |calls| :: effects(calls[i], Replay(effects, file, calls[..i])).Some?)
  }

  ghost predicate CallCommitted(effects: Effects, s: System, c: nat, phase: Phase) {
    match phase
    case HasRead(_, state) => c !in s.commits && state == s.file
    case Computed(_, after) => c !in s.commits && effects(c, s.file) == Some(after)
    case Releasing(_, ok) => ok ==> c in s.commits
    case Removing(ok) => ok ==> c in s.commits
    case Settled(ok) => ok ==> c in s.commits
    case _ => c !in s.commits
  }

  ghost predicate FileTracked(effects: Effects, initial: StoreState, s: System) {
    && s.file == Replay(effects, initial, s.commits)
    && Serial(effects, initial, s.commits)
    && (forall c | c in s.commits :: c in s.calls)
    && forall c {:trigger CallCommitted(effects, s, c, s.calls[c].phase)} | c in s.calls ::
        CallCommitted(effects, s, c, s.calls[c].phase)
  }

  lemma ExtendSerial(effects: Effects, file: StoreState, calls: seq<nat>, c: nat, after: StoreState)
    requires Serial(effects, file, calls) && c !in calls && effects(c, Replay(effects, file, calls)) == Some(after)
    ensures Serial(effects, file, calls + [c]) && Replay(effects, file, calls + [c]) == after
  {
    var longer := calls + [c];
    assert longer[..|calls|] == calls;
    forall i | 0 <= i < |longer| ensures effects(longer[i], Replay(effects, file, longer[..i])).Some? {
      if i < |calls| {
        assert longer[..i] == calls[..i];
      }
    }
  }

  lemma RenameKeepsCalls(effects: Effects, s: System, c: nat, synced: bool, s': System, d: nat)
    requires LockTracked(s) && RenameAction(s, c, synced, s') && d in s.calls && d in s'.calls
    requires CallCommitted(effects, s, d, s.calls[d].phase)
    ensures CallCommitted(effects, s', d, s'.calls[d].phase)
  {
    assert Owns(s.lock, c, s.calls[c].phase) && Owns(s.lock, d, s.calls[d].phase);
  }

  lemma RenameKeepsFile(effects: Effects, initial: StoreState, s: System, c: nat, synced: bool,
      s': System)
    requires LockTracked(s) && FileTracked(effects, initial, s) && RenameAction(s, c, synced, s')
    ensures FileTracked(effects, initial, s')
  {
    assert CallCommitted(effects, s, c, s.calls[c].phase);
    ExtendSerial(effects, initial, s.commits, c, s.calls[c].phase.after);
    forall d | d in s'.calls ensures CallCommitted(effects, s', d, s'.calls[d].phase) {
      assert CallCommitted(effects, s, d, s.calls[d].phase);
      RenameKeepsCalls(effects, s, c, synced, s', d);
    }
  }

  /** The file and the commits stay, and at most one call moves on. */
  ghost predicate Quiet(effects: Effects, s: System, s': System) {
    && s'.file == s.file && s'.commits == s.commits
    && (forall c | c in s.calls :: c in s'.calls)
    && forall c | c in s'.calls ::
         (c in s.calls && s'.calls[c].phase == s.calls[c].phase) || CallCommitted(effects, s', c, s'.calls[c].phase)
  }

  lemma OthersAreQuiet(effects: Effects, s: System, step: Step, s': System)
    requires !step.Rename? && Next(effects, s, step, s')
    requires forall c | c in s.commits :: c in s.calls
    requires forall c {:trigger CallCommitted(effects, s, c, s.calls[c].phase)} | c in s.calls ::
        CallCommitted(effects, s, c, s.calls[c].phase)
    ensures Quiet(effects, s, s')
  {
    if !step.Forget? && !step.Recover? && !step.Tick? && step.c in s.calls {
      assert CallCommitted(effects, s, step.c, s.calls[step.c].phase);
    }
  }

  lemma QuietKeepsFile(effects: Effects, initial: StoreState, s: System, s': System)
    requires FileTracked(effects, initial, s) && Quiet(effects, s, s')
    ensures FileTracked(effects, initial, s')
  {
    forall c | c in s'.calls ensures CallCommitted(effects, s', c, s'.calls[c].phase) {
      if c in s.calls {
        assert CallCommitted(effects, s, c, s.calls[c].phase);
      }
    }
  }

  lemma NextKeepsFile(effects: Effects, initial: StoreState, s: System, step: Step, s': System)
    requires LockTracked(s) && FileTracked(effects, initial, s) && Next(effects, s, step, s')
    ensures FileTracked(effects, initial, s')
  {
    if step.Rename? {
      RenameKeepsFile(effects, initial, s, step.c, step.synced, s');
    } else {
      OthersAreQuiet(effects, s, step, s');
      QuietKeepsFile(effects, initial, s, s');
    }
  }

  // ----- the promise chain -----

  /** A call is chained to the one issued just before it, unless that one had settled already. */
  ghost predicate CallChained(calls: map<nat, Call>, call: Call) {
    match call.predecessor
    case None => call.previous == None
    case Some(d) =>
      && d in calls
      && (call.previous == None || call.previous == Some(d))
      && (call.previous == None || !call.phase.Waiting? ==> calls[d].phase.Settled?)
  }

  /** The pending promise of a process is that of its last call. */
  ghost predicate TailTracked(s: System, process: nat) {
    match LastOf(IssuedBy(s, process))
    case None => TailOf(s, process) == None
    case Some(last) =>
      && last in s.calls
      && (TailOf(s, process) == Some(last) || (TailOf(s, process) == None && s.calls[last].phase.Settled?))
  }

  ghost predicate ChainTracked(s: System) {
    && (forall c {:trigger CallChained(s.calls, s.calls[c])} | c in s.calls :: CallChained(s.calls, s.calls[c]))
    && (forall process :: TailTracked(s, process))
  }

  ghost predicate Placed(s: System, c: nat, call: Call) {
    var earlier := IssuedBy(s, call.process);
    call.index < |earlier| && earlier[call.index] == c && call.predecessor == LastOf(earlier[..call.index])
  }

  /** Every call is listed once, after its predecessor. */
  ghost predicate Listed(s: System) {
    && (forall c {:trigger Placed(s, c, s.calls[c])} | c in s.calls :: Placed(s, c, s.calls[c]))
    && (forall process, i | process in s.issued && 0 <= i < |s.issued[process]| ::
          && s.issued[process][i] in s.calls
          && s.calls[s.issued[process][i]].process == process && s.calls[s.issued[process][i]].index == i)
  }

  lemma NextKeepsList(effects: Effects, s: System, step: Step, s': System)
    requires Listed(s) && Next(effects, s, step, s')
    ensures Listed(s')
  {
    if step.Issue? {
      IssueKeepsList(s, step.c, step.process, s');
    } else {
      SameListing(s, s');
    }
  }

  lemma SameListing(s: System, s': System)
    requires Listed(s) && s'.issued == s.issued && s'.calls.Keys == s.calls.Keys
    requires forall c | c in s.calls :: s'.calls[c] == s.calls[c].(phase := s'.calls[c].phase)
    ensures Listed(s')
  {
    forall c | c in s'.calls ensures Placed(s', c, s'.calls[c]) {
      assert Placed(s, c, s.calls[c]);
    }
  }

  lemma IssueKeepsList(s: System, c: nat, process: nat, s': System)
    requires Listed(s) && IssueAction(s, c, process, s')
    ensures Listed(s')
  {
    var earlier := IssuedBy(s, process);
    forall d | d in s'.calls ensures Placed(s', d, s'.calls[d]) {
      if d == c {
        assert (earlier + [c])[..|earlier|] == earlier;
      } else {
        assert Placed(s, d, s.calls[d]);
        if s.calls[d].process == process {
          assert (earlier + [c])[..s.calls[d].index] == earlier[..s.calls[d].index];
        }
      }
    }
  }

  /** Steps that only move one call on, and not out of its settled state. */
  lemma MovingKeepsChain(s: System, s': System, c: nat)
    requires ChainTracked(s) && c in s.calls && c in s'.calls && !s.calls[c].phase.Settled?
    requires s'.calls == s.calls[c := s.calls[c].(phase := s'.calls[c].phase)] && s'.tails == s.tails
        && s'.issued == s.issued
    requires !s'.calls[c].phase.Waiting?
    requires s.calls[c].phase.Waiting? && s.calls[c].previous.Some? ==> IsSettled(s, s.calls[c].previous.value)
    ensures ChainTracked(s')
  {
    forall d | d in s'.calls ensures CallChained(s'.calls, s'.calls[d]) {
      assert CallChained(s.calls, s.calls[d]);
    }
    forall process ensures TailTracked(s', process) {
      assert TailTracked(s, process);
    }
  }

  lemma IssueKeepsChain(s: System, c: nat, process: nat, s': System)
    requires ChainTracked(s) && IssueAction(s, c, process, s')
    ensures ChainTracked(s')
  {
    assert TailTracked(s, process);
    forall d | d in s'.calls ensures CallChained(s'.calls, s'.calls[d]) {
      if d != c {
        assert CallChained(s.calls, s.calls[d]);
      }
    }
    forall other ensures TailTracked(s', other) {
      assert TailTracked(s, other);
    }
  }

  lemma ForgetKeepsChain(s: System, c: nat, s': System)
    requires ChainTracked(s) && ForgetAction(s, c, s')
    ensures ChainTracked(s')
  {
    forall process ensures TailTracked(s', process) {
      assert TailTracked(s, process);
    }
  }

  lemma UntouchedKeepsChain(s: System, s': System)
    requires ChainTracked(s) && s'.calls == s.calls && s'.tails == s.tails && s'.issued == s.issued
    ensures ChainTracked(s')
  {
    forall process ensures TailTracked(s', process) {
      assert TailTracked(s, process);
    }
  }

  lemma NextKeepsChain(effects: Effects, s: System, step: Step, s': System)
    requires ChainTracked(s) && Next(effects, s, step, s')
    ensures ChainTracked(s')
  {
    match step {
      case Issue(c, process) => IssueKeepsChain(s, c, process, s');
      case Forget(c) => ForgetKeepsChain(s, c, s');
      case Tick(_) => UntouchedKeepsChain(s, s');
      case Recover(_) => UntouchedKeepsChain(s, s');
      case _ => MovingKeepsChain(s, s', step.c);
    }
  }

  /** When a call has started, every call issued before it in its process has settled. */
  lemma {:induction false} EarlierCallsSettled(s: System, process: nat, i: nat, j: nat)
    requires ChainTracked(s) && Listed(s) && i < j < |IssuedBy(s, process)|
    requires !s.calls[IssuedBy(s, process)[j]].phase.Waiting?
    ensures IsSettled(s, IssuedBy(s, process)[i])
    decreases j
  {
    var c := IssuedBy(s, process)[j];
    assert CallChained(s.calls, s.calls[c]) && Placed(s, c, s.calls[c]);
    assert s.calls[c].predecessor == Some(IssuedBy(s, process)[j - 1]);
    if i < j - 1 {
      EarlierCallsSettled(s, process, i, j - 1);
    }
  }
}
