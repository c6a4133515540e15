/** One MCP session on DynamoDB. Reservations read the id set and write it back only if the
    stored count is the size they read; touches and terminations are conditional updates.
    The item may be collected at any time. */
module McpSessionProtocol {
  import opened Wrappers
  import opened StoreRecords
  import opened McpSessions

  const MAX_ATTEMPTS := 5

  /** An item is an attribute map, so an update of a missing item would create one. */
  datatype Item = Item(
    expiresAt: Option<int>,
    protocolVersion: Option<string>,
    requestIds: set<string>,
    requestIdCount: Option<int>,
    initializedAt: Option<int>,
    terminatedAt: Option<int>,
    lastSeenAt: Option<int>)

  const NO_ITEM := Item(None, None, {}, None, None, None, None)

  datatype Call =
    | ReserveCall(idHash: string)
    | TouchCall(protocolVersion: Option<string>, markInitialized: bool)
    | TerminateCall

  datatype Reply = Granted(granted: bool) | Touched(initialized: bool) | Terminated | Failed(error: ServiceError)

  /** `version` is the number of grants there had been when the item was read. */
  datatype Phase =
    | Sampling(attempt: nat)
    | Reading(attempt: nat, now: int)
    | Updating(attempt: nat, now: int, seen: Item, version: nat)
    | Done(reply: Reply)

  /** `started` is the number of grants there had been when the call began. */
  datatype Process = Process(call: Call, phase: Phase, started: nat)

  /** `grants` lists the granted ids in order; `saved` says whether the session was ever created. */
  datatype System = System(
    item: Option<Item>,
    clock: int,
    procs: map<nat, Process>,
    grants: seq<string>,
    saved: bool)

  datatype Step =
    | Save(protocolVersion: string, expiresAt: int)
    | Arrive(p: nat, call: Call)
    | Sample(p: nat)
    | Read(p: nat)
    | Update(p: nat)
    | Collect
    | Tick(time: int)

  function ItemAt(s: System): Item {
    if s.item.Some? then s.item.value else NO_ITEM
  }

  /** attribute_not_exists(terminatedAt) AND expiresAt > :now, false when expiresAt is missing. */
  predicate Updatable(item: Item, now: int) {
    item.terminatedAt.None? && item.expiresAt.Some? && item.expiresAt.value > now
  }

  function To(s: System, p: nat, phase: Phase): System
    requires p in s.procs
  {
    s.(procs := s.procs[p := s.procs[p].(phase := phase)])
  }

  predicate ItemLive(item: Option<Item>, now: int) {
    item.Some? && item.value.terminatedAt.None? && item.value.expiresAt.Some? && item.value.expiresAt.value > now
  }

  /** What a call decides after reading the item: a reply, or None when it goes on to update. */
  function Decide(item: Option<Item>, call: Call, now: int): Option<Reply> {
    match call
    case ReserveCall(idHash) =>
      if !ItemLive(item, now) then Some(Failed(NotFound))
      else if idHash in item.value.requestIds then Some(Granted(false))
      else if |item.value.requestIds| >= MAX_REQUEST_IDS then Some(Failed(RateLimited))
      else None
    case TouchCall(protocolVersion, _) =>
      if !ItemLive(item, now) then Some(Failed(NotFound))
      else if protocolVersion.Some? && item.value.protocolVersion != protocolVersion then Some(Failed(BadRequest))
      else None
    case TerminateCall => None
  }

  function ReserveUpdate(item: Item, idHash: string, seen: Item, now: int): Item {
    item.(lastSeenAt := Some(now), requestIds := seen.requestIds + {idHash},
        requestIdCount := Some(|seen.requestIds| + 1))
  }

  function TouchUpdate(item: Item, seen: Item, markInitialized: bool, now: int): Item {
    if markInitialized && seen.initializedAt.None? then item.(lastSeenAt := Some(now), initializedAt := Some(now))
    else item.(lastSeenAt := Some(now))
  }

  // ----- actions -----

  ghost predicate SaveAction(s: System, protocolVersion: string, expiresAt: int, s': System) {
    && !s.saved && s.item.None?
    && s' == s.(saved := true, item := Some(Item(Some(expiresAt), Some(protocolVersion), {}, Some(0), None, None,
        Some(s.clock))))
  }

  ghost predicate ArriveAction(s: System, p: nat, call: Call, s': System) {
    p !in s.procs && s' == s.(procs := s.procs[p := Process(call, Sampling(0), |s.grants|)])
  }

  ghost predicate SampleAction(s: System, p: nat, s': System) {
    && p in s.procs && s.procs[p].phase.Sampling?
    && var attempt := s.procs[p].phase.attempt;
    s' == To(s, p, if s.procs[p].call.TerminateCall? then Updating(attempt, s.clock, NO_ITEM, |s.grants|)
        else Reading(attempt, s.clock))
  }

  ghost predicate ReadAction(s: System, p: nat, s': System) {
    && p in s.procs && s.procs[p].phase.Reading?
    && var Reading(attempt, now) := s.procs[p].phase;
    match Decide(s.item, s.procs[p].call, now)
    case Some(reply) => s' == To(s, p, Done(reply))
    case None => s' == To(s, p, Updating(attempt, now, ItemAt(s), |s.grants|))
  }

  ghost predicate UpdateAction(s: System, p: nat, s': System) {
    && p in s.procs && s.procs[p].phase.Updating?
    && var Updating(attempt, now, seen, _) := s.procs[p].phase;
    && var item := ItemAt(s);
    match s.procs[p].call
    case ReserveCall(idHash) =>
      if Updatable(item, now) && item.requestIdCount == Some(|seen.requestIds|) then
        s' == To(s, p, Done(Granted(true))).(item := Some(ReserveUpdate(item, idHash, seen, now)),
            grants := s.grants + [idHash])
      else
        s' == To(s, p, if attempt + 1 < MAX_ATTEMPTS then Sampling(attempt + 1) else Done(Failed(Conflict)))
    case TouchCall(_, markInitialized) =>
      if Updatable(item, now) then
        s' == To(s, p, Done(Touched(seen.initializedAt.Some? || markInitialized))).(item :=
            Some(TouchUpdate(item, seen, markInitialized, now)))
      else
        s' == To(s, p, Done(Failed(NotFound)))
    case TerminateCall =>
      if Updatable(item, now) then
        s' == To(s, p, Done(Terminated)).(item := Some(item.(terminatedAt := Some(now), lastSeenAt := Some(now))))
      else
        s' == To(s, p, Done(Failed(NotFound)))
  }

  ghost predicate Next(s: System, step: Step, s': System) {
    match step
    case Save(protocolVersion, expiresAt) => SaveAction(s, protocolVersion, expiresAt, s')
    case Arrive(p, call) => ArriveAction(s, p, call, s')
    case Sample(p) => SampleAction(s, p, s')
    case Read(p) => ReadAction(s, p, s')
    case Update(p) => UpdateAction(s, p, s')
    case Collect => s' == s.(item := None)
    case Tick(time) => s.clock <= time && s' == s.(clock := time)
  }

  ghost predicate Init(s: System) {
    s.item == None && s.clock > 0 && s.procs == map[] && s.grants == [] && !s.saved
  }

  ghost predicate IsRun(states: seq<System>, steps: seq<Step>) {
    && |states| == |steps| + 1 && Init(states[0])
    && forall i | 0 <= i < |steps| :: Next(states[i], steps[i], states[i + 1])
  }

  // ----- invariant -----

  function Elements(ids: seq<string>): set<string> {
    set id | id in ids
  }

  ghost predicate Distinct(ids: seq<string>) {
    forall i, j | 0 <= i < j < |ids| :: ids[i] != ids[j]
  }

  /** The stored count is the size of the stored set, which holds exactly the granted ids. */
  ghost predicate ItemTracked(s: System) {
    && Distinct(s.grants) && |s.grants| <= MAX_REQUEST_IDS
    && (!s.saved ==> s.item.None? && s.grants == [])
    && (s.item.Some? ==>
          var item := s.item.value;
          && item.expiresAt.Some? && item.protocolVersion.Some?
          && item.requestIds == Elements(s.grants)
          && item.requestIdCount == Some(|s.grants|)
          && |item.requestIds| == |s.grants|)
  }

  /** What an updating reservation has read: the ids of the first `version` grants, which were
      live and had room. */
  ghost predicate ReserveSeen(s: System, idHash: string, now: int, seen: Item, version: nat) {
    && version <= |s.grants|
    && seen.requestIds == Elements(s.grants[..version]) && |seen.requestIds| == version
    && idHash !in seen.requestIds && version < MAX_REQUEST_IDS
    && Updatable(seen, now)
    && (s.item.Some? ==> s.item.value.expiresAt == seen.expiresAt)
  }

  /** What an updating touch has read: the protocol version it asks for, which never changes. */
  ghost predicate TouchSeen(s: System, protocolVersion: Option<string>, seen: Item) {
    && (protocolVersion.Some? ==> seen.protocolVersion == protocolVersion)
    && (s.item.Some? ==> s.item.value.protocolVersion == seen.protocolVersion)
  }

  /** A reservation in attempt `k` was beaten by `k` other grants, unless the session has ended
      since: then the next read reports it. */
  ghost predicate ProcessTracked(s: System, proc: Process) {
    match proc.phase
    case Sampling(attempt) => attempt < MAX_ATTEMPTS && Beaten(s, proc, attempt)
    case Reading(attempt, now) => attempt < MAX_ATTEMPTS && Beaten(s, proc, attempt) && now > 0
    case Updating(attempt, now, seen, version) =>
      && attempt < MAX_ATTEMPTS && now > 0
      && (proc.call.ReserveCall? ==>
            s.saved && ReserveSeen(s, proc.call.idHash, now, seen, version) && proc.started + attempt <= version)
      && (proc.call.TouchCall? ==> s.saved && TouchSeen(s, proc.call.protocolVersion, seen))
      && (seen.initializedAt.Some? ==> s.saved && (s.item.Some? ==> s.item.value.initializedAt.Some?))
    case Done(reply) => reply == Failed(Conflict) ==> proc.started + 4 <= |s.grants|
  }

  ghost predicate Beaten(s: System, proc: Process, attempt: nat) {
    proc.call.ReserveCall? ==> proc.started + attempt <= |s.grants| || (attempt > 0 && Ended(s))
  }

  /** The session was terminated or its item is gone; neither is ever undone. */
  ghost predicate Ended(s: System) {
    s.saved && (s.item.Some? ==> s.item.value.terminatedAt.Some?)
  }

  ghost predicate Inv(s: System) {
    && s.clock > 0
    && ItemTracked(s)
    && forall p {:trigger ProcessTracked(s, s.procs[p])} | p in s.procs :: ProcessTracked(s, s.procs[p])
  }

  lemma {:induction false} DistinctSize(ids: seq<string>)
    requires Distinct(ids)
    ensures |Elements(ids)| == |ids|
    decreases |ids|
  {
    if ids != [] {
      var n := |ids| - 1;
      DistinctSize(ids[..n]);
      assert Elements(ids) == Elements(ids[..n]) + {ids[n]};
    }
  }

  /** A matching count means that the set is still the one that was read. */
  lemma MatchingCountMeansSameSet(s: System, p: nat)
    requires Inv(s) && p in s.procs && s.procs[p].phase.Updating? && s.procs[p].call.ReserveCall?
    requires ItemAt(s).requestIdCount == Some(|s.procs[p].phase.seen.requestIds|)
    ensures s.item.Some? && s.item.value.requestIds == s.procs[p].phase.seen.requestIds
    ensures s.procs[p].phase.version == |s.grants|
  {
    assert ProcessTracked(s, s.procs[p]);
    assert s.grants[..|s.grants|] == s.grants;
  }

  lemma OneMoreGrant(grants: seq<string>, idHash: string)
    requires Distinct(grants) && idHash !in Elements(grants)
    ensures Distinct(grants + [idHash]) && Elements(grants + [idHash]) == Elements(grants) + {idHash}
    ensures |Elements(grants + [idHash])| == |grants| + 1
  {
    assert forall i | 0 <= i < |grants| :: grants[i] in Elements(grants);
    DistinctSize(grants + [idHash]);
  }

  lemma GrantKeepsItem(s: System, p: nat, s': System)
    requires Inv(s) && UpdateAction(s, p, s') && s'.procs[p].phase == Done(Granted(true))
    ensures ItemTracked(s')
  {
    var idHash := s.procs[p].call.idHash;
    assert ProcessTracked(s, s.procs[p]);
    MatchingCountMeansSameSet(s, p);
    OneMoreGrant(s.grants, idHash);
  }

  lemma NextKeepsItem(s: System, step: Step, s': System)
    requires Inv(s) && Next(s, step, s')
    ensures ItemTracked(s')
  {
    if step.Update? && s'.procs[step.p].phase == Done(Granted(true)) {
      GrantKeepsItem(s, step.p, s');
    }
  }

  /** What one step may do to the session, seen by the calls that do not take it. */
  ghost predicate Advances(s: System, s': System) {
    && s.grants <= s'.grants && (s.saved ==> s'.saved)
    && (s.saved && s'.item.Some? ==>
          && s.item.Some? && s'.item.value.expiresAt == s.item.value.expiresAt
          && s'.item.value.protocolVersion == s.item.value.protocolVersion
          && (s.item.value.initializedAt.Some? ==> s'.item.value.initializedAt.Some?)
          && (s.item.value.terminatedAt.Some? ==> s'.item == s.item))
  }

  lemma NextAdvances(s: System, step: Step, s': System)
    requires Inv(s) && Next(s, step, s')
    ensures Advances(s, s')
  {
  }

  lemma OthersTracked(s: System, s': System, proc: Process)
    requires ProcessTracked(s, proc) && Advances(s, s') && ItemTracked(s)
    ensures ProcessTracked(s', proc)
  {
  }

  /** The call that takes the step. */
  lemma UpdateTracked(s: System, p: nat, s': System)
    requires Inv(s) && UpdateAction(s, p, s')
    ensures ProcessTracked(s', s'.procs[p])
  {
    assert ProcessTracked(s, s.procs[p]);
    if s.procs[p].call.ReserveCall? {
      var Updating(attempt, now, seen, version) := s.procs[p].phase;
      if !Updatable(ItemAt(s), now) {
        assert Ended(s);
      } else if ItemAt(s).requestIdCount != Some(|seen.requestIds|) {
        assert version < |s.grants|;
      }
    }
  }

  lemma ReadTracked(s: System, p: nat, s': System)
    requires Inv(s) && ReadAction(s, p, s')
    ensures ProcessTracked(s', s'.procs[p])
  {
    assert ProcessTracked(s, s.procs[p]);
    assert s.grants[..|s.grants|] == s.grants;
  }

  lemma NextKeepsInv(s: System, step: Step, s': System)
    requires Inv(s) && Next(s, step, s')
    ensures Inv(s')
  {
    NextKeepsItem(s, step, s');
    NextAdvances(s, step, s');
    match step {
      case Update(p) => UpdateTracked(s, p, s');
      case Read(p) => ReadTracked(s, p, s');
      case _ =>
    }
    forall q | q in s'.procs ensures ProcessTracked(s', s'.procs[q]) {
      if q in s.procs {
        assert ProcessTracked(s, s.procs[q]);
        if s'.procs[q] == s.procs[q] {
          OthersTracked(s, s', s.procs[q]);
        }
      }
    }
  }

  lemma {:induction false} RunKeepsInv(states: seq<System>, steps: seq<Step>, i: nat)
    requires IsRun(states, steps) && i <= |steps|
    ensures Inv(states[i])
  {
    if i > 0 {
      RunKeepsInv(states, steps, i - 1);
      NextKeepsInv(states[i - 1], steps[i - 1], states[i]);
    }
  }

  // ----- results -----

  /** Over every interleaving each id is granted at most once and at most 4096 are granted. */
  lemma EachIdGrantedAtMostOnce(states: seq<System>, steps: seq<Step>, i: nat)
    requires IsRun(states, steps) && i <= |steps|
    ensures Distinct(states[i].grants) && |states[i].grants| <= 4096
  {
    RunKeepsInv(states, steps, i);
  }

  predicate IsGranted(proc: Process) {
    proc.call.ReserveCall? && proc.phase == Done(Granted(true))
  }

  /** The calls that were granted an id, each a different one. */
  ghost predicate GrantsTracked(s: System) {
    && (forall p | p in s.procs && IsGranted(s.procs[p]) :: s.procs[p].call.idHash in Elements(s.grants))
    && (forall p, q | p in s.procs && q in s.procs && p != q && IsGranted(s.procs[p]) && IsGranted(s.procs[q]) ::
          s.procs[p].call.idHash != s.procs[q].call.idHash)
  }

  lemma GrantIsNew(s: System, p: nat, s': System)
    requires Inv(s) && UpdateAction(s, p, s') && IsGranted(s'.procs[p])
    ensures s.procs[p].call.ReserveCall? && s.procs[p].call.idHash !in Elements(s.grants)
    ensures Elements(s'.grants) == Elements(s.grants) + {s.procs[p].call.idHash}
  {
    assert ProcessTracked(s, s.procs[p]);
    MatchingCountMeansSameSet(s, p);
    assert s.grants[..|s.grants|] == s.grants;
    OneMoreGrant(s.grants, s.procs[p].call.idHash);
  }

  /** The update of a reservation grants the id exactly when the session is still live and nothing was
      granted since it was read. */
  lemma GrantsIff(s: System, p: nat, s': System)
    requires Inv(s) && UpdateAction(s, p, s') && s.procs[p].call.ReserveCall?
    ensures IsGranted(s'.procs[p]) <==>
            && s.item.Some? && s.item.value.terminatedAt == None
            && s.item.value.expiresAt.Some? && s.item.value.expiresAt.value > s.procs[p].phase.now
            && s.procs[p].phase.version == |s.grants|
  {
    assert ProcessTracked(s, s.procs[p]);
    if IsGranted(s'.procs[p]) {
      MatchingCountMeansSameSet(s, p);
    }
  }

  lemma OthersAreNotGranted(s: System, step: Step, s': System, p: nat)
    requires Next(s, step, s') && p in s'.procs && IsGranted(s'.procs[p])
    ensures (p in s.procs && s'.procs[p] == s.procs[p]) || (step == Update(p) && UpdateAction(s, p, s'))
    ensures s.grants <= s'.grants
  {
  }

  lemma NextKeepsGrants(s: System, step: Step, s': System)
    requires Inv(s) && GrantsTracked(s) && Next(s, step, s')
    ensures GrantsTracked(s')
  {
    forall p | p in s'.procs && IsGranted(s'.procs[p])
      ensures s'.procs[p].call.idHash in Elements(s'.grants)
      ensures (p in s.procs && s'.procs[p] == s.procs[p]) || s'.procs[p].call.idHash !in Elements(s.grants)
      ensures (p in s.procs && s'.procs[p] == s.procs[p]) || step == Update(p)
    {
      OthersAreNotGranted(s, step, s', p);
      if step == Update(p) && s'.procs[p] != s.procs[p] {
        GrantIsNew(s, p, s');
      }
    }
  }

  /** A reservation that fails with a conflict was beaten by at least four other grants. */
  lemma ConflictMeansFourOtherGrants(states: seq<System>, steps: seq<Step>, i: nat, p: nat)
    requires IsRun(states, steps) && i <= |steps|
    requires p in states[i].procs && states[i].procs[p].phase == Done(Failed(Conflict))
    ensures |states[i].grants| >= states[i].procs[p].started + 4
  {
    RunKeepsInv(states, steps, i);
    assert ProcessTracked(states[i], states[i].procs[p]);
  }

  lemma AdvancesTransitive(a: System, b: System, c: System)
    requires Advances(a, b) && Advances(b, c)
    ensures Advances(a, c)
  {
  }

  lemma {:induction false} RunAdvances(states: seq<System>, steps: seq<Step>, i: nat, j: nat)
    requires IsRun(states, steps) && i <= j <= |steps|
    ensures Advances(states[i], states[j])
    decreases j - i
  {
    if i < j {
      RunAdvances(states, steps, i, j - 1);
      RunKeepsInv(states, steps, j - 1);
      NextAdvances(states[j - 1], steps[j - 1], states[j]);
      AdvancesTransitive(states[i], states[j - 1], states[j]);
    }
  }

  /** Termination is absorbing: the item never changes again, except that it may be collected. */
  lemma TerminationIsFinal(states: seq<System>, steps: seq<Step>, i: nat, j: nat)
    requires IsRun(states, steps) && i <= j <= |steps|
    requires states[i].item.Some? && states[i].item.value.terminatedAt.Some?
    ensures states[j].item == states[i].item || states[j].item == None
  {
    RunKeepsInv(states, steps, i);
    RunAdvances(states, steps, i, j);
  }

  /** No conditional update recreates a collected session. */
  lemma CollectedStaysGone(states: seq<System>, steps: seq<Step>, i: nat, j: nat)
    requires IsRun(states, steps) && i <= j <= |steps|
    requires states[i].saved && states[i].item == None
    ensures states[j].item == None
  {
    RunAdvances(states, steps, i, j);
  }

  /** A touch reports `initialized` only for a session that is initialized, and initialization
      is never undone while the item lasts. */
  lemma TouchReportsInitialization(states: seq<System>, steps: seq<Step>, i: nat, j: nat, p: nat)
    requires IsRun(states, steps) && i < j <= |steps| && steps[i] == Update(p)
    requires states[i + 1].procs[p].phase == Done(Touched(true)) && states[j].item.Some?
    ensures states[j].item.value.initializedAt.Some?
  {
    RunKeepsInv(states, steps, i);
    RunKeepsInv(states, steps, i + 1);
    assert Next(states[i], steps[i], states[i + 1]);
    assert ProcessTracked(states[i], states[i].procs[p]);
    RunAdvances(states, steps, i + 1, j);
  }

  // ----- agreement with the atomic operations -----

  /** A disk record that the item and the grants stand for, up to the time it was last seen. */
  ghost predicate Represents(s: System, record: McpSessionRecord) {
    && s.item.Some?
    && s.item.value.expiresAt == Some(record.expiresAt)
    && s.item.value.protocolVersion == Some(record.protocolVersion)
    && record.requestIdHashes == s.grants
    && (s.item.value.initializedAt.Some? <==> record.initializedAt.Some?)
    && (record.initializedAt.Some? ==> IsSet(record.initializedAt))
    && (s.item.value.terminatedAt.Some? <==> IsSet(record.terminatedAt))
  }

  /** The record after an atomic call, when it succeeds. */
  function AtomicCall(record: McpSessionRecord, call: Call, now: int): (McpSessionRecord, Reply) {
    match call
    case ReserveCall(idHash) =>
      (match Reserve(Some(record), idHash, now)
       case Ok(pair) => (pair.0, Granted(pair.1))
       case Err(e) => (record, Failed(e)))
    case TouchCall(protocolVersion, markInitialized) =>
      (match Touch(Some(record), protocolVersion, markInitialized, now)
       case Ok(pair) => (pair.0, Touched(pair.1))
       case Err(e) => (record, Failed(e)))
    case TerminateCall =>
      (match Terminate(Some(record), now)
       case Ok(terminated) => (terminated, Terminated)
       case Err(e) => (record, Failed(e)))
  }

  lemma GrantIsAtomic(s: System, p: nat, s': System, record: McpSessionRecord)
    requires Inv(s) && UpdateAction(s, p, s') && s.procs[p].call.ReserveCall? && Represents(s, record)
    requires s'.procs[p].phase == Done(Granted(true))
    ensures var (after, reply) := AtomicCall(record, s.procs[p].call, s.procs[p].phase.now);
            reply == Granted(true) && Represents(s', after)
  {
    assert ProcessTracked(s, s.procs[p]);
    MatchingCountMeansSameSet(s, p);
    assert s.procs[p].call.idHash !in Elements(s.grants);
  }

  /** A reply given at the read is the atomic reply, and changes nothing but the time last seen. */
  lemma ReadReplyIsAtomic(s: System, p: nat, s': System, record: McpSessionRecord)
    requires Inv(s) && ReadAction(s, p, s') && Represents(s, record) && s'.procs[p].phase.Done?
    ensures var (after, reply) := AtomicCall(record, s.procs[p].call, s.procs[p].phase.now);
            reply == s'.procs[p].phase.reply && Represents(s', after)
  {
  }

  lemma TerminateIsAtomic(s: System, p: nat, s': System, record: McpSessionRecord)
    requires Inv(s) && UpdateAction(s, p, s') && s.procs[p].call.TerminateCall? && Represents(s, record)
    ensures var (after, reply) := AtomicCall(record, s.procs[p].call, s.procs[p].phase.now);
            s'.procs[p].phase == Done(reply) && Represents(s', after)
  {
    assert ProcessTracked(s, s.procs[p]);
  }

  /** A touch that updates does to the record what the atomic one does. It replies as the atomic
      one exactly when the session it updates is not initialized, or was when it was read, or is
      marked by the touch itself. */
  lemma TouchIsAtomicIffItSawInitialization(s: System, p: nat, s': System, record: McpSessionRecord)
    requires Inv(s) && UpdateAction(s, p, s') && s.procs[p].call.TouchCall? && Represents(s, record)
    ensures var (after, reply) := AtomicCall(record, s.procs[p].call, s.procs[p].phase.now);
            var seen := s.procs[p].phase.seen;
            && Represents(s', after)
            && (reply.Failed? ==> s'.procs[p].phase == Done(reply))
            && (reply.Touched? ==>
                  (s'.procs[p].phase == Done(reply) <==>
                   (s.item.value.initializedAt.Some? ==> seen.initializedAt.Some? || s.procs[p].call.markInitialized)))
  {
    assert ProcessTracked(s, s.procs[p]);
  }

  // ----- a touch that misses the initialization -----

  function OverlapState(initializedAt: Option<int>, procs: map<nat, Process>): System {
    System(Some(Item(Some(9), Some("v"), {}, Some(0), initializedAt, None, Some(1))), 1, procs, [], true)
  }

  /** Two touches overlap: the first reads, the second marks the session as initialized, and then
      the first updates. */
  function OverlapStates(): seq<System> {
    var unmarked := Item(Some(9), Some("v"), {}, Some(0), None, None, Some(1));
    var plain, marking := TouchCall(None, false), TouchCall(None, true);
    var waiting, marked := Process(plain, Updating(0, 1, unmarked, 0), 0), Process(marking, Done(Touched(true)), 0);
    [ System(None, 1, map[], [], false),
      OverlapState(None, map[]),
      OverlapState(None, map[0 := Process(plain, Sampling(0), 0)]),
      OverlapState(None, map[0 := Process(plain, Reading(0, 1), 0)]),
      OverlapState(None, map[0 := waiting]),
      OverlapState(None, map[0 := waiting, 1 := Process(marking, Sampling(0), 0)]),
      OverlapState(None, map[0 := waiting, 1 := Process(marking, Reading(0, 1), 0)]),
      OverlapState(None, map[0 := waiting, 1 := Process(marking, Updating(0, 1, unmarked, 0), 0)]),
      OverlapState(Some(1), map[0 := waiting, 1 := marked]),
      OverlapState(Some(1), map[0 := Process(plain, Done(Touched(false)), 0), 1 := marked])]
  }

  function OverlapSteps(): seq<Step> {
    [ Save("v", 9), Arrive(0, TouchCall(None, false)), Sample(0), Read(0), Arrive(1, TouchCall(None, true)),
      Sample(1), Read(1), Update(1), Update(0)]
  }

  lemma FirstOverlapSteps(i: nat)
    requires i < 5
    ensures Next(OverlapStates()[i], OverlapSteps()[i], OverlapStates()[i + 1])
  {
  }

  lemma LastOverlapSteps(i: nat)
    requires 5 <= i < 9
    ensures Next(OverlapStates()[i], OverlapSteps()[i], OverlapStates()[i + 1])
  {
  }

  /** The first touch reports that the session is not initialized although it was when it updated. */
  lemma OverlappingTouchMissesInitialization()
    ensures IsRun(OverlapStates(), OverlapSteps())
    ensures OverlapStates()[8].item.Some? && OverlapStates()[8].item.value.initializedAt.Some?
    ensures OverlapSteps()[8] == Update(0)
    ensures OverlapStates()[9].procs[0].phase == Done(Touched(false))
  {
    forall i | 0 <= i < 9 ensures Next(OverlapStates()[i], OverlapSteps()[i], OverlapStates()[i + 1]) {
      if i < 5 {
        FirstOverlapSteps(i);
      } else {
        LastOverlapSteps(i);
      }
    }
  }

  // ----- nothing gets stuck -----

  /** How many steps of its own a call is away from its reply, at most. */
  function StepsLeft(phase: Phase): nat {
    match phase
    case Sampling(attempt) => if attempt < MAX_ATTEMPTS then (MAX_ATTEMPTS - attempt) * 3 else 3
    case Reading(attempt, _) => if attempt < MAX_ATTEMPTS then (MAX_ATTEMPTS - attempt) * 3 - 1 else 2
    case Updating(attempt, _, _, _) => if attempt < MAX_ATTEMPTS then (MAX_ATTEMPTS - attempt) * 3 - 2 else 1
    case Done(_) => 0
  }

  lemma UpdateExists(s: System, p: nat) returns (s': System)
    requires p in s.procs && s.procs[p].phase.Updating?
    ensures UpdateAction(s, p, s') && p in s'.procs
    ensures StepsLeft(s'.procs[p].phase) < StepsLeft(s.procs[p].phase)
  {
    var Updating(attempt, now, seen, _) := s.procs[p].phase;
    var item := ItemAt(s);
    match s.procs[p].call {
      case ReserveCall(idHash) =>
        if Updatable(item, now) && item.requestIdCount == Some(|seen.requestIds|) {
          s' := To(s, p, Done(Granted(true))).(item := Some(ReserveUpdate(item, idHash, seen, now)),
              grants := s.grants + [idHash]);
        } else {
          s' := To(s, p, if attempt + 1 < MAX_ATTEMPTS then Sampling(attempt + 1) else Done(Failed(Conflict)));
        }
      case TouchCall(_, markInitialized) =>
        s' := if Updatable(item, now) then
                To(s, p, Done(Touched(seen.initializedAt.Some? || markInitialized))).(item :=
                    Some(TouchUpdate(item, seen, markInitialized, now)))
              else To(s, p, Done(Failed(NotFound)));
      case TerminateCall =>
        s' := if Updatable(item, now) then
                To(s, p, Done(Terminated)).(item := Some(item.(terminatedAt := Some(now), lastSeenAt := Some(now))))
              else To(s, p, Done(Failed(NotFound)));
    }
  }

  /** Whatever the others do, a call without a reply has a step that brings it closer to one: after at
      most five attempts it is answered. */
  lemma CallMovesOn(s: System, p: nat) returns (step: Step, s': System)
    requires p in s.procs && !s.procs[p].phase.Done?
    ensures Next(s, step, s') && p in s'.procs
    ensures StepsLeft(s'.procs[p].phase) < StepsLeft(s.procs[p].phase)
  {
    var call := s.procs[p].call;
    match s.procs[p].phase {
      case Sampling(attempt) =>
        step := Sample(p);
        s' := To(s, p, if call.TerminateCall? then Updating(attempt, s.clock, NO_ITEM, |s.grants|)
                       else Reading(attempt, s.clock));
      case Reading(attempt, now) =>
        step := Read(p);
        s' := To(s, p, match Decide(s.item, call, now)
                       case Some(reply) => Done(reply)
                       case None => Updating(attempt, now, ItemAt(s), |s.grants|));
      case Updating(_, _, _, _) =>
        step := Update(p);
        s' := UpdateExists(s, p);
    }
  }
}
