/** Authorization codes on DynamoDB: a request reads the item, samples the clock, validates what
    it read and then updates the item on condition that it is unconsumed and unexpired. */
module CodeProtocol {
  import opened Wrappers
  import opened StoreRecords
  import opened AuthorizationCodes

  /** An item is an attribute map, so an update of a missing item would create one. */
  datatype Item = Item(record: Option<AuthorizationCodeRecord>, expiresAt: Option<int>, consumedAt: Option<int>)

  const NO_ITEM := Item(None, None, None)

  datatype Call =
    | CreateCall(input: CodeInput)
    | ConsumeCall(hash: string, verifier: Option<string>, expected: Expectation)

  datatype Reply = Created(hash: string) | Consumed(record: AuthorizationCodeRecord) | Refused

  datatype Phase =
    | Arrived
    | Creating(hash: string, createdAt: int)
    | HasRecord(record: AuthorizationCodeRecord)
    | Validated(record: AuthorizationCodeRecord, now: int)
    | Replied(reply: Reply)

  datatype Process = Process(call: Call, phase: Phase)

  datatype System = System(
    table: map<string, Item>,
    clock: int,
    procs: map<nat, Process>,
    drawn: set<string>)

  datatype Step =
    | Arrive(p: nat, call: Call)
    | Draw(p: nat, hash: string)
    | Put(p: nat)
    | Read(p: nat)
    | Validate(p: nat)
    | Update(p: nat)
    | Tick(time: int)
    | Collect(hash: string)

  datatype Operation =
    | CreateOp(hash: string, input: CodeInput, createdAt: int)
    | ConsumeOp(call: Call, now: int)

  /** The atomic operation that a step completes, with the reply its caller received. */
  datatype Event = Event(op: Operation, reply: Reply)

  function ItemAt(s: System, hash: string): Item {
    if hash in s.table then s.table[hash] else NO_ITEM
  }

  /** Expired at the clock and at the time every request in flight has sampled. */
  ghost predicate Expired(s: System, expiresAt: int) {
    && expiresAt <= s.clock
    && forall p | p in s.procs && s.procs[p].phase.Validated? :: expiresAt <= s.procs[p].phase.now
  }

  function To(s: System, p: nat, phase: Phase): System
    requires p in s.procs
  {
    s.(procs := s.procs[p := s.procs[p].(phase := phase)])
  }

  ghost predicate Consuming(s: System, p: nat) {
    p in s.procs && s.procs[p].call.ConsumeCall?
  }

  ghost predicate Refuse(s: System, p: nat, now: int, s': System, event: Option<Event>)
    requires p in s.procs
  {
    s' == To(s, p, Replied(Refused)) && event == Some(Event(ConsumeOp(s.procs[p].call, now), Refused))
  }

  // ----- actions -----

  ghost predicate ArriveAction(s: System, p: nat, call: Call, s': System, event: Option<Event>) {
    p !in s.procs && s' == s.(procs := s.procs[p := Process(call, Arrived)]) && event == None
  }

  ghost predicate DrawAction(s: System, p: nat, hash: string, s': System, event: Option<Event>) {
    && p in s.procs && s.procs[p].call.CreateCall? && s.procs[p].phase.Arrived? && hash !in s.drawn
    && s' == To(s, p, Creating(hash, s.clock)).(drawn := s.drawn + {hash}) && event == None
  }

  ghost predicate PutAction(s: System, p: nat, s': System, event: Option<Event>) {
    && p in s.procs && s.procs[p].call.CreateCall? && s.procs[p].phase.Creating?
    && var Creating(hash, createdAt) := s.procs[p].phase;
    && hash !in s.table
    && var record := NewCode(hash, s.procs[p].call.input, createdAt);
    && s' == To(s, p, Replied(Created(hash))).(table := s.table[hash :=
        Item(Some(record), Some(record.expiresAt), None)])
    && event == Some(Event(CreateOp(hash, s.procs[p].call.input, createdAt), Created(hash)))
  }

  /** A read that finds nothing settles the request: the time sampled after it decides nothing. */
  ghost predicate ReadAction(s: System, p: nat, s': System, event: Option<Event>) {
    && Consuming(s, p) && s.procs[p].phase.Arrived?
    && var item := ItemAt(s, s.procs[p].call.hash);
    if item.record.Some? then
      s' == To(s, p, HasRecord(item.record.value)) && event == None
    else
      Refuse(s, p, s.clock, s', event)
  }

  ghost predicate ValidateAction(digest: Digest, s: System, p: nat, s': System, event: Option<Event>) {
    && Consuming(s, p) && s.procs[p].phase.HasRecord?
    && var record := s.procs[p].phase.record;
    if CodeAccepted(digest, record, s.procs[p].call.verifier, s.procs[p].call.expected, s.clock) then
      s' == To(s, p, Validated(record, s.clock)) && event == None
    else
      Refuse(s, p, s.clock, s', event)
  }

  ghost predicate UpdateAction(s: System, p: nat, s': System, event: Option<Event>) {
    && Consuming(s, p) && s.procs[p].phase.Validated?
    && var Validated(record, now) := s.procs[p].phase;
    && var hash := s.procs[p].call.hash;
    && var item := ItemAt(s, hash);
    && var consumed := record.(consumedAt := Some(now));
    if item.consumedAt.None? && item.expiresAt.Some? && item.expiresAt.value > now then
      && s' == To(s, p, Replied(Consumed(consumed))).(table :=
          s.table[hash := item.(record := Some(consumed), consumedAt := Some(now))])
      && event == Some(Event(ConsumeOp(s.procs[p].call, now), Consumed(consumed)))
    else
      Refuse(s, p, now, s', event)
  }

  ghost predicate CollectAction(s: System, hash: string, s': System, event: Option<Event>) {
    && hash in s.table && s.table[hash].expiresAt.Some? && Expired(s, s.table[hash].expiresAt.value)
    && s' == s.(table := s.table - {hash}) && event == None
  }

  ghost predicate Next(digest: Digest, s: System, step: Step, s': System, event: Option<Event>) {
    match step
    case Arrive(p, call) => ArriveAction(s, p, call, s', event)
    case Draw(p, hash) => DrawAction(s, p, hash, s', event)
    case Put(p) => PutAction(s, p, s', event)
    case Read(p) => ReadAction(s, p, s', event)
    case Validate(p) => ValidateAction(digest, s, p, s', event)
    case Update(p) => UpdateAction(s, p, s', event)
    case Tick(time) => s.clock <= time && s' == s.(clock := time) && event == None
    case Collect(hash) => CollectAction(s, hash, s', event)
  }

  ghost predicate Init(s: System) {
    s.table == map[] && s.clock > 0 && s.procs == map[] && s.drawn == {}
  }

  // ----- the atomic operations -----

  function Apply(digest: Digest, codes: Codes, op: Operation): (Codes, Reply) {
    match op
    case CreateOp(hash, input, createdAt) => (CreateCode(codes, hash, input, createdAt), Created(hash))
    case ConsumeOp(call, now) =>
      if call.ConsumeCall? then
        var (after, result) := ConsumeCode(digest, codes, call.hash, call.verifier, call.expected, now);
        (after, if result.Ok? then Consumed(result.value) else Refused)
      else
        (codes, Refused)
  }

  // ----- invariant: `disk` is the store that the atomic operations build -----

  ghost predicate TableTracked(s: System, disk: Codes) {
    && (forall h | h in s.table ::
          h in disk && s.table[h] == Item(Some(disk[h]), Some(disk[h].expiresAt), disk[h].consumedAt))
    && (forall h | h in disk && h !in s.table :: Expired(s, disk[h].expiresAt))
    && (forall h | h in disk ::
          h in s.drawn && disk[h].codeHash == h && (disk[h].consumedAt.Some? ==> IsSet(disk[h].consumedAt)))
  }

  /** The record a request has read is the stored one, or the one from before it was consumed. */
  ghost predicate ReadOf(disk: Codes, hash: string, record: AuthorizationCodeRecord) {
    && hash in disk
    && (record == disk[hash] || (disk[hash].consumedAt.Some? && record == disk[hash].(consumedAt := None)))
  }

  ghost predicate CallTracked(digest: Digest, s: System, disk: Codes, call: Call, phase: Phase) {
    match phase
    case Arrived => true
    case Creating(hash, createdAt) => call.CreateCall? && hash in s.drawn && hash !in disk && 0 < createdAt <= s.clock
    case HasRecord(record) => call.ConsumeCall? && ReadOf(disk, call.hash, record)
    case Validated(record, now) =>
      call.ConsumeCall? && ReadOf(disk, call.hash, record) && now > 0
          && CodeAccepted(digest, record, call.verifier, call.expected, now)
    case Replied(_) => true
  }

  ghost predicate CallsTracked(digest: Digest, s: System, disk: Codes) {
    && (forall p | p in s.procs :: CallTracked(digest, s, disk, s.procs[p].call, s.procs[p].phase))
    && (forall p, q |
          p in s.procs && q in s.procs && p != q && s.procs[p].phase.Creating? && s.procs[q].phase.Creating? ::
          s.procs[p].phase.hash != s.procs[q].phase.hash)
  }

  ghost predicate Inv(digest: Digest, s: System, disk: Codes) {
    s.clock > 0 && TableTracked(s, disk) && CallsTracked(digest, s, disk)
  }

  /** The step agrees with the disk store: same reply, same records. */
  ghost predicate Refines(digest: Digest, disk: Codes, s': System, event: Option<Event>) {
    match event
    case None => Inv(digest, s', disk)
    case Some(e) => Apply(digest, disk, e.op).1 == e.reply && Inv(digest, s', Apply(digest, disk, e.op).0)
  }

  lemma CallOf(digest: Digest, s: System, disk: Codes, p: nat)
    requires CallsTracked(digest, s, disk) && p in s.procs
    ensures CallTracked(digest, s, disk, s.procs[p].call, s.procs[p].phase)
  {
  }

  lemma TableStays(s: System, s': System, disk: Codes)
    requires TableTracked(s, disk) && s'.table == s.table && s.clock <= s'.clock && s.drawn <= s'.drawn
    requires forall p | p in s'.procs && s'.procs[p].phase.Validated? ::
               s.clock <= s'.procs[p].phase.now || (p in s.procs && s.procs[p].phase == s'.procs[p].phase)
    ensures TableTracked(s', disk)
  {
  }

  /** One request moves on by itself; the disk and the items stay as they are. */
  lemma MovingKeepsInv(digest: Digest, s: System, s': System, disk: Codes, p: nat)
    requires Inv(digest, s, disk) && p in s'.procs && s.drawn <= s'.drawn
    requires s' == s.(procs := s.procs[p := s'.procs[p]], drawn := s'.drawn)
    requires CallTracked(digest, s', disk, s'.procs[p].call, s'.procs[p].phase)
    requires s'.procs[p].phase.Validated? ==> s'.procs[p].phase.now == s.clock
    requires s'.procs[p].phase.Creating? ==> s'.procs[p].phase.hash !in s.drawn
    ensures Inv(digest, s', disk)
  {
  }

  lemma ReadRefines(digest: Digest, s: System, disk: Codes, p: nat, s': System, event: Option<Event>)
    requires Inv(digest, s, disk) && ReadAction(s, p, s', event)
    ensures Refines(digest, disk, s', event)
  {
    MovingKeepsInv(digest, s, s', disk, p);
  }

  lemma ValidateRefines(digest: Digest, s: System, disk: Codes, p: nat, s': System,
      event: Option<Event>)
    requires Inv(digest, s, disk) && ValidateAction(digest, s, p, s', event)
    ensures Refines(digest, disk, s', event)
  {
    CallOf(digest, s, disk, p);
    MovingKeepsInv(digest, s, s', disk, p);
  }

  lemma DrawRefines(digest: Digest, s: System, disk: Codes, p: nat, hash: string, s': System,
      event: Option<Event>)
    requires Inv(digest, s, disk) && DrawAction(s, p, hash, s', event)
    ensures Refines(digest, disk, s', event)
  {
  }

  lemma TickRefines(digest: Digest, s: System, disk: Codes, time: int, s': System,
      event: Option<Event>)
    requires Inv(digest, s, disk) && s.clock <= time && s' == s.(clock := time) && event == None
    ensures Refines(digest, disk, s', event)
  {
  }

  lemma PutRefines(digest: Digest, s: System, disk: Codes, p: nat, s': System, event: Option<Event>)
    requires Inv(digest, s, disk) && PutAction(s, p, s', event)
    ensures Refines(digest, disk, s', event)
  {
    CallOf(digest, s, disk, p);
    var disk' := Apply(digest, disk, event.value.op).0;
    forall q | q in s'.procs ensures CallTracked(digest, s', disk', s'.procs[q].call, s'.procs[q].phase) {
      CallOf(digest, s, disk, q);
    }
    assert TableTracked(s', disk');
  }

  /** The update succeeds exactly when the atomic operation accepts the code. */
  lemma UpdateAgrees(digest: Digest, s: System, disk: Codes, p: nat, s': System,
      event: Option<Event>)
    requires TableTracked(s, disk) && CallsTracked(digest, s, disk) && UpdateAction(s, p, s', event)
    ensures event.Some? && Apply(digest, disk, event.value.op).1 == event.value.reply
    ensures event.value.reply == Refused ==> s'.table == s.table && Apply(digest, disk, event.value.op).0 == disk
    ensures event.value.reply == Refused || event.value.reply.Consumed?
    ensures event.value.reply.Consumed? ==> s.procs[p].call.hash in s.table
  {
  }

  lemma OtherCallTracked(digest: Digest, s: System, s': System, disk: Codes, hash: string,
      now: int, call: Call, phase: Phase)
    requires hash in disk && disk[hash].consumedAt == None
    requires s'.drawn == s.drawn && s'.clock == s.clock && CallTracked(digest, s, disk, call, phase)
    ensures CallTracked(digest, s', disk[hash := disk[hash].(consumedAt := Some(now))], call, phase)
  {
  }

  lemma ConsumedDisk(digest: Digest, s: System, disk: Codes, p: nat, s': System,
      event: Option<Event>)
    requires TableTracked(s, disk) && CallsTracked(digest, s, disk) && UpdateAction(s, p, s', event)
    requires event.Some? && event.value.reply.Consumed?
    ensures var Validated(record, now) := s.procs[p].phase;
            var hash := s.procs[p].call.hash;
            && hash in disk && disk[hash].consumedAt == None
            && Apply(digest, disk, event.value.op).0 == disk[hash := disk[hash].(consumedAt := Some(now))]
            && s'.table == s.table[hash := Item(Some(disk[hash].(consumedAt := Some(now))),
                Some(disk[hash].expiresAt), Some(now))]
            && now > 0 && hash in s.table
  {
  }

  lemma UpdateCalls(digest: Digest, s: System, disk: Codes, p: nat, s': System, event: Option<Event>)
    requires TableTracked(s, disk) && CallsTracked(digest, s, disk) && UpdateAction(s, p, s', event)
    requires event.Some? && event.value.reply.Consumed?
    ensures CallsTracked(digest, s', Apply(digest, disk, event.value.op).0)
  {
    ConsumedDisk(digest, s, disk, p, s', event);
    var disk' := Apply(digest, disk, event.value.op).0;
    forall q | q in s'.procs ensures CallTracked(digest, s', disk', s'.procs[q].call, s'.procs[q].phase) {
      if q != p {
        CallOf(digest, s, disk, q);
        OtherCallTracked(digest, s, s', disk, s.procs[p].call.hash, s.procs[p].phase.now, s.procs[q].call,
            s.procs[q].phase);
      }
    }
  }

  lemma UpdateTable(digest: Digest, s: System, disk: Codes, p: nat, s': System, event: Option<Event>)
    requires TableTracked(s, disk) && CallsTracked(digest, s, disk) && UpdateAction(s, p, s', event)
    requires event.Some? && event.value.reply.Consumed?
    ensures TableTracked(s', Apply(digest, disk, event.value.op).0)
  {
    ConsumedDisk(digest, s, disk, p, s', event);
    TableStays(s, s'.(table := s.table), disk);
  }

  lemma UpdateRefines(digest: Digest, s: System, disk: Codes, p: nat, s': System,
      event: Option<Event>)
    requires Inv(digest, s, disk) && UpdateAction(s, p, s', event)
    ensures Refines(digest, disk, s', event)
  {
    UpdateAgrees(digest, s, disk, p, s', event);
    if event.value.reply == Refused {
      MovingKeepsInv(digest, s, s', disk, p);
    } else {
      UpdateCalls(digest, s, disk, p, s', event);
      UpdateTable(digest, s, disk, p, s', event);
    }
  }

  lemma CollectRefines(digest: Digest, s: System, disk: Codes, hash: string, s': System,
      event: Option<Event>)
    requires Inv(digest, s, disk) && CollectAction(s, hash, s', event)
    ensures Refines(digest, disk, s', event)
  {
  }

  /** Every step of every request refines the disk store. */
  lemma StepRefines(digest: Digest, s: System, disk: Codes, step: Step, s': System,
      event: Option<Event>)
    requires Inv(digest, s, disk) && Next(digest, s, step, s', event)
    ensures Refines(digest, disk, s', event)
  {
    match step {
      case Arrive(p, call) => MovingKeepsInv(digest, s, s', disk, p);
      case Draw(p, hash) => DrawRefines(digest, s, disk, p, hash, s', event);
      case Put(p) => PutRefines(digest, s, disk, p, s', event);
      case Read(p) => ReadRefines(digest, s, disk, p, s', event);
      case Validate(p) => ValidateRefines(digest, s, disk, p, s', event);
      case Update(p) => UpdateRefines(digest, s, disk, p, s', event);
      case Tick(time) => TickRefines(digest, s, disk, time, s', event);
      case Collect(hash) => CollectRefines(digest, s, disk, hash, s', event);
    }
  }

  // ----- nothing gets stuck -----

  /** How many steps of its own a request is away from its reply, at most. */
  function StepsLeft(phase: Phase): nat {
    match phase
    case Arrived => 3
    case HasRecord(_) => 2
    case Validated(_, _) => 1
    case Creating(_, _) => 1
    case Replied(_) => 0
  }

  /** Whatever the others do, a request without a reply has a step that brings it closer to one. */
  lemma RequestMovesOn(digest: Digest, s: System, disk: Codes, p: nat, hash: string)
      returns (step: Step, s': System, event: Option<Event>)
    requires Inv(digest, s, disk) && p in s.procs && !s.procs[p].phase.Replied? && hash !in s.drawn
    ensures Next(digest, s, step, s', event)
    ensures p in s'.procs && StepsLeft(s'.procs[p].phase) < StepsLeft(s.procs[p].phase)
  {
    CallOf(digest, s, disk, p);
    var call, phase := s.procs[p].call, s.procs[p].phase;
    event := None;
    match phase {
      case Arrived =>
        if call.CreateCall? {
          step, s' := Draw(p, hash), To(s, p, Creating(hash, s.clock)).(drawn := s.drawn + {hash});
        } else {
          var record := ItemAt(s, call.hash).record;
          step, s' := Read(p), To(s, p, if record.Some? then HasRecord(record.value) else Replied(Refused));
          event := if record.Some? then None else Some(Event(ConsumeOp(call, s.clock), Refused));
        }
      case Creating(drawnHash, createdAt) =>
        var record := NewCode(drawnHash, call.input, createdAt);
        step := Put(p);
        s' := To(s, p, Replied(Created(drawnHash))).(table :=
            s.table[drawnHash := Item(Some(record), Some(record.expiresAt), None)]);
        event := Some(Event(CreateOp(drawnHash, call.input, createdAt), Created(drawnHash)));
      case HasRecord(record) =>
        var accepted := CodeAccepted(digest, record, call.verifier, call.expected, s.clock);
        step, s' := Validate(p), To(s, p, if accepted then Validated(record, s.clock) else Replied(Refused));
        event := if accepted then None else Some(Event(ConsumeOp(call, s.clock), Refused));
      case Validated(record, now) =>
        var item, consumed := ItemAt(s, call.hash), record.(consumedAt := Some(now));
        step := Update(p);
        if item.consumedAt.None? && item.expiresAt.Some? && item.expiresAt.value > now {
          s' := To(s, p, Replied(Consumed(consumed))).(table :=
              s.table[call.hash := item.(record := Some(consumed), consumedAt := Some(now))]);
          event := Some(Event(ConsumeOp(call, now), Consumed(consumed)));
        } else {
          s' := To(s, p, Replied(Refused));
          event := Some(Event(ConsumeOp(call, now), Refused));
        }
    }
  }
}
