/** Refresh-token rotation on DynamoDB: any number of requests read, sample the clock, check
    and write one shared table, one step at a time, while expired items are collected.
    An item is an attribute map, so an update of a missing item would create it. */
module RefreshProtocol {
  import opened Wrappers
  import opened StoreRecords
  import opened RefreshTokens

  datatype TokenItem = TokenItem(
    record: Option<RefreshTokenRecord>,
    expiresAt: Option<int>,
    revokedAt: Option<int>,
    lastUsedAt: Option<int>)

  datatype FamilyItem = FamilyItem(expiresAt: Option<int>, revokedAt: Option<int>)

  datatype MarkerItem = MarkerItem(familyId: string, createdAt: int, expiresAt: int)

  datatype Table = Table(
    tokens: map<string, TokenItem>,
    families: map<string, FamilyItem>,
    markers: map<string, MarkerItem>)

  datatype Request = RotateCall(request: RotateRequest) | CreateCall(grant: Grant)

  /** How far a request has come; `now` is the time it sampled. */
  datatype Phase =
    | Arrived
    | HasToken(record: RefreshTokenRecord)
    | HasClock(record: RefreshTokenRecord, now: int)
    | HasFamily(record: RefreshTokenRecord, now: int)
    | Committing(record: RefreshTokenRecord, now: int, newHash: string)
    | Revoking(record: RefreshTokenRecord, now: int)
    | Creating(hash: string, familyId: string, createdAt: int)
    | Replied(reply: Option<Outcome>)

  datatype Process = Process(call: Request, phase: Phase)

  /** `lifetime` is the configured refresh-token lifetime; `drawn` holds every random value ever drawn. */
  datatype System = System(
    table: Table,
    clock: int,
    lifetime: int,
    procs: map<nat, Process>,
    drawn: set<string>)

  datatype Step =
    | Arrive(p: nat, call: Request)
    | ReadToken(p: nat)
    | SampleClock(p: nat)
    | ReadFamily(p: nat)
    | ReadMarker(p: nat, newHash: string)
    | Transact(p: nat)
    | Revoke(p: nat)
    | DrawTokens(p: nat, hash: string, familyId: string)
    | WriteNew(p: nat)
    | Tick(time: int)
    | CollectToken(hash: string)
    | CollectFamily(familyId: string)
    | CollectMarker(hash: string)

  /** An atomic operation together with the reply its caller received. */
  datatype Event = Event(op: Operation, reply: Option<Outcome>)

  // ----- conditional writes -----

  const NO_TOKEN := TokenItem(None, None, None, None)
  const NO_FAMILY := FamilyItem(None, None)

  function TokenAt(table: Table, hash: string): TokenItem {
    if hash in table.tokens then table.tokens[hash] else NO_TOKEN
  }

  function FamilyAt(table: Table, familyId: string): FamilyItem {
    if familyId in table.families then table.families[familyId] else NO_FAMILY
  }

  /** attribute_not_exists(revokedAt) AND expiresAt > :now, false when expiresAt is missing. */
  predicate UpdatableAt(expiresAt: Option<int>, revokedAt: Option<int>, now: int) {
    revokedAt.None? && expiresAt.Some? && expiresAt.value > now
  }

  function StoredItem(record: RefreshTokenRecord): TokenItem {
    TokenItem(Some(record), Some(record.expiresAt), None, None)
  }

  /** The four-item transaction; None when a condition fails. */
  function RotateTransaction(table: Table, record: RefreshTokenRecord, hash: string, ttlSeconds: int, now: int,
      newHash: string): Option<Table> {
    var token, family := TokenAt(table, hash), FamilyAt(table, record.familyId);
    if newHash in table.tokens || hash in table.markers
      || !UpdatableAt(token.expiresAt, token.revokedAt, now) || !UpdatableAt(family.expiresAt, family.revokedAt,
          now) then
      None
    else
      var successor := Successor(record, hash, newHash, ttlSeconds, now);
      var used := record.(lastUsedAt := Some(now));
      Some(Table(
             table.tokens[newHash := StoredItem(successor)][hash :=
                 token.(record := Some(used), lastUsedAt := Some(now))],
             table.families[record.familyId := family.(expiresAt := Some(successor.expiresAt))],
             table.markers[hash := MarkerItem(record.familyId, now, successor.expiresAt)]))
  }

  /** attribute_exists(pk) AND attribute_not_exists(revokedAt); a failed condition is ignored. */
  function RevokeUpdate(table: Table, familyId: string, now: int): Table {
    if familyId in table.families && table.families[familyId].revokedAt.None? then
      table.(families := table.families[familyId := table.families[familyId].(revokedAt := Some(now))])
    else
      table
  }

  function CreateTransaction(table: Table, record: RefreshTokenRecord): Option<Table> {
    if record.tokenHash in table.tokens || record.familyId in table.families then None
    else
      Some(table.(tokens := table.tokens[record.tokenHash := StoredItem(record)],
                  families := table.families[record.familyId := FamilyItem(Some(record.expiresAt), None)]))
  }

  // ----- requests -----

  predicate Sampled(phase: Phase) {
    phase.HasClock? || phase.HasFamily? || phase.Committing? || phase.Revoking?
  }

  /** Expired at the clock and at the time every request in flight has sampled. */
  ghost predicate Expired(s: System, expiresAt: int) {
    && expiresAt <= s.clock
    && forall p | p in s.procs && Sampled(s.procs[p].phase) :: expiresAt <= s.procs[p].phase.now
  }

  function To(s: System, p: nat, phase: Phase): System
    requires p in s.procs
  {
    s.(procs := s.procs[p := s.procs[p].(phase := phase)])
  }

  predicate FamilyAccepts(family: FamilyItem, now: int) {
    family.revokedAt.None? && family.expiresAt.Some? && family.expiresAt.value > now
  }

  ghost predicate Rotating(s: System, p: nat) {
    p in s.procs && s.procs[p].call.RotateCall?
  }

  /** A refusal replies invalid_grant and stands for an atomic rotation at time `now`. */
  ghost predicate Refuse(s: System, p: nat, now: int, s': System, event: Option<Event>)
    requires Rotating(s, p)
  {
    && s' == To(s, p, Replied(None))
    && event == Some(Event(RotateOp(s.procs[p].call.request, now, ""), None))
  }

  // ----- the actions; `event` is the atomic operation that the step completes, if any -----

  ghost predicate ArriveAction(s: System, p: nat, call: Request, s': System, event: Option<Event>) {
    && p !in s.procs && (call.RotateCall? ==> call.request.ttlSeconds == s.lifetime)
    && s' == s.(procs := s.procs[p := Process(call, Arrived)])
    && event == None
  }

  /** A read that finds nothing settles the request: the time sampled after it decides nothing. */
  ghost predicate ReadTokenAction(s: System, p: nat, s': System, event: Option<Event>) {
    && Rotating(s, p) && s.procs[p].phase.Arrived?
    && var item := TokenAt(s.table, s.procs[p].call.request.hash);
    if item.record.Some? then
      s' == To(s, p, HasToken(item.record.value)) && event == None
    else
      Refuse(s, p, s.clock, s', event)
  }

  ghost predicate SampleClockAction(s: System, p: nat, s': System, event: Option<Event>) {
    && Rotating(s, p) && s.procs[p].phase.HasToken?
    && var record := s.procs[p].phase.record;
    if RotationAllowed(record, s.procs[p].call.request, s.clock) then
      s' == To(s, p, HasClock(record, s.clock)) && event == None
    else
      Refuse(s, p, s.clock, s', event)
  }

  ghost predicate ReadFamilyAction(s: System, p: nat, s': System, event: Option<Event>) {
    && Rotating(s, p) && s.procs[p].phase.HasClock?
    && var HasClock(record, now) := s.procs[p].phase;
    if FamilyAccepts(FamilyAt(s.table, record.familyId), now) then
      s' == To(s, p, HasFamily(record, now)) && event == None
    else
      Refuse(s, p, now, s', event)
  }

  ghost predicate ReadMarkerAction(s: System, p: nat, newHash: string, s': System, event: Option<Event>) {
    && Rotating(s, p) && s.procs[p].phase.HasFamily?
    && newHash !in s.drawn && event == None
    && var HasFamily(record, now) := s.procs[p].phase;
    if s.procs[p].call.request.hash in s.table.markers then
      s' == To(s, p, Revoking(record, now))
    else
      s' == To(s, p, Committing(record, now, newHash)).(drawn := s.drawn + {newHash})
  }

  ghost predicate TransactAction(s: System, p: nat, s': System, event: Option<Event>) {
    && Rotating(s, p) && s.procs[p].phase.Committing?
    && var Committing(record, now, newHash) := s.procs[p].phase;
    && var request := s.procs[p].call.request;
    && var reply := Some(Rotated(record.(lastUsedAt := Some(now))));
    match RotateTransaction(s.table, record, request.hash, request.ttlSeconds, now, newHash)
    case Some(table) =>
      s' == To(s, p, Replied(reply)).(table := table) && event == Some(Event(RotateOp(request, now, newHash), reply))
    case None =>
      s' == To(s, p, Revoking(record, now)) && event == None
  }

  ghost predicate RevokeAction(s: System, p: nat, s': System, event: Option<Event>) {
    && Rotating(s, p) && s.procs[p].phase.Revoking?
    && var Revoking(record, now) := s.procs[p].phase;
    && s' == To(s, p, Replied(None)).(table := RevokeUpdate(s.table, record.familyId, now))
    && event == Some(Event(RotateOp(s.procs[p].call.request, now, ""), None))
  }

  ghost predicate DrawTokensAction(s: System, p: nat, hash: string, familyId: string, s': System,
      event: Option<Event>) {
    && p in s.procs && s.procs[p].call.CreateCall? && s.procs[p].phase.Arrived?
    && hash !in s.drawn && familyId !in s.drawn
    && s' == To(s, p, Creating(hash, familyId, s.clock)).(drawn := s.drawn + {hash, familyId})
    && event == None
  }

  ghost predicate WriteNewAction(s: System, p: nat, s': System, event: Option<Event>) {
    && p in s.procs && s.procs[p].call.CreateCall? && s.procs[p].phase.Creating?
    && var Creating(hash, familyId, createdAt) := s.procs[p].phase;
    && var grant := s.procs[p].call.grant;
    match CreateTransaction(s.table, NewRecord(hash, familyId, grant, createdAt, s.lifetime))
    case Some(table) =>
      && s' == To(s, p, Replied(Some(Created))).(table := table)
      && event == Some(Event(CreateOp(hash, familyId, grant, s.lifetime, createdAt), Some(Created)))
    case None =>
      s' == To(s, p, Replied(None)) && event == None
  }

  ghost predicate TickAction(s: System, time: int, s': System, event: Option<Event>) {
    s.clock <= time && s' == s.(clock := time) && event == None
  }

  /** Expiry collection removes an item once it has expired for every request in flight. */
  ghost predicate CollectTokenAction(s: System, hash: string, s': System, event: Option<Event>) {
    && hash in s.table.tokens && s.table.tokens[hash].expiresAt.Some?
    && Expired(s, s.table.tokens[hash].expiresAt.value)
    && s' == s.(table := s.table.(tokens := s.table.tokens - {hash})) && event == None
  }

  ghost predicate CollectFamilyAction(s: System, familyId: string, s': System, event: Option<Event>) {
    && familyId in s.table.families && s.table.families[familyId].expiresAt.Some?
    && Expired(s, s.table.families[familyId].expiresAt.value)
    && s' == s.(table := s.table.(families := s.table.families - {familyId})) && event == None
  }

  ghost predicate CollectMarkerAction(s: System, hash: string, s': System, event: Option<Event>) {
    && hash in s.table.markers && Expired(s, s.table.markers[hash].expiresAt)
    && s' == s.(table := s.table.(markers := s.table.markers - {hash})) && event == None
  }

  ghost predicate Next(s: System, step: Step, s': System, event: Option<Event>) {
    match step
    case Arrive(p, call) => ArriveAction(s, p, call, s', event)
    case ReadToken(p) => ReadTokenAction(s, p, s', event)
    case SampleClock(p) => SampleClockAction(s, p, s', event)
    case ReadFamily(p) => ReadFamilyAction(s, p, s', event)
    case ReadMarker(p, newHash) => ReadMarkerAction(s, p, newHash, s', event)
    case Transact(p) => TransactAction(s, p, s', event)
    case Revoke(p) => RevokeAction(s, p, s', event)
    case DrawTokens(p, hash, familyId) => DrawTokensAction(s, p, hash, familyId, s', event)
    case WriteNew(p) => WriteNewAction(s, p, s', event)
    case Tick(time) => TickAction(s, time, s', event)
    case CollectToken(hash) => CollectTokenAction(s, hash, s', event)
    case CollectFamily(familyId) => CollectFamilyAction(s, familyId, s', event)
    case CollectMarker(hash) => CollectMarkerAction(s, hash, s', event)
  }

  predicate Init(s: System) {
    s.table == Table(map[], map[], map[]) && s.clock > 0 && s.procs == map[] && s.drawn == {}
  }

  // ----- nothing gets stuck -----

  /** How many steps of its own a request is away from its reply, at most. */
  function StepsLeft(phase: Phase): nat {
    match phase
    case Arrived => 6
    case HasToken(_) => 5
    case HasClock(_, _) => 4
    case HasFamily(_, _) => 3
    case Committing(_, _, _) => 2
    case Revoking(_, _) => 1
    case Creating(_, _, _) => 1
    case Replied(_) => 0
  }

  /** Whatever the others do, a request without a reply has a step that brings it closer to one. */
  lemma RequestMovesOn(s: System, p: nat, hash: string, familyId: string)
      returns (step: Step, s': System, event: Option<Event>)
    requires p in s.procs && !s.procs[p].phase.Replied? && hash !in s.drawn && familyId !in s.drawn
    requires s.procs[p].phase.Arrived? || (s.procs[p].phase.Creating? <==> s.procs[p].call.CreateCall?)
    ensures Next(s, step, s', event)
    ensures p in s'.procs && StepsLeft(s'.procs[p].phase) < StepsLeft(s.procs[p].phase)
  {
    var call, phase := s.procs[p].call, s.procs[p].phase;
    event := None;
    match phase {
      case Arrived =>
        if call.CreateCall? {
          step := DrawTokens(p, hash, familyId);
          s' := To(s, p, Creating(hash, familyId, s.clock)).(drawn := s.drawn + {hash, familyId});
        } else {
          step := ReadToken(p);
          var item := TokenAt(s.table, call.request.hash);
          s' := To(s, p, if item.record.Some? then HasToken(item.record.value) else Replied(None));
          event := if item.record.Some? then None else Some(Event(RotateOp(call.request, s.clock, ""), None));
        }
      case HasToken(record) =>
        step := SampleClock(p);
        var allowed := RotationAllowed(record, call.request, s.clock);
        s' := To(s, p, if allowed then HasClock(record, s.clock) else Replied(None));
        event := if allowed then None else Some(Event(RotateOp(call.request, s.clock, ""), None));
      case HasClock(record, now) =>
        step := ReadFamily(p);
        var accepts := FamilyAccepts(FamilyAt(s.table, record.familyId), now);
        s' := To(s, p, if accepts then HasFamily(record, now) else Replied(None));
        event := if accepts then None else Some(Event(RotateOp(call.request, now, ""), None));
      case HasFamily(record, now) =>
        step := ReadMarker(p, hash);
        s' := if call.request.hash in s.table.markers then To(s, p, Revoking(record, now))
              else To(s, p, Committing(record, now, hash)).(drawn := s.drawn + {hash});
      case Committing(record, now, newHash) =>
        step := Transact(p);
        var reply := Some(Rotated(record.(lastUsedAt := Some(now))));
        match RotateTransaction(s.table, record, call.request.hash, call.request.ttlSeconds, now, newHash) {
          case Some(table) =>
            s' := To(s, p, Replied(reply)).(table := table);
            event := Some(Event(RotateOp(call.request, now, newHash), reply));
          case None => s' := To(s, p, Revoking(record, now));
        }
      case Revoking(record, now) =>
        step := Revoke(p);
        s' := To(s, p, Replied(None)).(table := RevokeUpdate(s.table, record.familyId, now));
        event := Some(Event(RotateOp(call.request, now, ""), None));
      case Creating(drawnHash, drawnFamily, createdAt) =>
        step := WriteNew(p);
        match CreateTransaction(s.table, NewRecord(drawnHash, drawnFamily, call.grant, createdAt, s.lifetime)) {
          case Some(table) =>
            s' := To(s, p, Replied(Some(Created))).(table := table);
            event := Some(Event(CreateOp(drawnHash, drawnFamily, call.grant, s.lifetime, createdAt), Some(Created)));
          case None => s' := To(s, p, Replied(None));
        }
    }
  }
}
