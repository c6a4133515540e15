/** The DynamoDB protocol refines the atomic operations of the disk store: `disk` is the store
    that the atomic operations build, which forgets nothing, and `chains` lists its families. */
module RefreshInvariant {
  import opened Wrappers
  import opened StoreRecords
  import opened RefreshTokens
  import opened FamilyChain
  import opened RefreshProtocol

  /** An item in the table holds the disk record, except that revocation is kept on the family. */
  function ItemOf(record: RefreshTokenRecord): TokenItem {
    TokenItem(Some(record.(revokedAt := None)), Some(record.expiresAt), None, record.lastUsedAt)
  }

  ghost predicate TokensTracked(s: System, disk: Tokens) {
    match s.table
    case Table(tokens, _, _) =>
      && (forall h | h in tokens :: h in disk && tokens[h] == ItemOf(disk[h]))
      && (forall h | h in disk && h !in tokens :: Expired(s, disk[h].expiresAt))
  }

  ghost predicate FamiliesTracked(s: System, disk: Tokens) {
    match s.table
    case Table(_, families, _) =>
      forall h | h in disk ::
        if disk[h].familyId in families then
          var family := families[disk[h].familyId];
          family.expiresAt.Some? && disk[h].expiresAt <= family.expiresAt.value && disk[h].revokedAt == family.revokedAt
        else
          Expired(s, disk[h].expiresAt)
  }

  ghost predicate MarkersTracked(s: System, disk: Tokens) {
    match s.table
    case Table(_, _, markers) =>
      && (forall h | h in markers :: h in disk && HasChild(disk, h) && disk[h].expiresAt <= markers[h].expiresAt)
      && (forall h | h in disk && HasChild(disk, h) && h !in markers :: Expired(s, disk[h].expiresAt))
  }

  /** Every token lives for the configured lifetime and was created in the past. */
  ghost predicate Aged(s: System, disk: Tokens) {
    match s
    case System(_, clock, lifetime, _, _) =>
      && clock > 0
      && forall h | h in disk :: disk[h].expiresAt == disk[h].createdAt + lifetime && disk[h].createdAt <= clock
  }

  /** The newest token of a family was created last, so it also expires last. */
  ghost predicate NewestLast(disk: Tokens) {
    forall h, k | h in disk && k in disk && disk[h].familyId == disk[k].familyId && !HasChild(disk, k) ::
      disk[h].createdAt <= disk[k].createdAt
  }

  /** The record a request has read is the token's own, up to use and revocation. */
  ghost predicate Read(disk: Tokens, request: RotateRequest, record: RefreshTokenRecord) {
    && request.hash in disk
    && record.(lastUsedAt := None) == disk[request.hash].(lastUsedAt := None, revokedAt := None)
    && (record.lastUsedAt.Some? ==> HasChild(disk, request.hash))
  }

  ghost predicate Checked(s: System, disk: Tokens, request: RotateRequest, record: RefreshTokenRecord, now: int) {
    && Read(disk, request, record)
    && 0 < now <= s.clock
    && record.createdAt <= now
    && RotationAllowed(record, request, now)
  }

  ghost predicate CallTracked(s: System, disk: Tokens, call: Request, phase: Phase) {
    match phase
    case Arrived => call.RotateCall? ==> call.request.ttlSeconds == s.lifetime
    case HasToken(record) => call.RotateCall? && call.request.ttlSeconds == s.lifetime
        && Read(disk, call.request, record)
    case HasClock(record, now) => call.RotateCall? && call.request.ttlSeconds == s.lifetime
        && Checked(s, disk, call.request, record, now)
    case HasFamily(record, now) => call.RotateCall? && call.request.ttlSeconds == s.lifetime
        && Checked(s, disk, call.request, record, now)
    case Committing(record, now, newHash) =>
      call.RotateCall? && call.request.ttlSeconds == s.lifetime && Checked(s, disk, call.request, record, now)
          && newHash !in disk
    case Revoking(record, now) =>
      && call.RotateCall? && call.request.ttlSeconds == s.lifetime && Checked(s, disk, call.request, record, now)
      && (HasChild(disk, call.request.hash) || IsSet(disk[call.request.hash].revokedAt))
    case Creating(hash, familyId, createdAt) =>
      && call.CreateCall? && hash !in disk && 0 < createdAt <= s.clock
      && familyId !in s.table.families && forall h | h in disk :: disk[h].familyId != familyId
    case Replied(_) => true
  }

  ghost predicate CallsTracked(s: System, disk: Tokens) {
    match s
    case System(_, _, _, procs, _) => forall p | p in procs :: CallTracked(s, disk, procs[p].call, procs[p].phase)
  }

  function Holds(phase: Phase): set<string> {
    match phase
    case Committing(_, _, newHash) => {newHash}
    case Creating(hash, familyId, _) => {hash, familyId}
    case _ => {}
  }

  /** Every random value in use was drawn, and no two requests drew the same one. */
  ghost predicate DrawsTracked(s: System, disk: Tokens) {
    match s
    case System(table, _, _, procs, drawn) =>
      && (forall h | h in disk :: h in drawn && disk[h].familyId in drawn)
      && (forall f | f in table.families :: f in drawn)
      && (forall p | p in procs :: Holds(procs[p].phase) <= drawn)
      && (forall p, q | p in procs && q in procs && p != q :: Holds(procs[p].phase) !! Holds(procs[q].phase))
  }

  /** A token was used exactly when it has a child, and a revocation time is never zero. */
  ghost predicate Stamped(disk: Tokens) {
    forall h | h in disk :: (disk[h].lastUsedAt.Some? <==> HasChild(disk, h))
        && (disk[h].revokedAt.Some? ==> IsSet(disk[h].revokedAt))
  }

  /** Every parent is in the store, in the family of its child. */
  ghost predicate Rooted(disk: Tokens) {
    forall k | k in disk && disk[k].rotatedFromHash.Some? ::
      disk[k].rotatedFromHash.value in disk && disk[disk[k].rotatedFromHash.value].familyId == disk[k].familyId
  }

  ghost predicate OneLeaf(disk: Tokens) {
    forall h, k | h in disk && k in disk && disk[h].familyId == disk[k].familyId && !HasChild(disk, h)
        && !HasChild(disk, k) :: h == k
  }

  ghost predicate Inv(s: System, disk: Tokens, chains: Chains) {
    && Chained(disk, chains)
    && TokensTracked(s, disk)
    && FamiliesTracked(s, disk)
    && MarkersTracked(s, disk)
    && Aged(s, disk)
    && NewestLast(disk)
    && CallsTracked(s, disk)
    && DrawsTracked(s, disk)
  }

  /** Samples are taken in order, so what has expired stays expired. */
  ghost predicate TimeMovesOn(s: System, s': System) {
    && s.clock <= s'.clock
    && forall p | p in s'.procs && Sampled(s'.procs[p].phase) ::
         || s.clock <= s'.procs[p].phase.now
         || (p in s.procs && Sampled(s.procs[p].phase) && s.procs[p].phase.now == s'.procs[p].phase.now)
  }

  /** One request moves on by itself, drawing only new values. */
  ghost predicate MovesAlone(s: System, s': System, p: nat) {
    && p in s'.procs
    && s' == s.(procs := s.procs[p := s'.procs[p]], drawn := s'.drawn)
    && s.drawn <= s'.drawn
    && Holds(s'.procs[p].phase) <= s'.drawn
    && (Holds(s'.procs[p].phase) == {} || Holds(s'.procs[p].phase) !! s.drawn)
    && (Sampled(s'.procs[p].phase) ==>
          || s'.procs[p].phase.now == s.clock
          || (p in s.procs && Sampled(s.procs[p].phase) && s.procs[p].phase.now == s'.procs[p].phase.now))
  }

  /** What an event must satisfy: the same operation, run atomically, gives the same reply. */
  ghost predicate Matches(disk: Tokens, event: Event) {
    Fresh(disk, event.op) && Response(Apply(disk, event.op).1) == event.reply
  }

  /** A step that completes nothing, or an operation that changes nothing. */
  ghost predicate Unchanging(disk: Tokens, event: Option<Event>) {
    event.Some? ==> Matches(disk, event.value) && Apply(disk, event.value.op).0 == disk
  }

  /** The step agrees with the disk: it completes nothing, or it completes one atomic operation
      with the same reply and reaches the state after that operation. */
  ghost predicate Refines(disk: Tokens, chains: Chains, s': System, event: Option<Event>) {
    match event
    case None => Inv(s', disk, chains)
    case Some(e) => Matches(disk, e) && Inv(s', Apply(disk, e.op).0, ChainsAfter(disk, chains, e.op))
  }
}
