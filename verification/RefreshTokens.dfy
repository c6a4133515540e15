/** Refresh-token creation and rotation as one atomic step over the map of records:
    the meaning of the disk store's operations, and the specification that the
    DynamoDB protocol is compared with. */
module RefreshTokens {
  import opened Wrappers
  import opened StoreRecords

  type Tokens = map<string, RefreshTokenRecord>

  datatype Grant = Grant(
    clientId: string,
    user: UserProfile,
    resource: string,
    scopes: seq<string>,
    authTime: int)

  datatype RotateRequest = RotateRequest(
    hash: string,
    clientId: string,
    ttlSeconds: int,
    expectedResource: Option<string>,
    allowedResources: Option<seq<string>>)

  /** `Rejected` and `Reused` reach the client as the same invalid_grant error. */
  datatype Outcome = Rejected | Reused | Rotated(oldRecord: RefreshTokenRecord) | Created

  /** What the caller sees: the rotated record, a created token, or invalid_grant. */
  function Response(outcome: Outcome): Option<Outcome> {
    if outcome.Rejected? || outcome.Reused? then None else Some(outcome)
  }

  function GrantOf(record: RefreshTokenRecord): Grant {
    Grant(record.clientId, record.user, record.resource, record.scopes, record.authTime)
  }

  function NewRecord(hash: string, familyId: string, grant: Grant, createdAt: int,
      ttlSeconds: int): RefreshTokenRecord {
    RefreshTokenRecord(hash, familyId, grant.clientId, grant.user, grant.resource, grant.scopes,
                       createdAt + ttlSeconds, grant.authTime, None, None, createdAt, None)
  }

  function Successor(parent: RefreshTokenRecord, parentHash: string, newHash: string, ttlSeconds: int,
      now: int): RefreshTokenRecord {
    NewRecord(newHash, parent.familyId, GrantOf(parent), now, ttlSeconds).(rotatedFromHash := Some(parentHash))
  }

  /** The resource checks shared by code consumption and rotation. */
  predicate ResourceAllowed(resource: string, expected: Option<string>, allowed: Option<seq<string>>) {
    && (expected.Some? ==> resource == expected.value)
    && (allowed.Some? ==> resource in allowed.value)
  }

  predicate RotationAllowed(record: RefreshTokenRecord, request: RotateRequest, now: int) {
    && !IsSet(record.revokedAt)
    && record.expiresAt > now
    && record.clientId == request.clientId
    && ResourceAllowed(record.resource, request.expectedResource, request.allowedResources)
  }

  predicate HasChild(tokens: Tokens, hash: string) {
    exists k | k in tokens :: tokens[k].rotatedFromHash == Some(hash)
  }

  function RevokeFamily(tokens: Tokens, familyId: string, now: int): Tokens {
    map h | h in tokens :: if tokens[h].familyId == familyId then tokens[h].(revokedAt := Some(now)) else tokens[h]
  }

  function Create(tokens: Tokens, hash: string, familyId: string, grant: Grant, ttlSeconds: int,
      createdAt: int): Tokens {
    tokens[hash := NewRecord(hash, familyId, grant, createdAt, ttlSeconds)]
  }

  function Rotate(tokens: Tokens, request: RotateRequest, now: int, newHash: string): (Tokens, Outcome) {
    if request.hash !in tokens || !RotationAllowed(tokens[request.hash], request, now) then
      (tokens, Rejected)
    else
      var parent := tokens[request.hash];
      if HasChild(tokens, request.hash) then
        (RevokeFamily(tokens, parent.familyId, now), Reused)
      else
        var used := parent.(lastUsedAt := Some(now));
        (tokens[request.hash := used][newHash := Successor(parent, request.hash, newHash, request.ttlSeconds, now)],
            Rotated(used))
  }

  // ----- what the operations mean, on the fields of the records -----

  /** A token is rotated exactly when it is stored, unrevoked, unexpired and its client's own, its
      resource is the one expected and among those allowed, and no token was rotated from it. */
  lemma RotatesIff(tokens: Tokens, request: RotateRequest, now: int, newHash: string)
    ensures Rotate(tokens, request, now, newHash).1.Rotated? <==>
            && request.hash in tokens
            && var record := tokens[request.hash];
            && (record.revokedAt == None || record.revokedAt == Some(0))
            && record.expiresAt > now
            && record.clientId == request.clientId
            && (request.expectedResource.Some? ==> record.resource == request.expectedResource.value)
            && (request.allowedResources.Some? ==> record.resource in request.allowedResources.value)
            && forall k | k in tokens :: tokens[k].rotatedFromHash != Some(request.hash)
  {
  }

  /** With the same checks passed, a token that was rotated before is reused: its family is revoked. */
  lemma ReusesIff(tokens: Tokens, request: RotateRequest, now: int, newHash: string)
    ensures Rotate(tokens, request, now, newHash).1.Reused? <==>
            && request.hash in tokens
            && var record := tokens[request.hash];
            && (record.revokedAt == None || record.revokedAt == Some(0))
            && record.expiresAt > now
            && record.clientId == request.clientId
            && (request.expectedResource.Some? ==> record.resource == request.expectedResource.value)
            && (request.allowedResources.Some? ==> record.resource in request.allowedResources.value)
            && exists k | k in tokens :: tokens[k].rotatedFromHash == Some(request.hash)
  {
  }

  /** A rotation marks the old token as used and adds one token: of the same family and grant, with a
      lifetime from now on. */
  lemma RotationLeaves(tokens: Tokens, request: RotateRequest, now: int, newHash: string)
    requires Rotate(tokens, request, now, newHash).1.Rotated? && newHash != request.hash
    ensures var (after, outcome) := Rotate(tokens, request, now, newHash);
            var parent, added := tokens[request.hash], after[newHash];
            && outcome.oldRecord == after[request.hash] == parent.(lastUsedAt := Some(now))
            && added.tokenHash == newHash && added.familyId == parent.familyId && added.clientId == parent.clientId
            && added.user == parent.user && added.resource == parent.resource && added.scopes == parent.scopes
            && added.authTime == parent.authTime
            && added.createdAt == now && added.expiresAt == now + request.ttlSeconds
            && added.rotatedFromHash == Some(request.hash) && added.revokedAt == None && added.lastUsedAt == None
            && after.Keys == tokens.Keys + {newHash}
            && forall h | h in tokens && h != request.hash && h != newHash :: after[h] == tokens[h]
  {
  }

  /** A created token can be rotated by its client for its resource until its lifetime is over. */
  lemma CreatedTokenRotatesIff(tokens: Tokens, hash: string, familyId: string, grant: Grant, ttlSeconds: int,
      createdAt: int, request: RotateRequest, now: int, newHash: string)
    requires request.hash == hash && forall k | k in tokens :: tokens[k].rotatedFromHash != Some(hash)
    ensures Rotate(Create(tokens, hash, familyId, grant, ttlSeconds, createdAt), request, now, newHash).1.Rotated? <==>
            && now < createdAt + ttlSeconds && request.clientId == grant.clientId
            && (request.expectedResource.Some? ==> grant.resource == request.expectedResource.value)
            && (request.allowedResources.Some? ==> grant.resource in request.allowedResources.value)
  {
    RotatesIff(Create(tokens, hash, familyId, grant, ttlSeconds, createdAt), request, now, newHash);
  }

  // ----- operations -----

  /** One atomic operation with the random values and the time it used. */
  datatype Operation =
    | CreateOp(hash: string, familyId: string, grant: Grant, ttlSeconds: int, createdAt: int)
    | RotateOp(request: RotateRequest, now: int, newHash: string)

  function Apply(tokens: Tokens, op: Operation): (Tokens, Outcome) {
    match op
    case CreateOp(hash, familyId, grant, ttlSeconds, createdAt) =>
      (Create(tokens, hash, familyId, grant, ttlSeconds, createdAt), Created)
    case RotateOp(request, now, newHash) =>
      Rotate(tokens, request, now, newHash)
  }

  /** Random values never collide with stored ones, and the clock reads more than zero. */
  predicate Fresh(tokens: Tokens, op: Operation) {
    match op
    case CreateOp(hash, familyId, _, _, _) =>
      hash !in tokens && forall h | h in tokens :: tokens[h].familyId != familyId
    case RotateOp(request, now, newHash) =>
      now > 0 && (Rotate(tokens, request, now, newHash).1.Rotated? ==> newHash !in tokens)
  }

  /** The store after a list of operations, oldest first. */
  function Replay(tokens: Tokens, ops: seq<Operation>): Tokens {
    if ops == [] then tokens else Apply(Replay(tokens, ops[..|ops| - 1]), ops[|ops| - 1]).0
  }

  predicate FreshRun(ops: seq<Operation>) {
    forall i | 0 <= i < |ops| :: Fresh(Replay(map[], ops[..i]), ops[i])
  }

  function OutcomeAt(ops: seq<Operation>, i: nat): Outcome
    requires i < |ops|
  {
    Apply(Replay(map[], ops[..i]), ops[i]).1
  }
}
