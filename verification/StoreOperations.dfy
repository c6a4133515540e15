/** Every operation of the disk store as one step from the persisted state to the next, and what
    those steps have in common: an operation that fails leaves no trace, with one exception. */
module StoreOperations {
  import opened Wrappers
  import opened StoreRecords
  import RefreshTokens
  import AuthorizationCodes
  import McpSessions
  import RateLimit
  import RateLimitStore

  datatype Request =
    | CreateCode(hash: string, codeInput: AuthorizationCodes.CodeInput, createdAt: int)
    | ConsumeCode(hash: string, verifier: Option<string>, expected: AuthorizationCodes.Expectation, now: int)
    | CreateToken(hash: string, familyId: string, grant: RefreshTokens.Grant, ttlSeconds: int, createdAt: int)
    | RotateToken(rotation: RefreshTokens.RotateRequest, now: int, newHash: string)
    | CreateState(hash: string, stateInput: AuthorizationCodes.StateInput, createdAt: int)
    | ConsumeState(hash: string, now: int)
    | SaveSession(session: McpSessionRecord)
    | TouchSession(hash: string, protocolVersion: Option<string>, markInitialized: bool, now: int)
    | ReserveRequestId(hash: string, idHash: string, now: int)
    | TerminateSession(hash: string, now: int)
    | HitRateLimit(key: string, policy: RateLimit.Policy, now: int)

  datatype Reply =
    | Done
    | Code(code: AuthorizationCodeRecord)
    | Token(token: RefreshTokenRecord)
    | State(state: UpstreamStateRecord)
    | Initialized(initialized: bool)
    | Granted(granted: bool)
    | Failed(error: ServiceError)

  predicate Callable(request: Request) {
    request.HitRateLimit? ==> request.policy.Valid()
  }

  function SessionAt(state: StoreState, hash: string): Option<McpSessionRecord> {
    if hash in state.mcpSessions then Some(state.mcpSessions[hash]) else None
  }

  function WithSession(state: StoreState, hash: string, session: McpSessionRecord): StoreState {
    state.(mcpSessions := state.mcpSessions[hash := session])
  }

  function Perform(digest: string -> string, state: StoreState, request: Request): (StoreState, Reply)
    requires Callable(request)
  {
    match request
    case CreateCode(hash, input, createdAt) =>
      (state.(authorizationCodes := AuthorizationCodes.CreateCode(state.authorizationCodes, hash, input, createdAt)),
          Done)
    case ConsumeCode(hash, verifier, expected, now) =>
      var (codes, result) := AuthorizationCodes.ConsumeCode(digest, state.authorizationCodes, hash, verifier,
          expected, now);
      (state.(authorizationCodes := codes), if result.Ok? then Code(result.value) else Failed(result.error))
    case CreateToken(hash, familyId, grant, ttlSeconds, createdAt) =>
      (state.(refreshTokens := RefreshTokens.Create(state.refreshTokens, hash, familyId, grant, ttlSeconds,
          createdAt)), Done)
    case RotateToken(rotation, now, newHash) =>
      var (tokens, outcome) := RefreshTokens.Rotate(state.refreshTokens, rotation, now, newHash);
      (state.(refreshTokens := tokens), if outcome.Rotated? then Token(outcome.oldRecord) else Failed(InvalidGrant))
    case CreateState(hash, input, createdAt) =>
      (state.(upstreamStates := AuthorizationCodes.CreateState(state.upstreamStates, hash, input, createdAt)), Done)
    case ConsumeState(hash, now) =>
      var (states, result) := AuthorizationCodes.ConsumeState(state.upstreamStates, hash, now);
      (state.(upstreamStates := states), if result.Ok? then State(result.value) else Failed(result.error))
    case SaveSession(session) =>
      (WithSession(state, session.sessionIdHash, session), Done)
    case TouchSession(hash, protocolVersion, markInitialized, now) =>
      (match McpSessions.Touch(SessionAt(state, hash), protocolVersion, markInitialized, now)
       case Ok(pair) => (WithSession(state, hash, pair.0), Initialized(pair.1))
       case Err(error) => (state, Failed(error)))
    case ReserveRequestId(hash, idHash, now) =>
      (match McpSessions.Reserve(SessionAt(state, hash), idHash, now)
       case Ok(pair) => (WithSession(state, hash, pair.0), Granted(pair.1))
       case Err(error) => (state, Failed(error)))
    case TerminateSession(hash, now) =>
      (match McpSessions.Terminate(SessionAt(state, hash), now)
       case Ok(session) => (WithSession(state, hash, session), Done)
       case Err(error) => (state, Failed(error)))
    case HitRateLimit(key, policy, now) =>
      var (limits, accepted) := RateLimitStore.Hit(state.rateLimits, key, policy, now);
      (state.(rateLimits := limits), if accepted then Done else Failed(RateLimited))
  }

  /** Exactly one family was revoked: its tokens got a revocation time, and nothing else changed. */
  ghost predicate OnlyFamilyRevoked(before: StoreState, after: StoreState, familyId: string, now: int) {
    && after == before.(refreshTokens := after.refreshTokens)
    && after.refreshTokens.Keys == before.refreshTokens.Keys
    && forall h | h in before.refreshTokens ::
         after.refreshTokens[h] ==
         if before.refreshTokens[h].familyId == familyId then before.refreshTokens[h].(revokedAt := Some(now))
             else before.refreshTokens[h]
  }

  /** The rotation of a token that already has a successor. */
  predicate IsReuse(state: StoreState, request: Request) {
    && request.RotateToken?
    && request.rotation.hash in state.refreshTokens
    && RefreshTokens.RotationAllowed(state.refreshTokens[request.rotation.hash], request.rotation, request.now)
    && RefreshTokens.HasChild(state.refreshTokens, request.rotation.hash)
  }

  /** A failed operation leaves the store exactly as it was, except that reuse of a refresh token
      revokes exactly its family. */
  lemma FailureLeavesNoTrace(digest: string -> string, state: StoreState, request: Request)
    requires Callable(request) && Perform(digest, state, request).1.Failed?
    ensures !IsReuse(state, request) ==> Perform(digest, state, request).0 == state
    ensures IsReuse(state, request) ==>
              OnlyFamilyRevoked(state, Perform(digest, state, request).0,
                  state.refreshTokens[request.rotation.hash].familyId, request.now)
  {
  }

  /** Reuse always fails, so the exception is exactly this case. */
  lemma ReuseFails(digest: string -> string, state: StoreState, request: Request)
    requires IsReuse(state, request)
    ensures Perform(digest, state, request).1 == Failed(InvalidGrant)
  {
  }

  /** What the update callback of a request leaves to be written, or None when it throws. */
  function Update(digest: string -> string, request: Request, state: StoreState): Option<StoreState>
    requires Callable(request)
  {
    var (after, reply) := Perform(digest, state, request);
    if reply.Failed? && !IsReuse(state, request) then None else Some(after)
  }

  predicate AllCallable(requests: seq<Request>) {
    forall i | 0 <= i < |requests| :: Callable(requests[i])
  }

  function Run(digest: string -> string, state: StoreState, requests: seq<Request>): StoreState
    requires AllCallable(requests)
    decreases |requests|
  {
    if requests == [] then state
    else Run(digest, Perform(digest, state, requests[0]).0, requests[1..])
  }

  /** The requests of a run that succeed or that reuse a refresh token, in order. */
  function Effective(digest: string -> string, state: StoreState, requests: seq<Request>): (kept: seq<Request>)
    requires AllCallable(requests)
    ensures AllCallable(kept)
    decreases |requests|
  {
    if requests == [] then []
    else
      var (after, reply) := Perform(digest, state, requests[0]);
      var rest := Effective(digest, after, requests[1..]);
      if reply.Failed? && !IsReuse(state, requests[0]) then rest else [requests[0]] + rest
  }

  /** Over a whole run, leaving out the requests that failed ends in the same store. */
  lemma {:induction false} FailuresCanBeLeftOut(digest: string -> string, state: StoreState, requests: seq<Request>)
    requires AllCallable(requests)
    ensures Run(digest, state, Effective(digest, state, requests)) == Run(digest, state, requests)
    decreases |requests|
  {
    if requests != [] {
      var (after, reply) := Perform(digest, state, requests[0]);
      FailuresCanBeLeftOut(digest, after, requests[1..]);
      if reply.Failed? && !IsReuse(state, requests[0]) {
        FailureLeavesNoTrace(digest, state, requests[0]);
      } else {
        var rest := Effective(digest, after, requests[1..]);
        assert ([requests[0]] + rest)[1..] == rest;
      }
    }
  }

  lemma {:induction false} RunOneMore(digest: string -> string, state: StoreState, requests: seq<Request>,
      last: Request)
    requires AllCallable(requests) && Callable(last)
    ensures Run(digest, state, requests + [last]) == Perform(digest, Run(digest, state, requests), last).0
    decreases |requests|
  {
    if requests != [] {
      RunOneMore(digest, Perform(digest, state, requests[0]).0, requests[1..], last);
      assert (requests + [last])[1..] == requests[1..] + [last];
    }
  }
}
