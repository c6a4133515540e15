/** Every store that operations on well-formed inputs can reach is written and read back as it was. */
module StoreReload {
  import opened Wrappers
  import opened StoreRecords
  import opened Json
  import opened UserProfiles
  import opened StoreRows
  import opened RecordRows
  import opened StoreCodec
  import opened StoreOperations
  import RefreshTokens
  import AuthorizationCodes
  import McpSessions
  import RateLimit
  import RateLimitStore

  predicate CodesStorableAt(codes: AuthorizationCodes.Codes, clock: int) {
    CodesStorable(codes) && forall h | h in codes :: codes[h].createdAt <= clock
  }

  predicate TokensStorableAt(tokens: RefreshTokens.Tokens, clock: int) {
    TokensStorable(tokens) && forall h | h in tokens :: tokens[h].createdAt <= clock
  }

  predicate SessionsStorableAt(sessions: map<string, McpSessionRecord>, clock: int) {
    SessionsStorable(sessions) && forall h | h in sessions :: sessions[h].createdAt <= clock
  }

  /** Storable, with no record created after the clock. */
  predicate StorableAt(state: StoreState, clock: int) {
    && CodesStorableAt(state.authorizationCodes, clock) && TokensStorableAt(state.refreshTokens, clock)
    && StatesStorable(state.upstreamStates) && SessionsStorableAt(state.mcpSessions, clock)
    && LimitsStorable(state.rateLimits)
  }

  /** A lifetime that starts by the clock and ends at a time the file can hold. */
  predicate Lifetime(createdAt: int, ttlSeconds: int, clock: int) {
    0 <= createdAt <= clock && ttlSeconds >= 0 && createdAt + ttlSeconds <= MAX_SAFE_INTEGER
  }

  predicate WellFormedCode(input: AuthorizationCodes.CodeInput) {
    && !Blank(input.clientId) && !Blank(input.redirectUri) && !Blank(input.resource) && IsScopes(input.scopes)
    && PkceStorable(AuthorizationCodes.Kept(input.nonce), AuthorizationCodes.Kept(input.codeChallenge),
                    AuthorizationCodes.Kept(input.codeChallengeMethod))
    && IsProfile(input.user)
  }

  predicate WellFormedState(input: AuthorizationCodes.StateInput) {
    && !Blank(input.clientId) && !Blank(input.redirectUri) && !Blank(input.resource) && IsScopes(input.scopes)
    && !Blank(input.clientState) && !Blank(input.codeVerifier) && IsNonce(input.upstreamNonce)
    && PkceStorable(AuthorizationCodes.Kept(input.nonce), AuthorizationCodes.Kept(input.codeChallenge),
                    AuthorizationCodes.Kept(input.codeChallengeMethod))
  }

  predicate WellFormedGrant(grant: RefreshTokens.Grant, createdAt: int) {
    && !Blank(grant.clientId) && IsProfile(grant.user) && !Blank(grant.resource) && IsScopes(grant.scopes)
    && 0 <= grant.authTime <= createdAt
  }

  /** Inputs as the rest of the service prepares them. A creation time is sampled before the update
      and so may lie behind the clock; every other time is sampled inside it. */
  predicate WellFormed(request: Request, clock: int) {
    && IsSeconds(clock)
    && match request
       case CreateCode(hash, input, createdAt) => IsHash(hash) && WellFormedCode(input)
           && Lifetime(createdAt, input.ttlSeconds, clock)
       case ConsumeCode(_, _, _, now) => now == clock
       case CreateToken(hash, familyId, grant, ttlSeconds, createdAt) =>
         IsHash(hash) && !Blank(familyId) && WellFormedGrant(grant, createdAt) && Lifetime(createdAt, ttlSeconds, clock)
       case RotateToken(rotation, now, newHash) => now == clock && IsHash(newHash)
           && Lifetime(now, rotation.ttlSeconds, clock)
       case CreateState(hash, input, createdAt) => IsHash(hash) && WellFormedState(input)
           && Lifetime(createdAt, input.ttlSeconds, clock)
       case ConsumeState(_, now) => now == clock
       case SaveSession(session) => SessionStorable(session) && session.createdAt <= clock
       case TouchSession(_, _, _, now) => now == clock
       case ReserveRequestId(_, idHash, now) => now == clock && IsHash(idHash)
       case TerminateSession(_, now) => now == clock
       case HitRateLimit(key, policy, now) =>
         && now == clock && IsHash(key) && policy.Valid() && policy.maxRequests <= MAX_SAFE_INTEGER
         && now + policy.windowSeconds * 2 <= MAX_SAFE_INTEGER
  }

  lemma TimePasses(state: StoreState, clock: int, later: int)
    requires StorableAt(state, clock) && clock <= later
    ensures StorableAt(state, later)
  {
  }

  // ----- one kind of record at a time -----

  lemma OneCodeStays(codes: AuthorizationCodes.Codes, hash: string,
      record: AuthorizationCodeRecord, clock: int)
    requires CodesStorableAt(codes, clock) && IsHash(hash) && CodeStorable(record) && record.createdAt <= clock
    ensures CodesStorableAt(codes[hash := record], clock)
  {
  }

  lemma ConsumedCodeIsStorable(record: AuthorizationCodeRecord, clock: int)
    requires CodeStorable(record) && IsTime(clock, record.createdAt)
    ensures CodeStorable(record.(consumedAt := Some(clock)))
  {
  }

  lemma ConsumedCodesStay(digest: string -> string, codes: AuthorizationCodes.Codes, hash: string,
      verifier: Option<string>, expected: AuthorizationCodes.Expectation, clock: int)
    requires CodesStorableAt(codes, clock) && IsSeconds(clock)
    ensures CodesStorableAt(AuthorizationCodes.ConsumeCode(digest, codes, hash, verifier, expected, clock).0, clock)
  {
    if hash in codes && AuthorizationCodes.CodeAccepted(digest, codes[hash], verifier, expected, clock) {
      ConsumedCodeIsStorable(codes[hash], clock);
      OneCodeStays(codes, hash, codes[hash].(consumedAt := Some(clock)), clock);
    }
  }

  lemma CodesAfter(digest: string -> string, state: StoreState, request: Request)
    requires Callable(request)
    ensures Perform(digest, state, request).0.authorizationCodes ==
            match request
            case CreateCode(hash, input, createdAt) =>
              AuthorizationCodes.CreateCode(state.authorizationCodes, hash, input, createdAt)
            case ConsumeCode(hash, verifier, expected, now) =>
              AuthorizationCodes.ConsumeCode(digest, state.authorizationCodes, hash, verifier, expected, now).0
            case _ => state.authorizationCodes
  {
  }

  lemma CodesStay(digest: string -> string, state: StoreState, request: Request, clock: int)
    requires CodesStorableAt(state.authorizationCodes, clock) && WellFormed(request, clock) && Callable(request)
    ensures CodesStorableAt(Perform(digest, state, request).0.authorizationCodes, clock)
  {
    CodesAfter(digest, state, request);
    match request {
      case CreateCode(hash, input, createdAt) =>
        OneCodeStays(state.authorizationCodes, hash, AuthorizationCodes.NewCode(hash, input, createdAt), clock);
      case ConsumeCode(hash, verifier, expected, _) =>
        ConsumedCodesStay(digest, state.authorizationCodes, hash, verifier, expected, clock);
      case _ =>
    }
  }

  lemma OneTokenStays(tokens: RefreshTokens.Tokens, hash: string, record: RefreshTokenRecord,
      clock: int)
    requires TokensStorableAt(tokens, clock) && IsHash(hash) && TokenStorable(record) && record.createdAt <= clock
    ensures TokensStorableAt(tokens[hash := record], clock)
  {
  }

  lemma RevokedTokensStay(tokens: RefreshTokens.Tokens, familyId: string, clock: int)
    requires TokensStorableAt(tokens, clock) && IsSeconds(clock)
    ensures TokensStorableAt(RefreshTokens.RevokeFamily(tokens, familyId, clock), clock)
  {
  }

  lemma UsedTokenIsStorable(record: RefreshTokenRecord, clock: int)
    requires TokenStorable(record) && IsTime(clock, record.createdAt)
    ensures TokenStorable(record.(lastUsedAt := Some(clock)))
  {
  }

  lemma SuccessorIsStorable(parent: RefreshTokenRecord, hash: string, newHash: string,
      ttlSeconds: int, clock: int)
    requires TokenStorable(parent) && IsTime(clock, parent.createdAt) && IsHash(hash) && IsHash(newHash)
        && Lifetime(clock, ttlSeconds, clock)
    ensures TokenStorable(RefreshTokens.Successor(parent, hash, newHash, ttlSeconds, clock))
  {
  }

  lemma RotatedTokensStay(tokens: RefreshTokens.Tokens, request: RefreshTokens.RotateRequest,
      clock: int, newHash: string)
    requires TokensStorableAt(tokens, clock) && IsSeconds(clock) && IsHash(newHash)
        && Lifetime(clock, request.ttlSeconds, clock)
    ensures TokensStorableAt(RefreshTokens.Rotate(tokens, request, clock, newHash).0, clock)
  {
    if request.hash in tokens {
      var parent := tokens[request.hash];
      var used := parent.(lastUsedAt := Some(clock));
      if RefreshTokens.HasChild(tokens, request.hash) {
        RevokedTokensStay(tokens, parent.familyId, clock);
      } else {
        UsedTokenIsStorable(parent, clock);
        OneTokenStays(tokens, request.hash, used, clock);
        SuccessorIsStorable(parent, request.hash, newHash, request.ttlSeconds, clock);
        OneTokenStays(tokens[request.hash := used], newHash, RefreshTokens.Successor(parent, request.hash, newHash,
            request.ttlSeconds, clock), clock);
      }
    }
  }

  lemma TokensStay(digest: string -> string, state: StoreState, request: Request, clock: int)
    requires TokensStorableAt(state.refreshTokens, clock) && WellFormed(request, clock) && Callable(request)
    ensures TokensStorableAt(Perform(digest, state, request).0.refreshTokens, clock)
  {
    match request {
      case RotateToken(rotation, _, newHash) => RotatedTokensStay(state.refreshTokens, rotation, clock, newHash);
      case CreateToken(hash, familyId, grant, ttlSeconds, createdAt) =>
        OneTokenStays(state.refreshTokens, hash, RefreshTokens.NewRecord(hash, familyId, grant, createdAt,
            ttlSeconds), clock);
      case _ =>
    }
  }

  lemma StatesStay(digest: string -> string, state: StoreState, request: Request, clock: int)
    requires StatesStorable(state.upstreamStates) && WellFormed(request, clock) && Callable(request)
    ensures StatesStorable(Perform(digest, state, request).0.upstreamStates)
  {
  }

  lemma OneSessionStays(state: StoreState, hash: string, session: McpSessionRecord, clock: int)
    requires SessionsStorableAt(state.mcpSessions, clock) && IsHash(hash) && SessionStorable(session)
        && session.createdAt <= clock
    ensures SessionsStorableAt(WithSession(state, hash, session).mcpSessions, clock)
  {
  }

  lemma SessionsStay(digest: string -> string, state: StoreState, request: Request, clock: int)
    requires SessionsStorableAt(state.mcpSessions, clock) && WellFormed(request, clock) && Callable(request)
    ensures SessionsStorableAt(Perform(digest, state, request).0.mcpSessions, clock)
  {
    match request {
      case SaveSession(session) => OneSessionStays(state, session.sessionIdHash, session, clock);
      case TouchSession(hash, version, mark, _) =>
        var touched := McpSessions.Touch(SessionAt(state, hash), version, mark, clock);
        if touched.Ok? {
          OneSessionStays(state, hash, touched.value.0, clock);
        }
      case ReserveRequestId(hash, idHash, _) =>
        var reserved := McpSessions.Reserve(SessionAt(state, hash), idHash, clock);
        if reserved.Ok? {
          OneSessionStays(state, hash, reserved.value.0, clock);
        }
      case TerminateSession(hash, _) =>
        var terminated := McpSessions.Terminate(SessionAt(state, hash), clock);
        if terminated.Ok? {
          OneSessionStays(state, hash, terminated.value, clock);
        }
      case _ =>
    }
  }

  lemma AcceptedCountsAreSmall(previous: int, current: int, policy: RateLimit.Policy, now: int)
    requires policy.Valid() && previous >= 0 && RateLimit.UnderLimit(previous, current, policy, now)
    ensures current < policy.maxRequests
  {
  }

  lemma NextLimitIsStorable(existing: Option<RateLimitRecord>, policy: RateLimit.Policy, now: int)
    requires policy.Valid() && (existing.Some? ==> LimitStorable(existing.value))
        && RateLimit.NextRateLimitRecord(existing, policy, now).Some?
    requires 0 <= now && policy.maxRequests <= MAX_SAFE_INTEGER && now + policy.windowSeconds * 2 <= MAX_SAFE_INTEGER
    ensures LimitStorable(RateLimit.NextRateLimitRecord(existing, policy, now).value)
  {
    var w := policy.windowSeconds;
    var windowStart := RateLimit.Window(now, w) * w;
    RateLimit.WindowBounds(now, w);
    var (previous, current) := RateLimit.CountersForWindow(existing, windowStart, w, now);
    AcceptedCountsAreSmall(previous, current, policy, now);
    RateLimit.Scaled(0, RateLimit.Window(now, w), w);
  }

  lemma LimitsStay(digest: string -> string, state: StoreState, request: Request, clock: int)
    requires LimitsStorable(state.rateLimits) && WellFormed(request, clock) && Callable(request)
    ensures LimitsStorable(Perform(digest, state, request).0.rateLimits)
  {
    if request.HitRateLimit? {
      var pruned := RateLimitStore.Prune(state.rateLimits, request.now);
      if RateLimit.NextRateLimitRecord(RateLimitStore.Lookup(pruned, request.key), request.policy, request.now).Some? {
        NextLimitIsStorable(RateLimitStore.Lookup(pruned, request.key), request.policy, request.now);
      }
    }
  }

  lemma PerformStaysStorable(digest: string -> string, state: StoreState, request: Request,
      clock: int)
    requires StorableAt(state, clock) && WellFormed(request, clock) && Callable(request)
    ensures StorableAt(Perform(digest, state, request).0, clock)
  {
    CodesStay(digest, state, request, clock);
    TokensStay(digest, state, request, clock);
    StatesStay(digest, state, request, clock);
    SessionsStay(digest, state, request, clock);
    LimitsStay(digest, state, request, clock);
  }

  // ----- whole runs -----

  /** The clock at each request; it never goes back. */
  ghost predicate WellFormedRun(requests: seq<Request>, clocks: seq<int>) {
    && |clocks| == |requests|
    && (forall i, j | 0 <= i <= j < |clocks| :: clocks[i] <= clocks[j])
    && forall i | 0 <= i < |requests| :: WellFormed(requests[i], clocks[i]) && Callable(requests[i])
  }

  lemma {:induction false} RunStaysStorable(digest: string -> string, state: StoreState, requests: seq<Request>,
      clocks: seq<int>)
    requires WellFormedRun(requests, clocks) && (requests != [] ==> StorableAt(state, clocks[0])) && Storable(state)
    ensures Storable(Run(digest, state, requests))
    decreases |requests|
  {
    if requests != [] {
      PerformStaysStorable(digest, state, requests[0], clocks[0]);
      var after := Perform(digest, state, requests[0]).0;
      if |requests| > 1 {
        TimePasses(after, clocks[0], clocks[1]);
      }
      assert WellFormedRun(requests[1..], clocks[1..]);
      RunStaysStorable(digest, after, requests[1..], clocks[1..]);
    }
  }

  /** Every store reachable from the empty one reloads to exactly itself. */
  lemma ReachableStoresReload(syntax: Syntax, digest: string -> string, requests: seq<Request>,
      clocks: seq<int>)
    requires syntax.RoundTrips() && WellFormedRun(requests, clocks)
    ensures Reloads(syntax, Run(digest, EMPTY_STORE, requests))
  {
    RunStaysStorable(digest, EMPTY_STORE, requests, clocks);
    StoreRoundTrip(syntax, Run(digest, EMPTY_STORE, requests));
  }
}
