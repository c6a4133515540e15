/** The disk store: each operation reads the file into a working copy, changes the copy in place,
    and writes it back only when it ends without an error. */
module DiskStore {
  import opened Wrappers
  import opened StoreRecords
  import RefreshTokens
  import AuthorizationCodes
  import McpSessions
  import RateLimit
  import RateLimitStore
  import opened StoreOperations

  /** The state that an update callback works on. */
  class WorkingCopy {
    var authorizationCodes: map<string, AuthorizationCodeRecord>
    var refreshTokens: map<string, RefreshTokenRecord>
    var upstreamStates: map<string, UpstreamStateRecord>
    var mcpSessions: map<string, McpSessionRecord>
    var rateLimits: map<string, RateLimitRecord>

    constructor (state: StoreState)
      ensures Value() == state
    {
      authorizationCodes := state.authorizationCodes;
      refreshTokens := state.refreshTokens;
      upstreamStates := state.upstreamStates;
      mcpSessions := state.mcpSessions;
      rateLimits := state.rateLimits;
    }

    function Value(): StoreState
      reads this
    {
      StoreState(authorizationCodes, refreshTokens, upstreamStates, mcpSessions, rateLimits)
    }

    method RevokeFamily(familyId: string, now: int)
      modifies this
      ensures Value() == old(Value()).(refreshTokens := RefreshTokens.RevokeFamily(old(refreshTokens), familyId, now))
    {
      var before := refreshTokens;
      var pending := before.Keys;
      while pending != {}
        invariant pending <= before.Keys == refreshTokens.Keys
        invariant forall h | h in pending :: refreshTokens[h] == before[h]
        invariant forall h | h in before.Keys - pending ::
                    refreshTokens[h] == if before[h].familyId == familyId then before[h].(revokedAt := Some(now))
                        else before[h]
        invariant Value() == old(Value()).(refreshTokens := refreshTokens)
      {
        var h :| h in pending;
        if refreshTokens[h].familyId == familyId {
          refreshTokens := refreshTokens[h := refreshTokens[h].(revokedAt := Some(now))];
        }
        pending := pending - {h};
      }
    }

    method PruneStates(now: int)
      modifies this
      ensures Value() == old(Value()).(upstreamStates := AuthorizationCodes.PruneStates(old(upstreamStates), now))
    {
      var before := upstreamStates;
      var pending := before.Keys;
      while pending != {}
        invariant pending <= upstreamStates.Keys <= before.Keys
        invariant forall h | h in upstreamStates :: upstreamStates[h] == before[h]
        invariant forall h | h in before.Keys - pending :: h in upstreamStates <==> before[h].expiresAt > now
        invariant Value() == old(Value()).(upstreamStates := upstreamStates)
      {
        var h :| h in pending;
        if upstreamStates[h].expiresAt <= now {
          upstreamStates := upstreamStates - {h};
        }
        pending := pending - {h};
      }
    }

    method PruneRateLimits(now: int)
      modifies this
      ensures Value() == old(Value()).(rateLimits := RateLimitStore.Prune(old(rateLimits), now))
    {
      var before := rateLimits;
      var pending := before.Keys;
      while pending != {}
        invariant pending <= rateLimits.Keys <= before.Keys
        invariant forall k | k in rateLimits :: rateLimits[k] == before[k]
        invariant forall k | k in before.Keys - pending :: k in rateLimits <==> before[k].expiresAt > now
        invariant Value() == old(Value()).(rateLimits := rateLimits)
      {
        var k :| k in pending;
        if rateLimits[k].expiresAt <= now {
          rateLimits := rateLimits - {k};
        }
        pending := pending - {k};
      }
    }
  }

  class StoreFile {
    var contents: StoreState

    constructor ()
      ensures contents == EMPTY_STORE
    {
      contents := EMPTY_STORE;
    }

    method Read() returns (state: WorkingCopy)
      ensures fresh(state) && state.Value() == contents
    {
      state := new WorkingCopy(contents);
    }

    method Write(state: WorkingCopy)
      modifies this
      ensures contents == state.Value()
    {
      contents := state.Value();
    }
  }

  class DiskOAuthStore {
    const file: StoreFile
    const digest: string -> string

    constructor (digest: string -> string)
      ensures fresh(file) && file.contents == EMPTY_STORE && this.digest == digest
    {
      this.digest := digest;
      file := new StoreFile();
    }

    method CreateAuthorizationCode(code: string, input: AuthorizationCodes.CodeInput, createdAt: int)
      modifies file
      ensures (file.contents, Done) == Perform(digest, old(file.contents), CreateCode(digest(code), input, createdAt))
    {
      var record := AuthorizationCodeRecord(
        codeHash := digest(code),
        clientId := input.clientId,
        redirectUri := input.redirectUri,
        resource := input.resource,
        scopes := input.scopes,
        nonce := if IsFilled(input.nonce) then input.nonce else None,
        codeChallenge := if IsFilled(input.codeChallenge) then input.codeChallenge else None,
        codeChallengeMethod := if IsFilled(input.codeChallengeMethod) then input.codeChallengeMethod else None,
        user := input.user,
        expiresAt := createdAt + input.ttlSeconds,
        consumedAt := None,
        authTime := createdAt,
        createdAt := createdAt);
      var state := file.Read();
      state.authorizationCodes := state.authorizationCodes[record.codeHash := record];
      file.Write(state);
    }

    method ConsumeAuthorizationCode(code: string, verifier: Option<string>, expected: AuthorizationCodes.Expectation,
        now: int)
      returns (result: Result<AuthorizationCodeRecord, ServiceError>)
      modifies file
      ensures var reply := if result.Ok? then Code(result.value) else Failed(result.error);
              (file.contents, reply) == Perform(digest, old(file.contents),
                  ConsumeCode(digest(code), verifier, expected, now))
      ensures result.Err? ==> file.contents == old(file.contents)
    {
      var hash := digest(code);
      var state := file.Read();
      if hash !in state.authorizationCodes {
        return Err(InvalidGrant);
      }
      var record := state.authorizationCodes[hash];
      if IsSet(record.consumedAt) || record.expiresAt <= now {
        return Err(InvalidGrant);
      }
      if record.clientId != expected.clientId || record.redirectUri != expected.redirectUri {
        return Err(InvalidGrant);
      }
      if expected.resource.Some? && record.resource != expected.resource.value {
        return Err(InvalidGrant);
      }
      if expected.allowedResources.Some? && record.resource !in expected.allowedResources.value {
        return Err(InvalidGrant);
      }
      if expected.allowedScopes.Some? && exists scope | scope in record.scopes ::
          scope !in expected.allowedScopes.value {
        return Err(InvalidGrant);
      }
      if IsFilled(record.codeChallenge) {
        if verifier.None? || !AuthorizationCodes.IsPkceText(verifier.value) {
          return Err(InvalidGrant);
        }
        if digest(verifier.value) != record.codeChallenge.value {
          return Err(InvalidGrant);
        }
      }
      record := record.(consumedAt := Some(now));
      state.authorizationCodes := state.authorizationCodes[hash := record];
      file.Write(state);
      return Ok(record);
    }

    method CreateRefreshToken(token: string, familyId: string, grant: RefreshTokens.Grant, ttlSeconds: int,
        createdAt: int)
      modifies file
      ensures (file.contents, Done) == Perform(digest, old(file.contents),
          CreateToken(digest(token), familyId, grant, ttlSeconds, createdAt))
    {
      var record := RefreshTokenRecord(
        tokenHash := digest(token),
        familyId := familyId,
        clientId := grant.clientId,
        user := grant.user,
        resource := grant.resource,
        scopes := grant.scopes,
        expiresAt := createdAt + ttlSeconds,
        authTime := grant.authTime,
        rotatedFromHash := None,
        revokedAt := None,
        createdAt := createdAt,
        lastUsedAt := None);
      var state := file.Read();
      state.refreshTokens := state.refreshTokens[record.tokenHash := record];
      file.Write(state);
    }

    /** Reuse is decided inside the update, which returns normally and so persists the revocation;
        the error follows after the write. */
    method RotateRefreshToken(token: string, clientId: string, ttlSeconds: int, expectedResource: Option<string>,
                              allowedResources: Option<seq<string>>, now: int, newToken: string)
      returns (result: Result<RefreshTokenRecord, ServiceError>)
      modifies file
      ensures var rotation :=
                RefreshTokens.RotateRequest(digest(token), clientId, ttlSeconds, expectedResource, allowedResources);
              var reply := if result.Ok? then Token(result.value) else Failed(result.error);
              (file.contents, reply) == Perform(digest, old(file.contents),
                  RotateToken(rotation, now, digest(newToken)))
    {
      var oldHash := digest(token);
      var state := file.Read();
      if oldHash !in state.refreshTokens {
        return Err(InvalidGrant);
      }
      var oldRecord := state.refreshTokens[oldHash];
      if IsSet(oldRecord.revokedAt) || oldRecord.expiresAt <= now {
        return Err(InvalidGrant);
      }
      if oldRecord.clientId != clientId {
        return Err(InvalidGrant);
      }
      if expectedResource.Some? && oldRecord.resource != expectedResource.value {
        return Err(InvalidGrant);
      }
      if allowedResources.Some? && oldRecord.resource !in allowedResources.value {
        return Err(InvalidGrant);
      }
      if exists h | h in state.refreshTokens :: state.refreshTokens[h].rotatedFromHash == Some(oldHash) {
        state.RevokeFamily(oldRecord.familyId, now);
        file.Write(state);
        return Err(InvalidGrant);
      }
      var newRecord := RefreshTokenRecord(
        tokenHash := digest(newToken),
        familyId := oldRecord.familyId,
        clientId := oldRecord.clientId,
        user := oldRecord.user,
        resource := oldRecord.resource,
        scopes := oldRecord.scopes,
        expiresAt := now + ttlSeconds,
        authTime := oldRecord.authTime,
        rotatedFromHash := Some(oldHash),
        revokedAt := None,
        createdAt := now,
        lastUsedAt := None);
      assert newRecord == RefreshTokens.Successor(oldRecord, oldHash, digest(newToken), ttlSeconds, now);
      oldRecord := oldRecord.(lastUsedAt := Some(now));
      state.refreshTokens := state.refreshTokens[oldHash := oldRecord];
      state.refreshTokens := state.refreshTokens[newRecord.tokenHash := newRecord];
      file.Write(state);
      return Ok(oldRecord);
    }

    method CreateUpstreamAuthorizationState(stateText: string, input: AuthorizationCodes.StateInput, createdAt: int)
      modifies file
      ensures (file.contents, Done) == Perform(digest, old(file.contents),
          CreateState(digest(stateText), input, createdAt))
    {
      var record := UpstreamStateRecord(
        stateHash := digest(stateText),
        clientId := input.clientId,
        redirectUri := input.redirectUri,
        resource := input.resource,
        scopes := input.scopes,
        clientState := input.clientState,
        codeVerifier := input.codeVerifier,
        upstreamNonce := input.upstreamNonce,
        nonce := if IsFilled(input.nonce) then input.nonce else None,
        codeChallenge := if IsFilled(input.codeChallenge) then input.codeChallenge else None,
        codeChallengeMethod := if IsFilled(input.codeChallengeMethod) then input.codeChallengeMethod else None,
        expiresAt := createdAt + input.ttlSeconds,
        createdAt := createdAt);
      var store := file.Read();
      store.PruneStates(createdAt);
      store.upstreamStates := store.upstreamStates[record.stateHash := record];
      file.Write(store);
    }

    method ConsumeUpstreamAuthorizationState(stateText: string, now: int)
      returns (result: Result<UpstreamStateRecord, ServiceError>)
      modifies file
      ensures var reply := if result.Ok? then State(result.value) else Failed(result.error);
              (file.contents, reply) == Perform(digest, old(file.contents), ConsumeState(digest(stateText), now))
      ensures result.Err? ==> file.contents == old(file.contents)
    {
      var hash := digest(stateText);
      var store := file.Read();
      store.PruneStates(now);
      if hash !in store.upstreamStates || store.upstreamStates[hash].expiresAt <= now {
        return Err(InvalidGrant);
      }
      var record := store.upstreamStates[hash];
      store.upstreamStates := store.upstreamStates - {hash};
      file.Write(store);
      return Ok(record);
    }

    method SaveMcpSession(record: McpSessionRecord)
      modifies file
      ensures (file.contents, Done) == Perform(digest, old(file.contents), SaveSession(record))
    {
      var state := file.Read();
      state.mcpSessions := state.mcpSessions[record.sessionIdHash := record];
      file.Write(state);
    }

    method TouchMcpSession(hash: string, protocolVersion: Option<string>, markInitialized: bool, now: int)
      returns (result: Result<bool, ServiceError>)
      modifies file
      ensures var reply := if result.Ok? then Initialized(result.value) else Failed(result.error);
              (file.contents, reply) == Perform(digest, old(file.contents),
                  TouchSession(hash, protocolVersion, markInitialized, now))
      ensures result.Err? ==> file.contents == old(file.contents)
    {
      var state := file.Read();
      if !McpSessions.SessionLive(SessionAt(state.Value(), hash), now) {
        return Err(NotFound);
      }
      var record := state.mcpSessions[hash];
      if protocolVersion.Some? && record.protocolVersion != protocolVersion.value {
        return Err(BadRequest);
      }
      record := record.(lastSeenAt := now);
      if markInitialized && !IsSet(record.initializedAt) {
        record := record.(initializedAt := Some(now));
      }
      state.mcpSessions := state.mcpSessions[hash := record];
      file.Write(state);
      return Ok(record.initializedAt.Some?);
    }

    /** The time last seen is set before the limit is tested, so the error discards it; a duplicate
        id is no error and persists it. */
    method ReserveMcpRequestId(hash: string, requestIdHash: string, now: int)
      returns (result: Result<bool, ServiceError>)
      modifies file
      ensures var reply := if result.Ok? then Granted(result.value) else Failed(result.error);
              (file.contents, reply) == Perform(digest, old(file.contents), ReserveRequestId(hash, requestIdHash, now))
      ensures result.Err? ==> file.contents == old(file.contents)
    {
      var state := file.Read();
      if !McpSessions.SessionLive(SessionAt(state.Value(), hash), now) {
        return Err(NotFound);
      }
      var record := state.mcpSessions[hash].(lastSeenAt := now);
      state.mcpSessions := state.mcpSessions[hash := record];
      if requestIdHash in record.requestIdHashes {
        file.Write(state);
        return Ok(false);
      }
      if |record.requestIdHashes| >= McpSessions.MAX_REQUEST_IDS {
        return Err(RateLimited);
      }
      record := record.(requestIdHashes := record.requestIdHashes + [requestIdHash]);
      state.mcpSessions := state.mcpSessions[hash := record];
      assert state.mcpSessions == file.contents.mcpSessions[hash := record];
      file.Write(state);
      return Ok(true);
    }

    method TerminateMcpSession(hash: string, now: int) returns (result: Result<(), ServiceError>)
      modifies file
      ensures var reply := if result.Ok? then Done else Failed(result.error);
              (file.contents, reply) == Perform(digest, old(file.contents), TerminateSession(hash, now))
      ensures result.Err? ==> file.contents == old(file.contents)
    {
      var state := file.Read();
      if !McpSessions.SessionLive(SessionAt(state.Value(), hash), now) {
        return Err(NotFound);
      }
      var record := state.mcpSessions[hash].(terminatedAt := Some(now), lastSeenAt := now);
      state.mcpSessions := state.mcpSessions[hash := record];
      file.Write(state);
      return Ok(());
    }
  }

  class DiskRateLimitStore {
    const file: StoreFile
    const digest: string -> string

    constructor (digest: string -> string)
      ensures fresh(file) && file.contents == EMPTY_STORE && this.digest == digest
    {
      this.digest := digest;
      file := new StoreFile();
    }

    method Hit(key: string, policy: RateLimit.Policy, now: int) returns (result: Result<(), ServiceError>)
      requires policy.Valid()
      modifies file
      ensures var reply := if result.Ok? then Done else Failed(result.error);
              (file.contents, reply) == Perform(digest, old(file.contents), HitRateLimit(digest(key), policy, now))
      ensures result.Err? ==> file.contents == old(file.contents)
    {
      var keyHash := digest(key);
      var state := file.Read();
      state.PruneRateLimits(now);
      var next := RateLimit.NextRateLimitRecord(RateLimitStore.Lookup(state.rateLimits, keyHash), policy, now);
      if next.None? {
        return Err(RateLimited);
      }
      state.rateLimits := state.rateLimits[keyHash := next.value];
      file.Write(state);
      return Ok(());
    }
  }
}
