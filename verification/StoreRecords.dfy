/** The records every store keeps, field by field as auth/storage/store-records.ts declares them.
    A hash is the base64url text of a SHA-256 digest; times are whole seconds. */
module StoreRecords {
  import opened Wrappers

  datatype UserProfile = UserProfile(
    sub: string,
    givenName: string,
    familyName: string,
    name: string,
    preferredUsername: string,
    email: string,
    emailVerified: bool)

  datatype AuthorizationCodeRecord = AuthorizationCodeRecord(
    codeHash: string,
    clientId: string,
    redirectUri: string,
    resource: string,
    scopes: seq<string>,
    nonce: Option<string>,
    codeChallenge: Option<string>,
    codeChallengeMethod: Option<string>,
    user: UserProfile,
    expiresAt: int,
    consumedAt: Option<int>,
    authTime: int,
    createdAt: int)

  datatype RefreshTokenRecord = RefreshTokenRecord(
    tokenHash: string,
    familyId: string,
    clientId: string,
    user: UserProfile,
    resource: string,
    scopes: seq<string>,
    expiresAt: int,
    authTime: int,
    rotatedFromHash: Option<string>,
    revokedAt: Option<int>,
    createdAt: int,
    lastUsedAt: Option<int>)

  datatype UpstreamStateRecord = UpstreamStateRecord(
    stateHash: string,
    clientId: string,
    redirectUri: string,
    resource: string,
    scopes: seq<string>,
    clientState: string,
    codeVerifier: string,
    upstreamNonce: string,
    nonce: Option<string>,
    codeChallenge: Option<string>,
    codeChallengeMethod: Option<string>,
    expiresAt: int,
    createdAt: int)

  datatype McpSessionRecord = McpSessionRecord(
    sessionIdHash: string,
    clientId: string,
    protocolVersion: string,
    createdAt: int,
    lastSeenAt: int,
    expiresAt: int,
    requestIdHashes: seq<string>,
    initializedAt: Option<int>,
    terminatedAt: Option<int>)

  datatype RateLimitRecord = RateLimitRecord(
    windowStart: int,
    previousCount: int,
    currentCount: int,
    expiresAt: int)

  datatype StoreState = StoreState(
    authorizationCodes: map<string, AuthorizationCodeRecord>,
    refreshTokens: map<string, RefreshTokenRecord>,
    upstreamStates: map<string, UpstreamStateRecord>,
    mcpSessions: map<string, McpSessionRecord>,
    rateLimits: map<string, RateLimitRecord>)

  const EMPTY_STORE := StoreState(map[], map[], map[], map[], map[])

  datatype ServiceError = InvalidGrant | NotFound | BadRequest | RateLimited | Conflict

  /** The source tests optional times by truthiness, so a time of zero counts as absent. */
  predicate IsSet(time: Option<int>) {
    time.Some? && time.value != 0
  }

  /** The source tests optional strings by truthiness, so an empty string counts as absent. */
  predicate IsFilled(text: Option<string>) {
    text.Some? && text.value != ""
  }
}
