/** The rows of the store file: each record type with its parser, its printer and the exact
    condition under which a record comes back from the file as it was. */
module RecordRows {
  import opened Wrappers
  import opened StoreRecords
  import opened Json
  import opened UserProfiles
  import opened StoreRows

  // ----- authorization codes -----

  const CODE_KEYS := {CodeHash, ClientId, RedirectUri, Resource, ScopesJson, Nonce, CodeChallenge,
                      CodeChallengeMethod, UserJson, ExpiresAt, ConsumedAt, AuthTime, CreatedAt}

  function CodeFromDisk(syntax: Syntax, value: Json): Parsed<AuthorizationCodeRecord> {
    var row :- RowOf(value, CODE_KEYS);
    var createdAt :- SecondsAt(row, CreatedAt);
    var codeHash :- HashAt(row, CodeHash);
    var clientId :- TextAt(row, ClientId);
    var redirectUri :- TextAt(row, RedirectUri);
    var resource :- TextAt(row, Resource);
    var scopes :- ScopesAt(syntax, row);
    var nonce :- OptionalAt(row, Nonce, NonceAt);
    var codeChallenge :- OptionalAt(row, CodeChallenge, HashAt);
    var codeChallengeMethod :- OptionalAt(row, CodeChallengeMethod, MethodAt);
    var user :- ProfileAt(syntax, row);
    var expiresAt :- OrderedAt(row, ExpiresAt, createdAt);
    var consumedAt :- OptionalOrderedAt(row, ConsumedAt, createdAt);
    var authTime :- AuthTimeAt(row, createdAt);
    Valid(AuthorizationCodeRecord(codeHash, clientId, redirectUri, resource, scopes, nonce, codeChallenge,
                                  codeChallengeMethod, user, expiresAt, consumedAt, authTime, createdAt))
  }

  function CodeRow(syntax: Syntax, record: AuthorizationCodeRecord, user: Option<Json>): Row {
    Compact(map[
      CodeHash := TextField(record.codeHash),
      ClientId := TextField(record.clientId),
      RedirectUri := TextField(record.redirectUri),
      Resource := TextField(record.resource),
      ScopesJson := ScopesField(syntax, record.scopes),
      Nonce := OptionalTextField(record.nonce),
      CodeChallenge := OptionalTextField(record.codeChallenge),
      CodeChallengeMethod := OptionalTextField(record.codeChallengeMethod),
      UserJson := user,
      ExpiresAt := TimeField(record.expiresAt),
      ConsumedAt := OptionalTimeField(record.consumedAt),
      AuthTime := TimeField(record.authTime),
      CreatedAt := TimeField(record.createdAt)])
  }

  function CodeToDisk(syntax: Syntax, record: AuthorizationCodeRecord): Parsed<Json> {
    var user :- ProfileField(syntax, record.user);
    Valid(Object(CodeRow(syntax, record, user)))
  }

  predicate CodeStorable(record: AuthorizationCodeRecord) {
    && IsHash(record.codeHash) && !Blank(record.clientId) && !Blank(record.redirectUri) && !Blank(record.resource)
    && IsScopes(record.scopes)
    && PkceStorable(record.nonce, record.codeChallenge, record.codeChallengeMethod)
    && IsProfile(record.user)
    && IsSeconds(record.createdAt)
    && IsTime(record.expiresAt, record.createdAt)
    && (record.consumedAt.Some? ==> IsTime(record.consumedAt.value, record.createdAt))
    && IsSeconds(record.authTime) && record.authTime <= record.createdAt
  }

  ghost predicate CodeFieldsParse(syntax: Syntax, row: Row, record: AuthorizationCodeRecord) {
    && SecondsAt(row, CreatedAt) == Valid(record.createdAt)
    && HashAt(row, CodeHash) == Valid(record.codeHash)
    && TextAt(row, ClientId) == Valid(record.clientId)
    && TextAt(row, RedirectUri) == Valid(record.redirectUri)
    && TextAt(row, Resource) == Valid(record.resource)
    && ScopesAt(syntax, row) == Valid(record.scopes)
    && OptionalAt(row, Nonce, NonceAt) == Valid(record.nonce)
    && OptionalAt(row, CodeChallenge, HashAt) == Valid(record.codeChallenge)
    && OptionalAt(row, CodeChallengeMethod, MethodAt) == Valid(record.codeChallengeMethod)
    && ProfileAt(syntax, row) == Valid(record.user)
    && OrderedAt(row, ExpiresAt, record.createdAt) == Valid(record.expiresAt)
    && OptionalOrderedAt(row, ConsumedAt, record.createdAt) == Valid(record.consumedAt)
    && AuthTimeAt(row, record.createdAt) == Valid(record.authTime)
  }

  lemma CodeParses(syntax: Syntax, row: Row, record: AuthorizationCodeRecord)
    ensures CodeFromDisk(syntax, Object(row)) == Valid(record)
        <==> row.Keys <= CODE_KEYS && CodeFieldsParse(syntax, row, record)
  {
  }

  lemma CodeRowHolds(syntax: Syntax, record: AuthorizationCodeRecord, user: Option<Json>)
    requires user.Some?
    ensures var row := CodeRow(syntax, record, user);
            && row.Keys <= CODE_KEYS
            && Holds(row, CodeHash, TextField(record.codeHash))
            && Holds(row, ClientId, TextField(record.clientId))
            && Holds(row, RedirectUri, TextField(record.redirectUri))
            && Holds(row, Resource, TextField(record.resource))
            && Holds(row, ScopesJson, ScopesField(syntax, record.scopes))
            && Holds(row, Nonce, OptionalTextField(record.nonce))
            && Holds(row, CodeChallenge, OptionalTextField(record.codeChallenge))
            && Holds(row, CodeChallengeMethod, OptionalTextField(record.codeChallengeMethod))
            && Holds(row, UserJson, user)
            && Holds(row, ExpiresAt, TimeField(record.expiresAt))
            && Holds(row, ConsumedAt, OptionalTimeField(record.consumedAt))
            && Holds(row, AuthTime, TimeField(record.authTime))
            && Holds(row, CreatedAt, TimeField(record.createdAt))
  {
  }

  lemma CodeFieldsSurvive(syntax: Syntax, record: AuthorizationCodeRecord, row: Row)
    requires syntax.RoundTrips() && ProfileField(syntax, record.user).Valid?
    requires row == CodeRow(syntax, record, ProfileField(syntax, record.user).value)
    ensures CodeFieldsParse(syntax, row, record) <==> CodeStorable(record)
  {
    CodeRowHolds(syntax, record, ProfileField(syntax, record.user).value);
    TextSurvives(row, CodeHash, record.codeHash);
    TextSurvives(row, ClientId, record.clientId);
    TextSurvives(row, RedirectUri, record.redirectUri);
    TextSurvives(row, Resource, record.resource);
    ScopesSurvive(syntax, row, record.scopes);
    PkceSurvives(row, record.nonce, record.codeChallenge, record.codeChallengeMethod);
    ProfileSurvives(syntax, row, record.user);
    TimeSurvives(row, ExpiresAt, record.expiresAt, record.createdAt);
    OptionalTimeSurvives(row, ConsumedAt, record.consumedAt, record.createdAt);
    TimeSurvives(row, AuthTime, record.authTime, 0);
    TimeSurvives(row, CreatedAt, record.createdAt, 0);
  }

  /** A code comes back from the file as it was exactly when it is storable. */
  lemma CodeRoundTrip(syntax: Syntax, record: AuthorizationCodeRecord)
    requires syntax.RoundTrips()
    ensures CodeToDisk(syntax, record).Valid? && CodeFromDisk(syntax, CodeToDisk(syntax, record).value) == Valid(record)
            <==> CodeStorable(record)
  {
    if IsProfile(record.user) {
      ProfilePrints(syntax, record.user);
    }
    if ProfileField(syntax, record.user).Valid? {
      var row := CodeRow(syntax, record, ProfileField(syntax, record.user).value);
      CodeRowHolds(syntax, record, ProfileField(syntax, record.user).value);
      CodeFieldsSurvive(syntax, record, row);
      CodeParses(syntax, row, record);
    }
  }

  // ----- refresh tokens -----

  const TOKEN_KEYS := {TokenHash, FamilyId, ClientId, UserJson, Resource, ScopesJson, ExpiresAt, AuthTime,
                       RotatedFromHash, RevokedAt, CreatedAt, LastUsedAt}

  function TokenFromDisk(syntax: Syntax, value: Json): Parsed<RefreshTokenRecord> {
    var row :- RowOf(value, TOKEN_KEYS);
    var createdAt :- SecondsAt(row, CreatedAt);
    var tokenHash :- HashAt(row, TokenHash);
    var familyId :- TextAt(row, FamilyId);
    var clientId :- TextAt(row, ClientId);
    var user :- ProfileAt(syntax, row);
    var resource :- TextAt(row, Resource);
    var scopes :- ScopesAt(syntax, row);
    var expiresAt :- OrderedAt(row, ExpiresAt, createdAt);
    var authTime :- AuthTimeAt(row, createdAt);
    var rotatedFromHash :- OptionalAt(row, RotatedFromHash, HashAt);
    var revokedAt :- OptionalOrderedAt(row, RevokedAt, createdAt);
    var lastUsedAt :- OptionalOrderedAt(row, LastUsedAt, createdAt);
    Valid(RefreshTokenRecord(tokenHash, familyId, clientId, user, resource, scopes, expiresAt, authTime,
                             rotatedFromHash, revokedAt, createdAt, lastUsedAt))
  }

  function TokenRow(syntax: Syntax, record: RefreshTokenRecord, user: Option<Json>): Row {
    Compact(map[
      TokenHash := TextField(record.tokenHash),
      FamilyId := TextField(record.familyId),
      ClientId := TextField(record.clientId),
      UserJson := user,
      Resource := TextField(record.resource),
      ScopesJson := ScopesField(syntax, record.scopes),
      ExpiresAt := TimeField(record.expiresAt),
      AuthTime := TimeField(record.authTime),
      RotatedFromHash := OptionalTextField(record.rotatedFromHash),
      RevokedAt := OptionalTimeField(record.revokedAt),
      CreatedAt := TimeField(record.createdAt),
      LastUsedAt := OptionalTimeField(record.lastUsedAt)])
  }

  function TokenToDisk(syntax: Syntax, record: RefreshTokenRecord): Parsed<Json> {
    var user :- ProfileField(syntax, record.user);
    Valid(Object(TokenRow(syntax, record, user)))
  }

  predicate TokenStorable(record: RefreshTokenRecord) {
    && IsHash(record.tokenHash) && !Blank(record.familyId) && !Blank(record.clientId) && !Blank(record.resource)
    && IsProfile(record.user)
    && IsScopes(record.scopes)
    && IsSeconds(record.createdAt)
    && IsTime(record.expiresAt, record.createdAt)
    && IsSeconds(record.authTime) && record.authTime <= record.createdAt
    && (record.rotatedFromHash.Some? ==> IsHash(record.rotatedFromHash.value))
    && (record.revokedAt.Some? ==> IsTime(record.revokedAt.value, record.createdAt))
    && (record.lastUsedAt.Some? ==> IsTime(record.lastUsedAt.value, record.createdAt))
  }

  ghost predicate TokenFieldsParse(syntax: Syntax, row: Row, record: RefreshTokenRecord) {
    && SecondsAt(row, CreatedAt) == Valid(record.createdAt)
    && HashAt(row, TokenHash) == Valid(record.tokenHash)
    && TextAt(row, FamilyId) == Valid(record.familyId)
    && TextAt(row, ClientId) == Valid(record.clientId)
    && ProfileAt(syntax, row) == Valid(record.user)
    && TextAt(row, Resource) == Valid(record.resource)
    && ScopesAt(syntax, row) == Valid(record.scopes)
    && OrderedAt(row, ExpiresAt, record.createdAt) == Valid(record.expiresAt)
    && AuthTimeAt(row, record.createdAt) == Valid(record.authTime)
    && OptionalAt(row, RotatedFromHash, HashAt) == Valid(record.rotatedFromHash)
    && OptionalOrderedAt(row, RevokedAt, record.createdAt) == Valid(record.revokedAt)
    && OptionalOrderedAt(row, LastUsedAt, record.createdAt) == Valid(record.lastUsedAt)
  }

  lemma TokenIsParsed(syntax: Syntax, row: Row, record: RefreshTokenRecord)
    requires row.Keys <= TOKEN_KEYS && TokenFieldsParse(syntax, row, record)
    ensures TokenFromDisk(syntax, Object(row)) == Valid(record)
  {
  }

  lemma ParsedTokenHasFields(syntax: Syntax, row: Row, record: RefreshTokenRecord)
    requires TokenFromDisk(syntax, Object(row)) == Valid(record)
    ensures row.Keys <= TOKEN_KEYS && TokenFieldsParse(syntax, row, record)
  {
  }

  lemma TokenParses(syntax: Syntax, row: Row, record: RefreshTokenRecord)
    ensures TokenFromDisk(syntax, Object(row)) == Valid(record)
        <==> row.Keys <= TOKEN_KEYS && TokenFieldsParse(syntax, row, record)
  {
    if row.Keys <= TOKEN_KEYS && TokenFieldsParse(syntax, row, record) {
      TokenIsParsed(syntax, row, record);
    }
    if TokenFromDisk(syntax, Object(row)) == Valid(record) {
      ParsedTokenHasFields(syntax, row, record);
    }
  }

  lemma TokenRowHolds(syntax: Syntax, record: RefreshTokenRecord, user: Option<Json>)
    requires user.Some?
    ensures var row := TokenRow(syntax, record, user);
            && row.Keys <= TOKEN_KEYS
            && Holds(row, TokenHash, TextField(record.tokenHash))
            && Holds(row, FamilyId, TextField(record.familyId))
            && Holds(row, ClientId, TextField(record.clientId))
            && Holds(row, UserJson, user)
            && Holds(row, Resource, TextField(record.resource))
            && Holds(row, ScopesJson, ScopesField(syntax, record.scopes))
            && Holds(row, ExpiresAt, TimeField(record.expiresAt))
            && Holds(row, AuthTime, TimeField(record.authTime))
            && Holds(row, RotatedFromHash, OptionalTextField(record.rotatedFromHash))
            && Holds(row, RevokedAt, OptionalTimeField(record.revokedAt))
            && Holds(row, CreatedAt, TimeField(record.createdAt))
            && Holds(row, LastUsedAt, OptionalTimeField(record.lastUsedAt))
  {
  }

  lemma TokenFieldsSurvive(syntax: Syntax, record: RefreshTokenRecord, row: Row)
    requires syntax.RoundTrips() && ProfileField(syntax, record.user).Valid?
    requires row == TokenRow(syntax, record, ProfileField(syntax, record.user).value)
    ensures TokenFieldsParse(syntax, row, record) <==> TokenStorable(record)
  {
    TokenRowHolds(syntax, record, ProfileField(syntax, record.user).value);
    TextSurvives(row, TokenHash, record.tokenHash);
    TextSurvives(row, FamilyId, record.familyId);
    TextSurvives(row, ClientId, record.clientId);
    TextSurvives(row, Resource, record.resource);
    ScopesSurvive(syntax, row, record.scopes);
    ProfileSurvives(syntax, row, record.user);
    TimeSurvives(row, ExpiresAt, record.expiresAt, record.createdAt);
    TimeSurvives(row, AuthTime, record.authTime, 0);
    OptionalHashSurvives(row, RotatedFromHash, record.rotatedFromHash);
    OptionalTimeSurvives(row, RevokedAt, record.revokedAt, record.createdAt);
    TimeSurvives(row, CreatedAt, record.createdAt, 0);
    OptionalTimeSurvives(row, LastUsedAt, record.lastUsedAt, record.createdAt);
  }

  /** A refresh token comes back from the file as it was exactly when it is storable. */
  lemma TokenRoundTrip(syntax: Syntax, record: RefreshTokenRecord)
    requires syntax.RoundTrips()
    ensures TokenStorable(record) <==>
            && TokenToDisk(syntax, record).Valid?
            && TokenFromDisk(syntax, TokenToDisk(syntax, record).value) == Valid(record)
  {
    if IsProfile(record.user) {
      ProfilePrints(syntax, record.user);
    }
    if ProfileField(syntax, record.user).Valid? {
      var row := TokenRow(syntax, record, ProfileField(syntax, record.user).value);
      TokenRowHolds(syntax, record, ProfileField(syntax, record.user).value);
      TokenFieldsSurvive(syntax, record, row);
      TokenParses(syntax, row, record);
    }
  }

  // ----- upstream login states -----

  const STATE_KEYS := {StateHash, ClientId, RedirectUri, Resource, ScopesJson, ClientState, CodeVerifier,
                       UpstreamNonce, Nonce, CodeChallenge, CodeChallengeMethod, ExpiresAt, CreatedAt}

  function StateFromDisk(syntax: Syntax, value: Json): Parsed<UpstreamStateRecord> {
    var row :- RowOf(value, STATE_KEYS);
    var createdAt :- SecondsAt(row, CreatedAt);
    var stateHash :- HashAt(row, StateHash);
    var clientId :- TextAt(row, ClientId);
    var redirectUri :- TextAt(row, RedirectUri);
    var resource :- TextAt(row, Resource);
    var scopes :- ScopesAt(syntax, row);
    var clientState :- TextAt(row, ClientState);
    var codeVerifier :- TextAt(row, CodeVerifier);
    var upstreamNonce :- NonceAt(row, UpstreamNonce);
    var nonce :- OptionalAt(row, Nonce, NonceAt);
    var codeChallenge :- OptionalAt(row, CodeChallenge, HashAt);
    var codeChallengeMethod :- OptionalAt(row, CodeChallengeMethod, MethodAt);
    var expiresAt :- OrderedAt(row, ExpiresAt, createdAt);
    Valid(UpstreamStateRecord(stateHash, clientId, redirectUri, resource, scopes, clientState, codeVerifier,
                              upstreamNonce, nonce, codeChallenge, codeChallengeMethod, expiresAt, createdAt))
  }

  function StateRow(syntax: Syntax, record: UpstreamStateRecord): Row {
    Compact(map[
      StateHash := TextField(record.stateHash),
      ClientId := TextField(record.clientId),
      RedirectUri := TextField(record.redirectUri),
      Resource := TextField(record.resource),
      ScopesJson := ScopesField(syntax, record.scopes),
      ClientState := TextField(record.clientState),
      CodeVerifier := TextField(record.codeVerifier),
      UpstreamNonce := TextField(record.upstreamNonce),
      Nonce := OptionalTextField(record.nonce),
      CodeChallenge := OptionalTextField(record.codeChallenge),
      CodeChallengeMethod := OptionalTextField(record.codeChallengeMethod),
      ExpiresAt := TimeField(record.expiresAt),
      CreatedAt := TimeField(record.createdAt)])
  }

  function StateToDisk(syntax: Syntax, record: UpstreamStateRecord): Parsed<Json> {
    Valid(Object(StateRow(syntax, record)))
  }

  predicate StateStorable(record: UpstreamStateRecord) {
    && IsHash(record.stateHash) && !Blank(record.clientId) && !Blank(record.redirectUri) && !Blank(record.resource)
    && IsScopes(record.scopes)
    && !Blank(record.clientState) && !Blank(record.codeVerifier) && IsNonce(record.upstreamNonce)
    && PkceStorable(record.nonce, record.codeChallenge, record.codeChallengeMethod)
    && IsSeconds(record.createdAt)
    && IsTime(record.expiresAt, record.createdAt)
  }

  ghost predicate StateFieldsParse(syntax: Syntax, row: Row, record: UpstreamStateRecord) {
    && SecondsAt(row, CreatedAt) == Valid(record.createdAt)
    && HashAt(row, StateHash) == Valid(record.stateHash)
    && TextAt(row, ClientId) == Valid(record.clientId)
    && TextAt(row, RedirectUri) == Valid(record.redirectUri)
    && TextAt(row, Resource) == Valid(record.resource)
    && ScopesAt(syntax, row) == Valid(record.scopes)
    && TextAt(row, ClientState) == Valid(record.clientState)
    && TextAt(row, CodeVerifier) == Valid(record.codeVerifier)
    && NonceAt(row, UpstreamNonce) == Valid(record.upstreamNonce)
    && OptionalAt(row, Nonce, NonceAt) == Valid(record.nonce)
    && OptionalAt(row, CodeChallenge, HashAt) == Valid(record.codeChallenge)
    && OptionalAt(row, CodeChallengeMethod, MethodAt) == Valid(record.codeChallengeMethod)
    && OrderedAt(row, ExpiresAt, record.createdAt) == Valid(record.expiresAt)
  }

  lemma StateParses(syntax: Syntax, row: Row, record: UpstreamStateRecord)
    ensures StateFromDisk(syntax, Object(row)) == Valid(record)
        <==> row.Keys <= STATE_KEYS && StateFieldsParse(syntax, row, record)
  {
  }

  lemma StateRowHolds(syntax: Syntax, record: UpstreamStateRecord)
    ensures var row := StateRow(syntax, record);
            && row.Keys <= STATE_KEYS
            && Holds(row, StateHash, TextField(record.stateHash))
            && Holds(row, ClientId, TextField(record.clientId))
            && Holds(row, RedirectUri, TextField(record.redirectUri))
            && Holds(row, Resource, TextField(record.resource))
            && Holds(row, ScopesJson, ScopesField(syntax, record.scopes))
            && Holds(row, ClientState, TextField(record.clientState))
            && Holds(row, CodeVerifier, TextField(record.codeVerifier))
            && Holds(row, UpstreamNonce, TextField(record.upstreamNonce))
            && Holds(row, Nonce, OptionalTextField(record.nonce))
            && Holds(row, CodeChallenge, OptionalTextField(record.codeChallenge))
            && Holds(row, CodeChallengeMethod, OptionalTextField(record.codeChallengeMethod))
            && Holds(row, ExpiresAt, TimeField(record.expiresAt))
            && Holds(row, CreatedAt, TimeField(record.createdAt))
  {
  }

  lemma StateFieldsSurvive(syntax: Syntax, record: UpstreamStateRecord, row: Row)
    requires syntax.RoundTrips() && row == StateRow(syntax, record)
    ensures StateFieldsParse(syntax, row, record) <==> StateStorable(record)
  {
    StateRowHolds(syntax, record);
    TextSurvives(row, StateHash, record.stateHash);
    TextSurvives(row, ClientId, record.clientId);
    TextSurvives(row, RedirectUri, record.redirectUri);
    TextSurvives(row, Resource, record.resource);
    ScopesSurvive(syntax, row, record.scopes);
    TextSurvives(row, ClientState, record.clientState);
    TextSurvives(row, CodeVerifier, record.codeVerifier);
    TextSurvives(row, UpstreamNonce, record.upstreamNonce);
    PkceSurvives(row, record.nonce, record.codeChallenge, record.codeChallengeMethod);
    TimeSurvives(row, ExpiresAt, record.expiresAt, record.createdAt);
    TimeSurvives(row, CreatedAt, record.createdAt, 0);
  }

  /** A login state comes back from the file as it was exactly when it is storable. */
  lemma StateRoundTrip(syntax: Syntax, record: UpstreamStateRecord)
    requires syntax.RoundTrips()
    ensures StateFromDisk(syntax, StateToDisk(syntax, record).value) == Valid(record) <==> StateStorable(record)
  {
    StateRowHolds(syntax, record);
    StateFieldsSurvive(syntax, record, StateRow(syntax, record));
    StateParses(syntax, StateRow(syntax, record), record);
  }

  // ----- MCP sessions -----

  const SESSION_KEYS := {SessionIdHash, ClientId, ProtocolVersion, CreatedAt, LastSeenAt, ExpiresAt,
                         RequestIdHashesJson, InitializedAt, TerminatedAt}

  function SessionFromDisk(syntax: Syntax, value: Json): Parsed<McpSessionRecord> {
    var row :- RowOf(value, SESSION_KEYS);
    var createdAt :- SecondsAt(row, CreatedAt);
    var sessionIdHash :- HashAt(row, SessionIdHash);
    var clientId :- TextAt(row, ClientId);
    var protocolVersion :- TextAt(row, ProtocolVersion);
    var lastSeenAt :- OrderedAt(row, LastSeenAt, createdAt);
    var expiresAt :- OrderedAt(row, ExpiresAt, createdAt);
    var requestIdHashes :- RequestIdsAt(syntax, row);
    var initializedAt :- OptionalOrderedAt(row, InitializedAt, createdAt);
    var terminatedAt :- OptionalOrderedAt(row, TerminatedAt, createdAt);
    Valid(McpSessionRecord(sessionIdHash, clientId, protocolVersion, createdAt, lastSeenAt, expiresAt, requestIdHashes,
                           initializedAt, terminatedAt))
  }

  function SessionRow(syntax: Syntax, record: McpSessionRecord): Row {
    Compact(map[
      SessionIdHash := TextField(record.sessionIdHash),
      ClientId := TextField(record.clientId),
      ProtocolVersion := TextField(record.protocolVersion),
      CreatedAt := TimeField(record.createdAt),
      LastSeenAt := TimeField(record.lastSeenAt),
      ExpiresAt := TimeField(record.expiresAt),
      RequestIdHashesJson := RequestIdsField(syntax, record.requestIdHashes),
      InitializedAt := OptionalTimeField(record.initializedAt),
      TerminatedAt := OptionalTimeField(record.terminatedAt)])
  }

  function SessionToDisk(syntax: Syntax, record: McpSessionRecord): Parsed<Json> {
    Valid(Object(SessionRow(syntax, record)))
  }

  predicate SessionStorable(record: McpSessionRecord) {
    && IsHash(record.sessionIdHash) && !Blank(record.clientId) && !Blank(record.protocolVersion)
    && IsSeconds(record.createdAt)
    && IsTime(record.lastSeenAt, record.createdAt) && IsTime(record.expiresAt, record.createdAt)
    && IsRequestIds(record.requestIdHashes)
    && (record.initializedAt.Some? ==> IsTime(record.initializedAt.value, record.createdAt))
    && (record.terminatedAt.Some? ==> IsTime(record.terminatedAt.value, record.createdAt))
  }

  ghost predicate SessionFieldsParse(syntax: Syntax, row: Row, record: McpSessionRecord) {
    && SecondsAt(row, CreatedAt) == Valid(record.createdAt)
    && HashAt(row, SessionIdHash) == Valid(record.sessionIdHash)
    && TextAt(row, ClientId) == Valid(record.clientId)
    && TextAt(row, ProtocolVersion) == Valid(record.protocolVersion)
    && OrderedAt(row, LastSeenAt, record.createdAt) == Valid(record.lastSeenAt)
    && OrderedAt(row, ExpiresAt, record.createdAt) == Valid(record.expiresAt)
    && RequestIdsAt(syntax, row) == Valid(record.requestIdHashes)
    && OptionalOrderedAt(row, InitializedAt, record.createdAt) == Valid(record.initializedAt)
    && OptionalOrderedAt(row, TerminatedAt, record.createdAt) == Valid(record.terminatedAt)
  }

  lemma SessionParses(syntax: Syntax, row: Row, record: McpSessionRecord)
    ensures SessionFromDisk(syntax, Object(row)) == Valid(record)
        <==> row.Keys <= SESSION_KEYS && SessionFieldsParse(syntax, row, record)
  {
  }

  lemma SessionRowHolds(syntax: Syntax, record: McpSessionRecord)
    ensures var row := SessionRow(syntax, record);
            && row.Keys <= SESSION_KEYS
            && Holds(row, SessionIdHash, TextField(record.sessionIdHash))
            && Holds(row, ClientId, TextField(record.clientId))
            && Holds(row, ProtocolVersion, TextField(record.protocolVersion))
            && Holds(row, CreatedAt, TimeField(record.createdAt))
            && Holds(row, LastSeenAt, TimeField(record.lastSeenAt))
            && Holds(row, ExpiresAt, TimeField(record.expiresAt))
            && Holds(row, RequestIdHashesJson, RequestIdsField(syntax, record.requestIdHashes))
            && Holds(row, InitializedAt, OptionalTimeField(record.initializedAt))
            && Holds(row, TerminatedAt, OptionalTimeField(record.terminatedAt))
  {
  }

  lemma SessionFieldsSurvive(syntax: Syntax, record: McpSessionRecord, row: Row)
    requires syntax.RoundTrips() && row == SessionRow(syntax, record)
    ensures SessionFieldsParse(syntax, row, record) <==> SessionStorable(record)
  {
    SessionRowHolds(syntax, record);
    TextSurvives(row, SessionIdHash, record.sessionIdHash);
    TextSurvives(row, ClientId, record.clientId);
    TextSurvives(row, ProtocolVersion, record.protocolVersion);
    TimeSurvives(row, CreatedAt, record.createdAt, 0);
    TimeSurvives(row, LastSeenAt, record.lastSeenAt, record.createdAt);
    TimeSurvives(row, ExpiresAt, record.expiresAt, record.createdAt);
    RequestIdsSurvive(syntax, row, record.requestIdHashes);
    OptionalTimeSurvives(row, InitializedAt, record.initializedAt, record.createdAt);
    OptionalTimeSurvives(row, TerminatedAt, record.terminatedAt, record.createdAt);
  }

  /** A session comes back from the file as it was exactly when it is storable, with an empty
      list of request ids left out of the row. */
  lemma SessionRoundTrip(syntax: Syntax, record: McpSessionRecord)
    requires syntax.RoundTrips()
    ensures SessionFromDisk(syntax, SessionToDisk(syntax, record).value) == Valid(record) <==> SessionStorable(record)
  {
    SessionRowHolds(syntax, record);
    SessionFieldsSurvive(syntax, record, SessionRow(syntax, record));
    SessionParses(syntax, SessionRow(syntax, record), record);
  }

  // ----- rate limits -----

  const LIMIT_KEYS := {WindowStart, PreviousCount, CurrentCount, ExpiresAt}

  function LimitFromDisk(value: Json): Parsed<RateLimitRecord> {
    var row :- RowOf(value, LIMIT_KEYS);
    var windowStart :- SecondsAt(row, WindowStart);
    var previousCount :- SecondsAt(row, PreviousCount);
    var currentCount :- SecondsAt(row, CurrentCount);
    var expiresAt :- SecondsAt(row, ExpiresAt);
    Valid(RateLimitRecord(windowStart, previousCount, currentCount, expiresAt))
  }

  function LimitToDisk(record: RateLimitRecord): Parsed<Json> {
    Valid(Object(map[
      WindowStart := Number(record.windowStart),
      PreviousCount := Number(record.previousCount),
      CurrentCount := Number(record.currentCount),
      ExpiresAt := Number(record.expiresAt)]))
  }

  predicate LimitStorable(record: RateLimitRecord) {
    IsSeconds(record.windowStart) && IsSeconds(record.previousCount) && IsSeconds(record.currentCount)
        && IsSeconds(record.expiresAt)
  }

  lemma LimitRoundTrip(record: RateLimitRecord)
    ensures LimitFromDisk(LimitToDisk(record).value) == Valid(record) <==> LimitStorable(record)
  {
  }
}
