/** What was read from a store file can be written and read again, but for names that the normaliser
    of profiles makes up. */
module FileStability {
  import opened Wrappers
  import opened StoreRecords
  import opened Json
  import opened UserProfiles
  import opened StoreRows
  import opened RecordRows
  import opened StoreCodec

  predicate NameFits(user: UserProfile) {
    |user.name| <= 256
  }

  // ----- fields -----

  lemma ParsedProfile(syntax: Syntax, row: Row, user: UserProfile)
    requires ProfileAt(syntax, row) == Valid(user)
    ensures IsProfile(user) <==> NameFits(user)
  {
    var value := syntax.parse(row[UserJson].text).value;
    NormalizedProfile(value);
    NormalizedName(value);
  }

  lemma ParsedScopes(syntax: Syntax, row: Row, scopes: seq<string>)
    requires ScopesAt(syntax, row) == Valid(scopes)
    ensures IsScopes(scopes)
  {
  }

  lemma ParsedRequestIds(syntax: Syntax, row: Row, ids: seq<string>)
    requires RequestIdsAt(syntax, row) == Valid(ids)
    ensures IsRequestIds(ids)
  {
  }

  lemma ParsedPkce(row: Row, nonce: Option<string>, challenge: Option<string>, challengeMethod: Option<string>)
    requires OptionalAt(row, Nonce, NonceAt) == Valid(nonce)
    requires OptionalAt(row, CodeChallenge, HashAt) == Valid(challenge)
    requires OptionalAt(row, CodeChallengeMethod, MethodAt) == Valid(challengeMethod)
    ensures PkceStorable(nonce, challenge, challengeMethod)
  {
  }

  // ----- records -----

  lemma ParsedCode(syntax: Syntax, value: Json, record: AuthorizationCodeRecord)
    requires CodeFromDisk(syntax, value) == Valid(record)
    ensures CodeStorable(record) <==> NameFits(record.user)
  {
    var row := value.members;
    CodeParses(syntax, row, record);
    ParsedProfile(syntax, row, record.user);
    ParsedScopes(syntax, row, record.scopes);
    ParsedPkce(row, record.nonce, record.codeChallenge, record.codeChallengeMethod);
  }

  lemma ParsedToken(syntax: Syntax, value: Json, record: RefreshTokenRecord)
    requires TokenFromDisk(syntax, value) == Valid(record)
    ensures TokenStorable(record) <==> NameFits(record.user)
  {
    var row := value.members;
    TokenParses(syntax, row, record);
    ParsedProfile(syntax, row, record.user);
    ParsedScopes(syntax, row, record.scopes);
  }

  lemma ParsedState(syntax: Syntax, value: Json, record: UpstreamStateRecord)
    requires StateFromDisk(syntax, value) == Valid(record)
    ensures StateStorable(record)
  {
    var row := value.members;
    StateParses(syntax, row, record);
    ParsedScopes(syntax, row, record.scopes);
    ParsedPkce(row, record.nonce, record.codeChallenge, record.codeChallengeMethod);
  }

  lemma ParsedSession(syntax: Syntax, value: Json, record: McpSessionRecord)
    requires SessionFromDisk(syntax, value) == Valid(record)
    ensures SessionStorable(record)
  {
    var row := value.members;
    SessionParses(syntax, row, record);
    ParsedRequestIds(syntax, row, record.requestIdHashes);
  }

  lemma ParsedLimit(value: Json, record: RateLimitRecord)
    requires LimitFromDisk(value) == Valid(record)
    ensures LimitStorable(record)
  {
  }

  // ----- maps -----

  lemma ParsedMap<T>(value: Option<Json>, fromDisk: Json -> Parsed<T>, records: map<string, T>, hash: string)
    returns (row: Json)
    requires NormalizeMap(value, fromDisk) == Valid(records) && hash in records
    ensures IsHash(hash) && fromDisk(row) == Valid(records[hash])
  {
    row := value.value.members[Other(hash)];
    assert IsMapKey(Other(hash));
  }

  lemma ParsedCodes(syntax: Syntax, value: Option<Json>, codes: map<string, AuthorizationCodeRecord>)
    requires NormalizeMap(value, CodeParser(syntax)) == Valid(codes)
    ensures CodesStorable(codes) <==> forall h | h in codes :: NameFits(codes[h].user)
  {
    forall h | h in codes ensures IsHash(h) && (CodeStorable(codes[h]) <==> NameFits(codes[h].user)) {
      var row := ParsedMap(value, CodeParser(syntax), codes, h);
      ParsedCode(syntax, row, codes[h]);
    }
  }

  lemma ParsedTokens(syntax: Syntax, value: Option<Json>, tokens: map<string, RefreshTokenRecord>)
    requires NormalizeMap(value, TokenParser(syntax)) == Valid(tokens)
    ensures TokensStorable(tokens) <==> forall h | h in tokens :: NameFits(tokens[h].user)
  {
    forall h | h in tokens ensures IsHash(h) && (TokenStorable(tokens[h]) <==> NameFits(tokens[h].user)) {
      var row := ParsedMap(value, TokenParser(syntax), tokens, h);
      ParsedToken(syntax, row, tokens[h]);
    }
  }

  lemma ParsedStates(syntax: Syntax, value: Option<Json>, states: map<string, UpstreamStateRecord>)
    requires NormalizeMap(value, StateParser(syntax)) == Valid(states)
    ensures StatesStorable(states)
  {
    forall h | h in states ensures IsHash(h) && StateStorable(states[h]) {
      var row := ParsedMap(value, StateParser(syntax), states, h);
      ParsedState(syntax, row, states[h]);
    }
  }

  lemma ParsedSessions(syntax: Syntax, value: Option<Json>, sessions: map<string, McpSessionRecord>)
    requires NormalizeMap(value, SessionParser(syntax)) == Valid(sessions)
    ensures SessionsStorable(sessions)
  {
    forall h | h in sessions ensures IsHash(h) && SessionStorable(sessions[h]) {
      var row := ParsedMap(value, SessionParser(syntax), sessions, h);
      ParsedSession(syntax, row, sessions[h]);
    }
  }

  lemma ParsedLimits(value: Option<Json>, limits: map<string, RateLimitRecord>)
    requires NormalizeMap(value, LimitFromDisk) == Valid(limits)
    ensures LimitsStorable(limits)
  {
    forall h | h in limits ensures IsHash(h) && LimitStorable(limits[h]) {
      var row := ParsedMap(value, LimitFromDisk, limits, h);
      ParsedLimit(row, limits[h]);
    }
  }

  lemma ParsedStore(syntax: Syntax, value: Json, state: StoreState)
    requires NormalizeStore(syntax, value) == Valid(state)
    ensures Storable(state) <==>
            && (forall h | h in state.authorizationCodes :: NameFits(state.authorizationCodes[h].user))
            && (forall h | h in state.refreshTokens :: NameFits(state.refreshTokens[h].user))
  {
    var members := value.members;
    ParsedCodes(syntax, MemberOf(members, AuthorizationCodes), state.authorizationCodes);
    ParsedTokens(syntax, MemberOf(members, RefreshTokens), state.refreshTokens);
    ParsedStates(syntax, MemberOf(members, UpstreamAuthorizationStates), state.upstreamStates);
    ParsedSessions(syntax, MemberOf(members, McpSessions), state.mcpSessions);
    ParsedLimits(MemberOf(members, RateLimits), state.rateLimits);
  }

  // ----- the file -----

  /** Every file that parses can be written back and then reads as the same store, exactly if every display
      name in it fits 256 characters; only a name made up from two others can be longer. */
  lemma ReadFileReloadsIff(syntax: Syntax, value: Json, state: StoreState)
    requires syntax.RoundTrips() && NormalizeStore(syntax, value) == Valid(state)
    ensures Reloads(syntax, state) <==>
            && (forall h | h in state.authorizationCodes :: |state.authorizationCodes[h].user.name| <= 256)
            && (forall h | h in state.refreshTokens :: |state.refreshTokens[h].user.name| <= 256)
  {
    StoreRoundTrip(syntax, state);
    ParsedStore(syntax, value, state);
  }
}
