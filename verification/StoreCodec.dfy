/** The whole store as one JSON value, and exactly which stores can be written and read back. */
module StoreCodec {
  import opened Wrappers
  import opened StoreRecords
  import opened Json
  import opened RecordRows

  // ----- maps of records -----

  predicate IsMapKey(key: Key) {
    key.Other? && IsHash(key.text)
  }

  function Names(hashes: set<string>): (keys: set<Key>)
    ensures forall key :: key in keys <==> key.Other? && key.text in hashes
  {
    set hash | hash in hashes :: Other(hash)
  }

  function Hashes(keys: set<Key>): (hashes: set<string>)
    ensures forall hash :: hash in hashes <==> Other(hash) in keys
  {
    set key | key in keys && key.Other? :: key.text
  }

  function NormalizeMap<T>(value: Option<Json>, fromDisk: Json -> Parsed<T>): Parsed<map<string, T>> {
    match value
    case None => Valid(map[])
    case Some(Object(members)) =>
      if forall key | key in members :: IsMapKey(key) && fromDisk(members[key]).Valid? then
        Valid(map hash | hash in Hashes(members.Keys) :: fromDisk(members[Other(hash)]).value)
      else
        Malformed
    case Some(_) => Malformed
  }

  function SerializeMap<T>(records: map<string, T>, toDisk: T -> Parsed<Json>): Parsed<Json> {
    if forall hash | hash in records :: IsHash(hash) && toDisk(records[hash]).Valid? then
      Valid(Object(map key | key in Names(records.Keys) :: toDisk(records[key.text]).value))
    else
      Malformed
  }

  ghost predicate Survives<T>(record: T, toDisk: T -> Parsed<Json>, fromDisk: Json -> Parsed<T>) {
    toDisk(record).Valid? && fromDisk(toDisk(record).value) == Valid(record)
  }

  ghost predicate ComesBack<T>(printed: Parsed<Json>, fromDisk: Json -> Parsed<T>, records: map<string, T>) {
    printed.Valid? && NormalizeMap(Some(printed.value), fromDisk) == Valid(records)
  }

  ghost predicate MapReloads<T>(records: map<string, T>, toDisk: T -> Parsed<Json>, fromDisk: Json -> Parsed<T>) {
    ComesBack(SerializeMap(records, toDisk), fromDisk, records)
  }

  /** A map comes back exactly when every key is a hash and every record comes back. */
  lemma MapRoundTrip<T>(records: map<string, T>, toDisk: T -> Parsed<Json>,
      fromDisk: Json -> Parsed<T>)
    ensures MapReloads(records, toDisk, fromDisk) <==>
            forall hash | hash in records :: IsHash(hash) && Survives(records[hash], toDisk, fromDisk)
  {
    if forall hash | hash in records :: IsHash(hash) && Survives(records[hash], toDisk, fromDisk) {
      MapComesBack(records, toDisk, fromDisk);
    } else if MapReloads(records, toDisk, fromDisk) {
      forall hash | hash in records ensures IsHash(hash) && Survives(records[hash], toDisk, fromDisk) {
        RecordCameBack(records, toDisk, fromDisk, hash);
      }
    }
  }

  lemma MapComesBack<T>(records: map<string, T>, toDisk: T -> Parsed<Json>,
      fromDisk: Json -> Parsed<T>)
    requires forall hash | hash in records :: IsHash(hash) && Survives(records[hash], toDisk, fromDisk)
    ensures MapReloads(records, toDisk, fromDisk)
  {
    var members := SerializeMap(records, toDisk).value.members;
    assert Hashes(members.Keys) == records.Keys;
    forall key | key in members ensures IsMapKey(key) && fromDisk(members[key]) == Valid(records[key.text]) {
      assert Survives(records[key.text], toDisk, fromDisk);
    }
    assert NormalizeMap(Some(Object(members)), fromDisk).value == records;
  }

  lemma RecordCameBack<T>(records: map<string, T>, toDisk: T -> Parsed<Json>,
      fromDisk: Json -> Parsed<T>, hash: string)
    requires MapReloads(records, toDisk, fromDisk)
    requires hash in records
    ensures IsHash(hash) && Survives(records[hash], toDisk, fromDisk)
  {
  }

  // ----- the whole store -----

  function CodePrinter(syntax: Syntax): AuthorizationCodeRecord -> Parsed<Json> {
    record => CodeToDisk(syntax, record)
  }

  function CodeParser(syntax: Syntax): Json -> Parsed<AuthorizationCodeRecord> {
    json => CodeFromDisk(syntax, json)
  }

  function TokenPrinter(syntax: Syntax): RefreshTokenRecord -> Parsed<Json> {
    record => TokenToDisk(syntax, record)
  }

  function TokenParser(syntax: Syntax): Json -> Parsed<RefreshTokenRecord> {
    json => TokenFromDisk(syntax, json)
  }

  function StatePrinter(syntax: Syntax): UpstreamStateRecord -> Parsed<Json> {
    record => StateToDisk(syntax, record)
  }

  function StateParser(syntax: Syntax): Json -> Parsed<UpstreamStateRecord> {
    json => StateFromDisk(syntax, json)
  }

  function SessionPrinter(syntax: Syntax): McpSessionRecord -> Parsed<Json> {
    record => SessionToDisk(syntax, record)
  }

  function SessionParser(syntax: Syntax): Json -> Parsed<McpSessionRecord> {
    json => SessionFromDisk(syntax, json)
  }

  const STORE_KEYS := {AuthorizationCodes, RefreshTokens, UpstreamAuthorizationStates, McpSessions, RateLimits}

  function MemberOf(members: Row, key: Key): Option<Json> {
    if key in members then Some(members[key]) else None
  }

  function NormalizeStore(syntax: Syntax, value: Json): Parsed<StoreState> {
    if !value.Object? || !(value.members.Keys <= STORE_KEYS) then Malformed
    else
      StoreOf(NormalizeMap(MemberOf(value.members, AuthorizationCodes), CodeParser(syntax)),
              NormalizeMap(MemberOf(value.members, RefreshTokens), TokenParser(syntax)),
              NormalizeMap(MemberOf(value.members, UpstreamAuthorizationStates), StateParser(syntax)),
              NormalizeMap(MemberOf(value.members, McpSessions), SessionParser(syntax)),
              NormalizeMap(MemberOf(value.members, RateLimits), LimitFromDisk))
  }

  function StoreOf(codes: Parsed<map<string, AuthorizationCodeRecord>>, tokens: Parsed<map<string, RefreshTokenRecord>>,
                   states: Parsed<map<string, UpstreamStateRecord>>, sessions: Parsed<map<string, McpSessionRecord>>,
                   limits: Parsed<map<string, RateLimitRecord>>): (store: Parsed<StoreState>)
    ensures forall state :: store == Valid(state) <==>
              && codes == Valid(state.authorizationCodes) && tokens == Valid(state.refreshTokens)
              && states == Valid(state.upstreamStates) && sessions == Valid(state.mcpSessions)
              && limits == Valid(state.rateLimits)
  {
    var codes :- codes;
    var tokens :- tokens;
    var states :- states;
    var sessions :- sessions;
    var limits :- limits;
    Valid(StoreState(codes, tokens, states, sessions, limits))
  }

  function SerializeStore(syntax: Syntax, state: StoreState): Parsed<Json> {
    StoreValue(SerializeMap(state.authorizationCodes, CodePrinter(syntax)),
               SerializeMap(state.refreshTokens, TokenPrinter(syntax)),
               SerializeMap(state.upstreamStates, StatePrinter(syntax)),
               SerializeMap(state.mcpSessions, SessionPrinter(syntax)),
               SerializeMap(state.rateLimits, LimitToDisk))
  }

  function StoreValue(codes: Parsed<Json>, tokens: Parsed<Json>, states: Parsed<Json>, sessions: Parsed<Json>,
      limits: Parsed<Json>): (value: Parsed<Json>)
    ensures value.Valid? <==> codes.Valid? && tokens.Valid? && states.Valid? && sessions.Valid? && limits.Valid?
    ensures value.Valid? ==>
              && value.value.Object? && value.value.members.Keys == STORE_KEYS
              && value.value.members[AuthorizationCodes] == codes.value
              && value.value.members[RefreshTokens] == tokens.value
              && value.value.members[UpstreamAuthorizationStates] == states.value
              && value.value.members[McpSessions] == sessions.value
              && value.value.members[RateLimits] == limits.value
  {
    var codes :- codes;
    var tokens :- tokens;
    var states :- states;
    var sessions :- sessions;
    var limits :- limits;
    Valid(Object(map[AuthorizationCodes := codes, RefreshTokens := tokens, UpstreamAuthorizationStates := states,
                     McpSessions := sessions, RateLimits := limits]))
  }

  predicate CodesStorable(codes: map<string, AuthorizationCodeRecord>) {
    forall hash | hash in codes :: IsHash(hash) && CodeStorable(codes[hash])
  }

  predicate TokensStorable(tokens: map<string, RefreshTokenRecord>) {
    forall hash | hash in tokens :: IsHash(hash) && TokenStorable(tokens[hash])
  }

  predicate StatesStorable(states: map<string, UpstreamStateRecord>) {
    forall hash | hash in states :: IsHash(hash) && StateStorable(states[hash])
  }

  predicate SessionsStorable(sessions: map<string, McpSessionRecord>) {
    forall hash | hash in sessions :: IsHash(hash) && SessionStorable(sessions[hash])
  }

  predicate LimitsStorable(limits: map<string, RateLimitRecord>) {
    forall key | key in limits :: IsHash(key) && LimitStorable(limits[key])
  }

  predicate Storable(state: StoreState) {
    && CodesStorable(state.authorizationCodes) && TokensStorable(state.refreshTokens)
    && StatesStorable(state.upstreamStates)
    && SessionsStorable(state.mcpSessions) && LimitsStorable(state.rateLimits)
  }

  /** The store is written, and read back as it was. */
  ghost predicate Reloads(syntax: Syntax, state: StoreState) {
    SerializeStore(syntax, state).Valid? && NormalizeStore(syntax, SerializeStore(syntax, state).value) == Valid(state)
  }

  lemma CodesReload(syntax: Syntax, codes: map<string, AuthorizationCodeRecord>)
    requires syntax.RoundTrips()
    ensures MapReloads(codes, CodePrinter(syntax), CodeParser(syntax)) <==> CodesStorable(codes)
  {
    MapRoundTrip(codes, CodePrinter(syntax), CodeParser(syntax));
    forall hash | hash in codes
      ensures Survives(codes[hash], CodePrinter(syntax), CodeParser(syntax)) <==> CodeStorable(codes[hash])
    {
      CodeRoundTrip(syntax, codes[hash]);
    }
  }

  lemma TokensReload(syntax: Syntax, tokens: map<string, RefreshTokenRecord>)
    requires syntax.RoundTrips()
    ensures MapReloads(tokens, TokenPrinter(syntax), TokenParser(syntax)) <==> TokensStorable(tokens)
  {
    MapRoundTrip(tokens, TokenPrinter(syntax), TokenParser(syntax));
    forall hash | hash in tokens
      ensures Survives(tokens[hash], TokenPrinter(syntax), TokenParser(syntax)) <==> TokenStorable(tokens[hash])
    {
      TokenRoundTrip(syntax, tokens[hash]);
    }
  }

  lemma StatesReload(syntax: Syntax, states: map<string, UpstreamStateRecord>)
    requires syntax.RoundTrips()
    ensures MapReloads(states, StatePrinter(syntax), StateParser(syntax)) <==> StatesStorable(states)
  {
    MapRoundTrip(states, StatePrinter(syntax), StateParser(syntax));
    forall hash | hash in states
      ensures Survives(states[hash], StatePrinter(syntax), StateParser(syntax)) <==> StateStorable(states[hash])
    {
      StateRoundTrip(syntax, states[hash]);
    }
  }

  lemma SessionsReload(syntax: Syntax, sessions: map<string, McpSessionRecord>)
    requires syntax.RoundTrips()
    ensures MapReloads(sessions, SessionPrinter(syntax), SessionParser(syntax)) <==> SessionsStorable(sessions)
  {
    MapRoundTrip(sessions, SessionPrinter(syntax), SessionParser(syntax));
    forall hash | hash in sessions
      ensures Survives(sessions[hash], SessionPrinter(syntax), SessionParser(syntax))
          <==> SessionStorable(sessions[hash])
    {
      SessionRoundTrip(syntax, sessions[hash]);
    }
  }

  lemma LimitsReload(limits: map<string, RateLimitRecord>)
    ensures MapReloads(limits, LimitToDisk, LimitFromDisk) <==> LimitsStorable(limits)
  {
    MapRoundTrip(limits, LimitToDisk, LimitFromDisk);
    forall key | key in limits ensures Survives(limits[key], LimitToDisk, LimitFromDisk)
        <==> LimitStorable(limits[key]) {
      LimitRoundTrip(limits[key]);
    }
  }

  ghost predicate MapsReload(syntax: Syntax, state: StoreState) {
    && MapReloads(state.authorizationCodes, CodePrinter(syntax), CodeParser(syntax))
    && MapReloads(state.refreshTokens, TokenPrinter(syntax), TokenParser(syntax))
    && MapReloads(state.upstreamStates, StatePrinter(syntax), StateParser(syntax))
    && MapReloads(state.mcpSessions, SessionPrinter(syntax), SessionParser(syntax))
    && MapReloads(state.rateLimits, LimitToDisk, LimitFromDisk)
  }

  /** A printed store parses map by map. */
  lemma NormalizedValue(syntax: Syntax, codes: Parsed<Json>, tokens: Parsed<Json>,
      states: Parsed<Json>, sessions: Parsed<Json>, limits: Parsed<Json>)
    requires StoreValue(codes, tokens, states, sessions, limits).Valid?
    ensures NormalizeStore(syntax, StoreValue(codes, tokens, states, sessions, limits).value) ==
            StoreOf(NormalizeMap(Some(codes.value), CodeParser(syntax)),
                    NormalizeMap(Some(tokens.value), TokenParser(syntax)),
                    NormalizeMap(Some(states.value), StateParser(syntax)),
                    NormalizeMap(Some(sessions.value), SessionParser(syntax)),
                    NormalizeMap(Some(limits.value), LimitFromDisk))
  {
  }

  /** The printed maps parse to the store exactly when each of them parses to its own map. */
  lemma ValuesComeBack(syntax: Syntax, state: StoreState, codes: Parsed<Json>, tokens: Parsed<Json>,
      states: Parsed<Json>, sessions: Parsed<Json>, limits: Parsed<Json>)
    ensures var value := StoreValue(codes, tokens, states, sessions, limits);
            value.Valid? && NormalizeStore(syntax, value.value) == Valid(state) <==>
            && ComesBack(codes, CodeParser(syntax), state.authorizationCodes)
            && ComesBack(tokens, TokenParser(syntax), state.refreshTokens)
            && ComesBack(states, StateParser(syntax), state.upstreamStates)
            && ComesBack(sessions, SessionParser(syntax), state.mcpSessions)
            && ComesBack(limits, LimitFromDisk, state.rateLimits)
  {
    if StoreValue(codes, tokens, states, sessions, limits).Valid? {
      NormalizedValue(syntax, codes, tokens, states, sessions, limits);
    }
  }

  lemma PrintedComesBack(syntax: Syntax, state: StoreState, printed: Parsed<Json>, codes: Parsed<Json>,
      tokens: Parsed<Json>, states: Parsed<Json>, sessions: Parsed<Json>, limits: Parsed<Json>)
    requires printed == StoreValue(codes, tokens, states, sessions, limits)
    requires codes == SerializeMap(state.authorizationCodes, CodePrinter(syntax))
    requires tokens == SerializeMap(state.refreshTokens, TokenPrinter(syntax))
    requires states == SerializeMap(state.upstreamStates, StatePrinter(syntax))
    requires sessions == SerializeMap(state.mcpSessions, SessionPrinter(syntax))
    requires limits == SerializeMap(state.rateLimits, LimitToDisk)
    ensures printed.Valid? && NormalizeStore(syntax, printed.value) == Valid(state) <==> MapsReload(syntax, state)
  {
    ValuesComeBack(syntax, state, codes, tokens, states, sessions, limits);
  }

  lemma StoreReloadsByMaps(syntax: Syntax, state: StoreState)
    ensures Reloads(syntax, state) <==> MapsReload(syntax, state)
  {
    PrintedComesBack(syntax, state, SerializeStore(syntax, state),
        SerializeMap(state.authorizationCodes, CodePrinter(syntax)),
        SerializeMap(state.refreshTokens, TokenPrinter(syntax)),
        SerializeMap(state.upstreamStates, StatePrinter(syntax)),
        SerializeMap(state.mcpSessions, SessionPrinter(syntax)), SerializeMap(state.rateLimits, LimitToDisk));
  }

  /** A store is written and read back as it was exactly when all its keys are hashes and all its
      records are storable. */
  lemma StoreRoundTrip(syntax: Syntax, state: StoreState)
    requires syntax.RoundTrips()
    ensures Reloads(syntax, state) <==> Storable(state)
  {
    StoreReloadsByMaps(syntax, state);
    CodesReload(syntax, state.authorizationCodes);
    TokensReload(syntax, state.refreshTokens);
    StatesReload(syntax, state.upstreamStates);
    SessionsReload(syntax, state.mcpSessions);
    LimitsReload(state.rateLimits);
  }
}
