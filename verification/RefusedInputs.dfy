/** Inputs that the authorization endpoint accepts and the store file refuses. They arrive with the
    login state, which is the first record an authorization writes, and a refused record makes the
    whole file unreadable. */
module RefusedInputs {
  import opened Wrappers
  import opened StoreRecords
  import opened Json
  import opened StoreRows
  import opened RecordRows
  import opened StoreCodec
  import opened StoreOperations
  import opened StoreReload
  import opened Authorization
  import opened Provenance
  import AuthorizationCodes
  import Scopes
  import UserProfiles

  // ----- one malformed record -----

  lemma MalformedFieldIsEnough(syntax: Syntax, row: Row)
    requires TextAt(row, ClientState) == Malformed || OptionalAt(row, CodeChallenge, HashAt) == Malformed
    ensures StateFromDisk(syntax, Object(row)) == Malformed
  {
  }

  /** A row with a blank client state or a challenge unlike a digest is refused. */
  lemma RefusedState(syntax: Syntax, record: UpstreamStateRecord)
    requires Blank(record.clientState) || (record.codeChallenge.Some? && !IsHash(record.codeChallenge.value))
    ensures StateFromDisk(syntax, StateToDisk(syntax, record).value) == Malformed
  {
    var row := StateRow(syntax, record);
    StateRowHolds(syntax, record);
    if Blank(record.clientState) {
      TextSurvives(row, ClientState, record.clientState);
    } else {
      TextSurvives(row, CodeChallenge, record.codeChallenge.value);
    }
    MalformedFieldIsEnough(syntax, row);
  }

  lemma MalformedRecordIsEnough<T>(records: map<string, T>, toDisk: T -> Parsed<Json>, fromDisk: Json -> Parsed<T>,
      hash: string)
    requires SerializeMap(records, toDisk).Valid? && hash in records
    requires fromDisk(toDisk(records[hash]).value) == Malformed
    ensures NormalizeMap(Some(SerializeMap(records, toDisk).value), fromDisk) == Malformed
  {
    assert Other(hash) in SerializeMap(records, toDisk).value.members;
  }

  lemma StatesPrint(syntax: Syntax, states: AuthorizationCodes.States)
    requires forall h | h in states :: IsHash(h)
    ensures SerializeMap(states, StatePrinter(syntax)).Valid?
  {
  }

  lemma OtherMapsPrint(syntax: Syntax, state: StoreState)
    requires syntax.RoundTrips() && Storable(state)
    ensures SerializeMap(state.authorizationCodes, CodePrinter(syntax)).Valid?
    ensures SerializeMap(state.refreshTokens, TokenPrinter(syntax)).Valid?
    ensures SerializeMap(state.mcpSessions, SessionPrinter(syntax)).Valid?
    ensures SerializeMap(state.rateLimits, LimitToDisk).Valid?
  {
    StoreRoundTrip(syntax, state);
    StoreReloadsByMaps(syntax, state);
  }

  /** The file is written, but nothing can read it again. */
  ghost predicate WrittenAndUnreadable(syntax: Syntax, state: StoreState) {
    SerializeStore(syntax, state).Valid? && NormalizeStore(syntax, SerializeStore(syntax, state).value) == Malformed
  }

  lemma RefusedStateIsEnough(syntax: Syntax, state: StoreState, states: AuthorizationCodes.States, hash: string)
    requires syntax.RoundTrips() && Storable(state)
    requires hash in states && forall h | h in states :: IsHash(h)
    requires StateFromDisk(syntax, StateToDisk(syntax, states[hash]).value) == Malformed
    ensures WrittenAndUnreadable(syntax, state.(upstreamStates := states))
  {
    OtherMapsPrint(syntax, state);
    StatesPrint(syntax, states);
    MalformedRecordIsEnough(states, StatePrinter(syntax), StateParser(syntax), hash);
    NormalizedValue(syntax, SerializeMap(state.authorizationCodes, CodePrinter(syntax)),
        SerializeMap(state.refreshTokens, TokenPrinter(syntax)), SerializeMap(states, StatePrinter(syntax)),
        SerializeMap(state.mcpSessions, SessionPrinter(syntax)), SerializeMap(state.rateLimits, LimitToDisk));
  }

  /** One more login state: the file reloads exactly when that record is storable. */
  lemma NewStateDecides(syntax: Syntax, state: StoreState, states: AuthorizationCodes.States, hash: string)
    requires syntax.RoundTrips() && Storable(state) && IsHash(hash) && hash in states
    requires forall h | h in states && h != hash :: h in state.upstreamStates && states[h] == state.upstreamStates[h]
    requires !StateStorable(states[hash]) ==>
               StateFromDisk(syntax, StateToDisk(syntax, states[hash]).value) == Malformed
    ensures Reloads(syntax, state.(upstreamStates := states)) <==> StateStorable(states[hash])
    ensures !StateStorable(states[hash]) ==> WrittenAndUnreadable(syntax, state.(upstreamStates := states))
  {
    StoreRoundTrip(syntax, state.(upstreamStates := states));
    if StateStorable(states[hash]) {
      assert StatesStorable(states);
    } else {
      RefusedStateIsEnough(syntax, state, states, hash);
    }
  }

  lemma CreatedStates(states: AuthorizationCodes.States, hash: string, input: AuthorizationCodes.StateInput,
      createdAt: int)
    ensures var after := AuthorizationCodes.CreateState(states, hash, input, createdAt);
            && hash in after && after[hash] == AuthorizationCodes.NewState(hash, input, createdAt)
            && forall h | h in after && h != hash :: h in states && after[h] == states[h]
  {
  }

  lemma CreationPerformed(digest: string -> string, state: StoreState, hash: string,
      input: AuthorizationCodes.StateInput, createdAt: int)
    ensures Perform(digest, state, StoreOperations.CreateState(hash, input, createdAt)).0 ==
            state.(upstreamStates := AuthorizationCodes.CreateState(state.upstreamStates, hash, input, createdAt))
  {
  }

  /** A new login state is stored: whether the file can be read again is decided by its record. */
  lemma CreatedStateDecides(syntax: Syntax, digest: string -> string, state: StoreState, hash: string,
      input: AuthorizationCodes.StateInput, createdAt: int)
    requires syntax.RoundTrips() && Storable(state) && IsHash(hash)
    requires var record := AuthorizationCodes.NewState(hash, input, createdAt);
             !StateStorable(record) ==> StateFromDisk(syntax, StateToDisk(syntax, record).value) == Malformed
    ensures var record := AuthorizationCodes.NewState(hash, input, createdAt);
            var after := Perform(digest, state, StoreOperations.CreateState(hash, input, createdAt)).0;
            && (Reloads(syntax, after) <==> StateStorable(record))
            && (!StateStorable(record) ==> WrittenAndUnreadable(syntax, after))
  {
    CreationPerformed(digest, state, hash, input, createdAt);
    CreatedStates(state.upstreamStates, hash, input, createdAt);
    NewStateDecides(syntax, state, AuthorizationCodes.CreateState(state.upstreamStates, hash, input, createdAt), hash);
  }

  // ----- every accepted authorization -----

  /** Client registration keeps blank texts out. */
  predicate RegistryPrintable(registry: Registry) {
    forall id | id in registry ::
      && !Blank(id)
      && (forall uri | uri in registry[id].redirectUris :: !Blank(uri))
      && (forall resource | resource in registry[id].allowedResources :: !Blank(resource))
  }

  /** Of the accepted challenges, the file takes those of the length and alphabet of a digest. */
  predicate FileTakes(v: ValidatedAuthorization) {
    && !Blank(v.clientState)
    && (v.codeChallenge.Some? ==>
          |v.codeChallenge.value| == 43 && '.' !in v.codeChallenge.value && '~' !in v.codeChallenge.value)
  }

  lemma AcceptedChallenge(challenge: string)
    requires AuthorizationCodes.IsPkceText(challenge)
    ensures IsHash(challenge) <==> |challenge| == 43 && '.' !in challenge && '~' !in challenge
  {
  }

  lemma ScopesAreNotBlank(scopes: seq<string>)
    requires Scopes.AllScopes(scopes)
    ensures IsScopes(scopes)
  {
    forall scope | scope in scopes ensures !Blank(scope) {
      assert Scopes.IsScope(scope) && scope[0] in scope;
    }
  }

  /** The login state of an accepted authorization is storable exactly when the file takes it, and
      refused otherwise. */
  lemma AcceptedIsStorableIff(syntax: Syntax, registry: Registry, canonical: Canonical, request: AuthorizationRequest,
      record: UpstreamStateRecord, created: AuthorizationCodes.StateInput)
    requires RegistryValid(registry) && RegistryPrintable(registry) && Validate(registry, canonical, request).Some?
    requires IsHash(record.stateHash) && !Blank(created.codeVerifier) && IsNonce(created.upstreamNonce)
    requires Lifetime(record.createdAt, created.ttlSeconds, record.createdAt)
    requires created == StateInputOf(Validate(registry, canonical, request).value, created.codeVerifier,
                            created.upstreamNonce, created.ttlSeconds)
    requires record == AuthorizationCodes.NewState(record.stateHash, created, record.createdAt)
    ensures StateStorable(record) <==> FileTakes(Validate(registry, canonical, request).value)
    ensures !StateStorable(record) ==> StateFromDisk(syntax, StateToDisk(syntax, record).value) == Malformed
  {
    var v := Validate(registry, canonical, request).value;
    ValidatedIsAllowed(registry, canonical, request);
    ScopesAreNotBlank(v.scopes);
    if v.codeChallenge.Some? {
      AcceptedChallenge(v.codeChallenge.value);
    }
    if !FileTakes(v) {
      RefusedState(syntax, record);
    }
  }

  /** After an accepted authorization the file reloads exactly when the client state is not blank
      and the challenge looks like a digest. Otherwise it is written and then refused as a whole. */
  lemma AcceptedAuthorizationReloadsIff(syntax: Syntax, env: Environment, state: StoreState,
      request: AuthorizationRequest, hash: string, codeVerifier: string, upstreamNonce: string, createdAt: int)
    requires syntax.RoundTrips() && Storable(state) && RegistryValid(env.registry) && RegistryPrintable(env.registry)
    requires Validate(env.registry, env.canonical, request).Some?
    requires IsHash(hash) && !Blank(codeVerifier) && IsNonce(upstreamNonce)
    requires Lifetime(createdAt, env.codeTtl, createdAt)
    ensures var v := Validate(env.registry, env.canonical, request).value;
            var created := StateInputOf(v, codeVerifier, upstreamNonce, env.codeTtl);
            var after := Perform(env.digest, state, StoreOperations.CreateState(hash, created, createdAt)).0;
            && (Reloads(syntax, after) <==> FileTakes(v))
            && (!FileTakes(v) ==> WrittenAndUnreadable(syntax, after))
  {
    var v := Validate(env.registry, env.canonical, request).value;
    var created := StateInputOf(v, codeVerifier, upstreamNonce, env.codeTtl);
    var record := AuthorizationCodes.NewState(hash, created, createdAt);
    AcceptedIsStorableIff(syntax, env.registry, env.canonical, request, record, created);
    CreatedStateDecides(syntax, env.digest, state, hash, created, createdAt);
  }

  // ----- such requests exist -----

  function SampleRequest(clientState: string, codeChallenge: string): AuthorizationRequest {
    AuthorizationRequest("code", "client", "https://client/callback", None, Some(clientState), Some("https://resource"),
        Some(codeChallenge), Some("S256"), None)
  }

  function SampleRegistry(): Registry {
    map["client" := OAuthClient("client", ["https://client/callback"], Scopes.DEFAULT_SCOPES, ["https://resource"],
            true, "web")]
  }

  lemma NotBlank(s: string)
    requires s != "" && !IsSpace(s[0])
    ensures !Blank(s)
  {
    assert s[0] in s;
  }

  lemma SampleRegistryIsPrintable()
    ensures RegistryValid(SampleRegistry()) && RegistryPrintable(SampleRegistry())
  {
    NotBlank("client");
    NotBlank("https://client/callback");
    NotBlank("https://resource");
  }

  lemma SampleRequestIsAccepted(clientState: string, codeChallenge: string)
    requires IsClientState(clientState) && AuthorizationCodes.IsPkceText(codeChallenge)
    ensures var v := Validate(SampleRegistry(), text => Some(text), SampleRequest(clientState, codeChallenge));
            v.Some? && v.value.clientState == clientState && v.value.codeChallenge == Some(codeChallenge)
  {
  }

  /** A client may send a blank state, or a challenge with a tilde: both requests are accepted. */
  lemma RefusedRequestsAreAccepted()
    ensures RegistryValid(SampleRegistry()) && RegistryPrintable(SampleRegistry())
    ensures var v := Validate(SampleRegistry(), text => Some(text), SampleRequest(" ", UserProfiles.Repeat('a', 43)));
            v.Some? && !FileTakes(v.value)
    ensures var v := Validate(SampleRegistry(), text => Some(text), SampleRequest("x", UserProfiles.Repeat('~', 43)));
            v.Some? && !FileTakes(v.value)
  {
    SampleRegistryIsPrintable();
    SampleRequestIsAccepted(" ", UserProfiles.Repeat('a', 43));
    SampleRequestIsAccepted("x", UserProfiles.Repeat('~', 43));
    assert UserProfiles.Repeat('~', 43)[0] == '~' && " "[0] == ' ';
  }
}
