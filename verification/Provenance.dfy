/** From the authorization request to the token response: every handler as its sequence of store
    operations, interleaved with all the others, and where each response comes from. */
module Provenance {
  import opened Wrappers
  import opened StoreRecords
  import opened Authorization
  import opened AuthorizationCodes
  import opened RefreshTokens

  /** How a code came about: the login state it answers and who logged in. */
  datatype Origin = Origin(stateHash: string, user: UserProfile, authTime: int)

  datatype Handler =
    | Callback(login: UpstreamStateRecord)
    | CodeGrant(clientId: string, code: AuthorizationCodeRecord, resource: string)

  /** What a token response says, the nonce of its ID token, and the family of its refresh token. */
  datatype Response = Response(grant: Grant, nonce: Option<string>, familyId: string)

  /** `handlers` are requests between two store operations. The rest, apart from the store, is
      history: the validated authorizations by state, the origin of each code, the code of each
      family, what was consumed, and the responses. */
  datatype System = System(
    store: StoreState,
    handlers: map<nat, Handler>,
    authorized: map<string, ValidatedAuthorization>,
    codes: map<string, Origin>,
    families: map<string, string>,
    consumedStates: set<string>,
    consumedCodes: set<string>,
    responses: seq<Response>)

  /** The fixed environment: clients, URL canonicalisation, the hash and the configured lifetimes. */
  datatype Environment = Environment(registry: Registry, canonical: Canonical, digest: string -> string, codeTtl: int,
      refreshTtl: int)

  /** The fields of a token request. */
  datatype TokenForm = TokenForm(secretHash: string, redirectUri: string, resource: Option<string>,
      verifier: Option<string>)

  datatype Step =
    | Authorize(request: AuthorizationRequest, hash: string, codeVerifier: string, upstreamNonce: string, now: int)
    | ConsumeLogin(h: nat, hash: string, now: int)
    | IssueCode(h: nat, user: UserProfile, hash: string, now: int)
    | AbandonLogin(h: nat)
    | RedeemCode(h: nat, clientId: string, form: TokenForm, now: int)
    | IssueTokens(h: nat, hash: string, familyId: string, now: int)
    | Refresh(clientId: string, form: TokenForm, newHash: string, now: int)

  function StateInputOf(v: ValidatedAuthorization, codeVerifier: string, upstreamNonce: string,
      ttlSeconds: int): StateInput {
    StateInput(v.clientId, v.redirectUri, v.resource, v.scopes, v.clientState, codeVerifier, upstreamNonce, v.nonce,
                                  v.codeChallenge, v.codeChallengeMethod, ttlSeconds)
  }

  function CodeInputOf(record: UpstreamStateRecord, user: UserProfile, ttlSeconds: int): CodeInput {
    CodeInput(record.clientId, record.redirectUri, record.resource, record.scopes, record.nonce, record.codeChallenge,
              record.codeChallengeMethod, user, ttlSeconds)
  }

  // ----- actions -----

  ghost predicate AuthorizeAction(env: Environment, s: System, request: AuthorizationRequest, hash: string,
      codeVerifier: string, upstreamNonce: string, now: int, s': System) {
    && hash !in s.authorized
    && match Validate(env.registry, env.canonical, request)
       case None => s' == s
       case Some(v) =>
         var states := CreateState(s.store.upstreamStates, hash,
             StateInputOf(v, codeVerifier, upstreamNonce, env.codeTtl), now);
         s' == s.(store := s.store.(upstreamStates := states), authorized := s.authorized[hash := v])
  }

  ghost predicate ConsumeLoginAction(env: Environment, s: System, h: nat, hash: string, now: int, s': System) {
    && h !in s.handlers
    && var (states, result) := ConsumeState(s.store.upstreamStates, hash, now);
    match result
    case Ok(login) =>
      s' == s.(store := s.store.(upstreamStates := states), handlers := s.handlers[h := Callback(login)],
               consumedStates := s.consumedStates + {hash})
    case Err(_) => s' == s
  }

  /** The identity provider has answered with a user. */
  ghost predicate IssueCodeAction(env: Environment, s: System, h: nat, user: UserProfile, hash: string, now: int,
      s': System) {
    && h in s.handlers && s.handlers[h].Callback? && hash !in s.codes
    && var record := s.handlers[h].login;
    var codes := CreateCode(s.store.authorizationCodes, hash, CodeInputOf(record, user, env.codeTtl), now);
    s' == s.(store := s.store.(authorizationCodes := codes),
             handlers := s.handlers - {h},
             codes := s.codes[hash := Origin(record.stateHash, user, now)])
  }

  /** The provider reported an error, or the exchange failed. */
  ghost predicate AbandonLoginAction(s: System, h: nat, s': System) {
    h in s.handlers && s.handlers[h].Callback? && s' == s.(handlers := s.handlers - {h})
  }

  ghost predicate RedeemCodeAction(env: Environment, s: System, h: nat, clientId: string, form: TokenForm, now: int,
      s': System) {
    && h !in s.handlers && clientId in env.registry && now > 0
    && var client := env.registry[clientId];
    match ResolveResource(env.canonical, client, form.resource)
    case None => s' == s
    case Some(resource) =>
      var expected := Expectation(client.clientId, form.redirectUri, Some(resource), Some(client.allowedResources),
          Some(client.allowedScopes));
      var (codes, result) := ConsumeCode(env.digest, s.store.authorizationCodes, form.secretHash, form.verifier,
          expected, now);
      match result
      case Ok(code) =>
        s' == s.(store := s.store.(authorizationCodes := codes),
                 handlers := s.handlers[h := CodeGrant(client.clientId, code, resource)],
                 consumedCodes := s.consumedCodes + {form.secretHash})
      case Err(_) => s' == s
  }

  ghost predicate IssueTokensAction(env: Environment, s: System, h: nat, hash: string, familyId: string, now: int,
      s': System) {
    && h in s.handlers && s.handlers[h].CodeGrant? && hash !in s.store.refreshTokens && familyId !in s.families
    && var CodeGrant(clientId, record, resource) := s.handlers[h];
    && var grant := Grant(clientId, record.user, resource, record.scopes, record.authTime);
    s' == s.(store := s.store.(refreshTokens :=
                 Create(s.store.refreshTokens, hash, familyId, grant, env.refreshTtl, now)),
             handlers := s.handlers - {h},
             families := s.families[familyId := record.codeHash],
             responses := s.responses + [Response(grant, record.nonce, familyId)])
  }

  ghost predicate RefreshAction(env: Environment, s: System, clientId: string, form: TokenForm, newHash: string,
      now: int, s': System) {
    && clientId in env.registry && newHash !in s.store.refreshTokens && now > 0
    && var client := env.registry[clientId];
    match ResolveResource(env.canonical, client, form.resource)
    case None => s' == s
    case Some(resource) =>
      var rotation := RotateRequest(form.secretHash, client.clientId, env.refreshTtl, Some(resource),
          Some(client.allowedResources));
      var (tokens, outcome) := Rotate(s.store.refreshTokens, rotation, now, newHash);
      var store := s.store.(refreshTokens := tokens);
      match outcome
      case Rotated(parent) =>
        s' == s.(store := store, responses := s.responses + [Response(
          Grant(client.clientId, parent.user, parent.resource, parent.scopes, parent.authTime), None, parent.familyId)])
      case _ => s' == s.(store := store)
  }

  ghost predicate Next(env: Environment, s: System, step: Step, s': System) {
    match step
    case Authorize(request, hash, codeVerifier, upstreamNonce, now) =>
        AuthorizeAction(env, s, request, hash, codeVerifier, upstreamNonce, now, s')
    case ConsumeLogin(h, hash, now) => ConsumeLoginAction(env, s, h, hash, now, s')
    case IssueCode(h, user, hash, now) => IssueCodeAction(env, s, h, user, hash, now, s')
    case AbandonLogin(h) => AbandonLoginAction(s, h, s')
    case RedeemCode(h, clientId, form, now) => RedeemCodeAction(env, s, h, clientId, form, now, s')
    case IssueTokens(h, hash, familyId, now) => IssueTokensAction(env, s, h, hash, familyId, now, s')
    case Refresh(clientId, form, newHash, now) => RefreshAction(env, s, clientId, form, newHash, now, s')
  }

  ghost predicate Init(s: System) {
    s == System(EMPTY_STORE, map[], map[], map[], map[], {}, {}, [])
  }

  ghost predicate StepAt(env: Environment, states: seq<System>, steps: seq<Step>, i: nat)
    requires |states| == |steps| + 1 && i < |steps|
  {
    Next(env, states[i], steps[i], states[i + 1])
  }

  ghost predicate IsRun(env: Environment, states: seq<System>, steps: seq<Step>) {
    && |states| == |steps| + 1 && Init(states[0]) && RegistryValid(env.registry)
    && forall i: nat | i < |steps| :: StepAt(env, states, steps, i)
  }
}
