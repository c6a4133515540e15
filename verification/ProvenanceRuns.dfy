/** Where every token response comes from: the invariant behind the handlers and its consequences. */
module ProvenanceRuns {
  import opened Wrappers
  import opened StoreRecords
  import opened Authorization
  import opened Provenance
  import AuthorizationCodes
  import RefreshTokens

  type Authorized = map<string, ValidatedAuthorization>
  type Origins = map<string, Origin>
  type Handlers = map<nat, Handler>

  ghost predicate Grows<T>(before: map<string, T>, after: map<string, T>) {
    forall k | k in before :: k in after && after[k] == before[k]
  }

  // ----- login states -----

  /** The record of a login state carries the authorization it was created for. */
  predicate StateCarries(record: UpstreamStateRecord, hash: string, v: ValidatedAuthorization) {
    && record.stateHash == hash && record.clientId == v.clientId && record.redirectUri == v.redirectUri
    && record.resource == v.resource && record.scopes == v.scopes && record.clientState == v.clientState
    && record.nonce == AuthorizationCodes.Kept(v.nonce)
    && record.codeChallenge == AuthorizationCodes.Kept(v.codeChallenge)
    && record.codeChallengeMethod == AuthorizationCodes.Kept(v.codeChallengeMethod)
  }

  predicate IsAllowed(registry: Registry, v: ValidatedAuthorization) {
    Allowed(registry, v.clientId, v.redirectUri, v.resource, v.scopes, v.codeChallenge)
  }

  ghost predicate LoginsTracked(registry: Registry, authorized: Authorized, states: AuthorizationCodes.States,
      consumed: set<string>) {
    && (forall h | h in authorized :: IsAllowed(registry, authorized[h]))
    && (forall h | h in states :: h in authorized && StateCarries(states[h], h, authorized[h]) && h !in consumed)
    && (forall h | h in consumed :: h in authorized)
  }

  ghost predicate LoginCarried(authorized: Authorized, consumed: set<string>, login: UpstreamStateRecord) {
    && login.stateHash in consumed && login.stateHash in authorized
    && StateCarries(login, login.stateHash, authorized[login.stateHash])
  }

  predicate IsCallback(handlers: Handlers, i: nat) {
    i in handlers && handlers[i].Callback?
  }

  /** A callback holds a consumed state that no other handler holds and no code answers yet. */
  ghost predicate CallbacksTracked(handlers: Handlers, authorized: Authorized, codes: Origins, consumed: set<string>) {
    && (forall i | IsCallback(handlers, i) :: LoginCarried(authorized, consumed, handlers[i].login))
    && (forall i, j | IsCallback(handlers, i) && IsCallback(handlers, j) && i != j ::
        handlers[i].login.stateHash != handlers[j].login.stateHash)
    && (forall i, c | IsCallback(handlers, i) && c in codes :: codes[c].stateHash != handlers[i].login.stateHash)
  }

  // ----- codes -----

  /** The record of a code carries the authorization behind it, and its own user and time. */
  predicate CodeCarries(authorized: Authorized, codes: Origins, record: AuthorizationCodeRecord) {
    && record.codeHash in codes && codes[record.codeHash].stateHash in authorized
    && var origin := codes[record.codeHash];
    && var v := authorized[origin.stateHash];
    && record.clientId == v.clientId && record.redirectUri == v.redirectUri && record.resource == v.resource
    && record.scopes == v.scopes
    && record.nonce == AuthorizationCodes.Kept(v.nonce)
    && record.codeChallenge == AuthorizationCodes.Kept(v.codeChallenge)
    && record.codeChallengeMethod == AuthorizationCodes.Kept(v.codeChallengeMethod)
    && record.user == origin.user && record.authTime == origin.authTime
  }

  ghost predicate CodesTracked(authorized: Authorized, codes: Origins, records: AuthorizationCodes.Codes,
      consumedStates: set<string>, consumedCodes: set<string>) {
    && (forall c | c in codes :: codes[c].stateHash in consumedStates)
    && (forall c, d | c in codes && d in codes && c != d :: codes[c].stateHash != codes[d].stateHash)
    && (forall c | c in records :: records[c].codeHash == c && CodeCarries(authorized, codes, records[c]))
    && (forall c | c in consumedCodes :: c in codes && c in records && IsSet(records[c].consumedAt))
  }

  predicate IsGrant(handlers: Handlers, i: nat) {
    i in handlers && handlers[i].CodeGrant?
  }

  ghost predicate GrantCarried(authorized: Authorized, codes: Origins, consumed: set<string>, handler: Handler)
    requires handler.CodeGrant?
  {
    && handler.code.codeHash in consumed && CodeCarries(authorized, codes, handler.code)
    && handler.clientId == handler.code.clientId && handler.resource == handler.code.resource
  }

  /** A code grant in flight holds a consumed code that no other one holds and no family comes from yet. */
  ghost predicate GrantsTracked(handlers: Handlers, authorized: Authorized, codes: Origins, consumed: set<string>,
      families: map<string, string>) {
    && (forall i | IsGrant(handlers, i) :: GrantCarried(authorized, codes, consumed, handlers[i]))
    && (forall i, j | IsGrant(handlers, i) && IsGrant(handlers, j) && i != j ::
        handlers[i].code.codeHash != handlers[j].code.codeHash)
    && (forall i, f | IsGrant(handlers, i) && f in families :: families[f] != handlers[i].code.codeHash)
  }

  // ----- families and responses -----

  /** What the authorization behind a code entitles to. */
  predicate Entitled(authorized: Authorized, codes: Origins, code: string, grant: RefreshTokens.Grant) {
    && code in codes && codes[code].stateHash in authorized
    && var v := authorized[codes[code].stateHash];
    grant == RefreshTokens.Grant(v.clientId, codes[code].user, v.resource, v.scopes, codes[code].authTime)
  }

  /** The nonce of an ID token, if there is one, is the one of the authorization request. */
  predicate NonceCarried(authorized: Authorized, codes: Origins, code: string, nonce: Option<string>)
    requires code in codes && codes[code].stateHash in authorized
  {
    nonce.Some? ==> nonce == AuthorizationCodes.Kept(authorized[codes[code].stateHash].nonce)
  }

  ghost predicate FamiliesTracked(families: map<string, string>, consumed: set<string>) {
    && (forall f | f in families :: families[f] in consumed)
    && (forall f, g | f in families && g in families && f != g :: families[f] != families[g])
  }

  ghost predicate TokensTracked(authorized: Authorized, codes: Origins, families: map<string, string>,
      tokens: RefreshTokens.Tokens) {
    forall t | t in tokens ::
      tokens[t].familyId in families && Entitled(authorized, codes, families[tokens[t].familyId],
          RefreshTokens.GrantOf(tokens[t]))
  }

  ghost predicate ResponsesTracked(authorized: Authorized, codes: Origins, families: map<string, string>,
      responses: seq<Response>) {
    forall r | r in responses ::
      && r.familyId in families && Entitled(authorized, codes, families[r.familyId], r.grant)
      && NonceCarried(authorized, codes, families[r.familyId], r.nonce)
  }

  /** Everything but the login states, which does not look at states that were not consumed. */
  ghost predicate OthersTracked(s: System, authorized: Authorized) {
    && CallbacksTracked(s.handlers, authorized, s.codes, s.consumedStates)
    && CodesTracked(authorized, s.codes, s.store.authorizationCodes, s.consumedStates, s.consumedCodes)
    && GrantsTracked(s.handlers, authorized, s.codes, s.consumedCodes, s.families)
    && FamiliesTracked(s.families, s.consumedCodes)
    && TokensTracked(authorized, s.codes, s.families, s.store.refreshTokens)
    && ResponsesTracked(authorized, s.codes, s.families, s.responses)
  }

  ghost predicate Inv(env: Environment, s: System) {
    && LoginsTracked(env.registry, s.authorized, s.store.upstreamStates, s.consumedStates)
    && OthersTracked(s, s.authorized)
  }

  // ----- history only grows -----

  lemma GrowingKeepsTokens(authorized: Authorized, codes: Origins, families: map<string, string>,
      tokens: RefreshTokens.Tokens, authorized': Authorized, codes': Origins, families': map<string, string>)
    requires TokensTracked(authorized, codes, families, tokens)
    requires Grows(authorized, authorized') && Grows(codes, codes') && Grows(families, families')
    ensures TokensTracked(authorized', codes', families', tokens)
  {
  }

  lemma GrowingKeepsResponses(authorized: Authorized, codes: Origins,
      families: map<string, string>, responses: seq<Response>, authorized': Authorized, codes': Origins,
      families': map<string, string>)
    requires ResponsesTracked(authorized, codes, families, responses)
    requires Grows(authorized, authorized') && Grows(codes, codes') && Grows(families, families')
    ensures ResponsesTracked(authorized', codes', families', responses)
  {
  }

  lemma GrowingKeepsGrants(handlers: Handlers, authorized: Authorized, codes: Origins,
      consumed: set<string>, families: map<string, string>, handlers': Handlers, authorized': Authorized,
      codes': Origins, consumed': set<string>)
    requires GrantsTracked(handlers, authorized, codes, consumed, families)
    requires Grows(authorized, authorized') && Grows(codes, codes') && consumed <= consumed'
    requires forall i | IsGrant(handlers', i) :: i in handlers && handlers[i] == handlers'[i]
    ensures GrantsTracked(handlers', authorized', codes', consumed', families)
  {
  }

  lemma GrowingKeepsCallbacks(handlers: Handlers, authorized: Authorized, codes: Origins,
      consumed: set<string>, handlers': Handlers, authorized': Authorized, consumed': set<string>)
    requires CallbacksTracked(handlers, authorized, codes, consumed)
    requires Grows(authorized, authorized') && consumed <= consumed'
    requires forall i | IsCallback(handlers', i) :: i in handlers && handlers[i] == handlers'[i]
    ensures CallbacksTracked(handlers', authorized', codes, consumed')
  {
  }

  lemma GrowingKeepsCodes(authorized: Authorized, codes: Origins,
      records: AuthorizationCodes.Codes, consumedStates: set<string>, consumedCodes: set<string>,
      authorized': Authorized, consumedStates': set<string>)
    requires CodesTracked(authorized, codes, records, consumedStates, consumedCodes)
    requires Grows(authorized, authorized') && consumedStates <= consumedStates'
    ensures CodesTracked(authorized', codes, records, consumedStates', consumedCodes)
  {
  }

  // ----- the steps -----

  lemma NewLogin(env: Environment, s: System, v: ValidatedAuthorization, hash: string,
      input: AuthorizationCodes.StateInput, now: int)
    requires LoginsTracked(env.registry, s.authorized, s.store.upstreamStates, s.consumedStates)
    requires hash !in s.authorized && IsAllowed(env.registry, v)
        && StateCarries(AuthorizationCodes.NewState(hash, input, now), hash, v)
    ensures LoginsTracked(env.registry, s.authorized[hash := v],
        AuthorizationCodes.CreateState(s.store.upstreamStates, hash, input, now), s.consumedStates)
  {
  }

  lemma OthersStayTracked(s: System, authorized: Authorized)
    requires OthersTracked(s, s.authorized) && Grows(s.authorized, authorized)
    ensures OthersTracked(s, authorized)
  {
  }

  lemma AuthorizeKeepsInv(env: Environment, s: System, request: AuthorizationRequest, hash: string,
      codeVerifier: string, upstreamNonce: string, now: int, s': System)
    requires RegistryValid(env.registry) && Inv(env, s) && AuthorizeAction(env, s, request, hash, codeVerifier,
        upstreamNonce, now, s')
    ensures Inv(env, s')
  {
    match Validate(env.registry, env.canonical, request) {
      case None =>
      case Some(v) =>
        ValidatedIsAllowed(env.registry, env.canonical, request);
        NewLogin(env, s, v, hash, StateInputOf(v, codeVerifier, upstreamNonce, env.codeTtl), now);
        OthersStayTracked(s, s'.authorized);
    }
  }

  lemma ConsumedLogin(registry: Registry, authorized: Authorized,
      states: AuthorizationCodes.States, consumed: set<string>, hash: string, now: int)
    requires LoginsTracked(registry, authorized, states, consumed)
        && AuthorizationCodes.ConsumeState(states, hash, now).1.Ok?
    ensures var (after, result) := AuthorizationCodes.ConsumeState(states, hash, now);
            && LoginsTracked(registry, authorized, after, consumed + {hash}) && hash !in consumed
            && result.value.stateHash == hash && LoginCarried(authorized, consumed + {hash}, result.value)
  {
  }

  lemma NewCallback(handlers: Handlers, authorized: Authorized, codes: Origins,
      consumed: set<string>, h: nat, login: UpstreamStateRecord)
    requires CallbacksTracked(handlers, authorized, codes, consumed) && h !in handlers
    requires login.stateHash !in consumed && LoginCarried(authorized, consumed + {login.stateHash}, login)
    requires forall c | c in codes :: codes[c].stateHash in consumed
    ensures CallbacksTracked(handlers[h := Callback(login)], authorized, codes, consumed + {login.stateHash})
  {
  }

  lemma ConsumeLoginKeepsInv(env: Environment, s: System, h: nat, hash: string, now: int, s': System)
    requires Inv(env, s) && ConsumeLoginAction(env, s, h, hash, now, s')
    ensures Inv(env, s')
  {
    var result := AuthorizationCodes.ConsumeState(s.store.upstreamStates, hash, now).1;
    if result.Ok? {
      ConsumedLogin(env.registry, s.authorized, s.store.upstreamStates, s.consumedStates, hash, now);
      NewCallback(s.handlers, s.authorized, s.codes, s.consumedStates, h, result.value);
      GrowingKeepsCodes(s.authorized, s.codes, s.store.authorizationCodes, s.consumedStates, s.consumedCodes,
          s'.authorized, s'.consumedStates);
      GrowingKeepsGrants(s.handlers, s.authorized, s.codes, s.consumedCodes, s.families, s'.handlers, s'.authorized,
          s'.codes, s'.consumedCodes);
    }
  }

  lemma NewCode(s: System, h: nat, user: UserProfile, hash: string, now: int, ttlSeconds: int)
    requires CallbacksTracked(s.handlers, s.authorized, s.codes, s.consumedStates)
    requires CodesTracked(s.authorized, s.codes, s.store.authorizationCodes, s.consumedStates, s.consumedCodes)
    requires IsCallback(s.handlers, h) && hash !in s.codes
    ensures var login := s.handlers[h].login;
            var codes := s.codes[hash := Origin(login.stateHash, user, now)];
            CodesTracked(s.authorized, codes,
                         AuthorizationCodes.CreateCode(s.store.authorizationCodes, hash,
                             CodeInputOf(login, user, ttlSeconds), now),
                         s.consumedStates, s.consumedCodes)
  {
    var login := s.handlers[h].login;
    assert LoginCarried(s.authorized, s.consumedStates, login);
    var codes := s.codes[hash := Origin(login.stateHash, user, now)];
    var records := AuthorizationCodes.CreateCode(s.store.authorizationCodes, hash,
        CodeInputOf(login, user, ttlSeconds), now);
    forall c | c in records ensures records[c].codeHash == c && CodeCarries(s.authorized, codes, records[c]) {
      if c != hash {
        assert CodeCarries(s.authorized, s.codes, s.store.authorizationCodes[c]);
      }
    }
  }

  lemma AnsweredCallback(handlers: Handlers, authorized: Authorized, codes: Origins,
      consumed: set<string>, h: nat, hash: string, origin: Origin)
    requires CallbacksTracked(handlers, authorized, codes, consumed) && IsCallback(handlers, h)
        && origin.stateHash == handlers[h].login.stateHash
    ensures CallbacksTracked(handlers - {h}, authorized, codes[hash := origin], consumed)
  {
  }

  lemma IssueCodeKeepsInv(env: Environment, s: System, h: nat, user: UserProfile, hash: string,
      now: int, s': System)
    requires Inv(env, s) && IssueCodeAction(env, s, h, user, hash, now, s')
    ensures Inv(env, s')
  {
    assert IsCallback(s.handlers, h) && Grows(s.codes, s'.codes);
    NewCode(s, h, user, hash, now, env.codeTtl);
    AnsweredCallback(s.handlers, s.authorized, s.codes, s.consumedStates, h, hash,
        Origin(s.handlers[h].login.stateHash, user, now));
    GrowingKeepsGrants(s.handlers, s.authorized, s.codes, s.consumedCodes, s.families, s'.handlers, s'.authorized,
        s'.codes, s'.consumedCodes);
    GrowingKeepsTokens(s.authorized, s.codes, s.families, s.store.refreshTokens, s'.authorized, s'.codes, s'.families);
    GrowingKeepsResponses(s.authorized, s.codes, s.families, s.responses, s'.authorized, s'.codes, s'.families);
  }

  lemma AbandonKeepsInv(env: Environment, s: System, h: nat, s': System)
    requires Inv(env, s) && AbandonLoginAction(s, h, s')
    ensures Inv(env, s')
  {
    GrowingKeepsCallbacks(s.handlers, s.authorized, s.codes, s.consumedStates, s'.handlers, s'.authorized,
        s'.consumedStates);
    GrowingKeepsGrants(s.handlers, s.authorized, s.codes, s.consumedCodes, s.families, s'.handlers, s'.authorized,
        s'.codes, s'.consumedCodes);
  }

  lemma ConsumedCode(s: System, digest: string -> string, hash: string, verifier: Option<string>,
      expected: AuthorizationCodes.Expectation, now: int)
    requires CodesTracked(s.authorized, s.codes, s.store.authorizationCodes, s.consumedStates, s.consumedCodes)
        && now > 0
    requires AuthorizationCodes.ConsumeCode(digest, s.store.authorizationCodes, hash, verifier, expected, now).1.Ok?
    ensures var (after, result) :=
              AuthorizationCodes.ConsumeCode(digest, s.store.authorizationCodes, hash, verifier, expected, now);
            && CodesTracked(s.authorized, s.codes, after, s.consumedStates, s.consumedCodes + {hash})
            && hash !in s.consumedCodes
            && result.value.codeHash == hash && CodeCarries(s.authorized, s.codes, result.value)
            && result.value.clientId == expected.clientId && (expected.resource.Some?
                ==> result.value.resource == expected.resource.value)
  {
    var records := s.store.authorizationCodes;
    var after := AuthorizationCodes.ConsumeCode(digest, records, hash, verifier, expected, now).0;
    forall c | c in after ensures after[c].codeHash == c && CodeCarries(s.authorized, s.codes, after[c]) {
      assert CodeCarries(s.authorized, s.codes, records[c]);
    }
  }

  lemma NewGrant(handlers: Handlers, authorized: Authorized, codes: Origins, consumed: set<string>,
      families: map<string, string>, h: nat, handler: Handler)
    requires GrantsTracked(handlers, authorized, codes, consumed, families) && h !in handlers && handler.CodeGrant?
    requires handler.code.codeHash !in consumed && GrantCarried(authorized, codes, consumed + {handler.code.codeHash},
        handler)
    requires forall f | f in families :: families[f] in consumed
    ensures GrantsTracked(handlers[h := handler], authorized, codes, consumed + {handler.code.codeHash}, families)
  {
  }

  lemma RedeemCodeKeepsInv(env: Environment, s: System, h: nat, clientId: string, form: TokenForm,
      now: int, s': System)
    requires Inv(env, s) && RedeemCodeAction(env, s, h, clientId, form, now, s')
    ensures Inv(env, s')
  {
    var client := env.registry[clientId];
    match ResolveResource(env.canonical, client, form.resource) {
      case None =>
      case Some(resource) =>
        var expected := AuthorizationCodes.Expectation(client.clientId, form.redirectUri, Some(resource),
            Some(client.allowedResources), Some(client.allowedScopes));
        var result := AuthorizationCodes.ConsumeCode(env.digest, s.store.authorizationCodes, form.secretHash,
            form.verifier, expected, now).1;
        if result.Ok? {
          ConsumedCode(s, env.digest, form.secretHash, form.verifier, expected, now);
          NewGrant(s.handlers, s.authorized, s.codes, s.consumedCodes, s.families, h,
              CodeGrant(client.clientId, result.value, resource));
          GrowingKeepsCallbacks(s.handlers, s.authorized, s.codes, s.consumedStates, s'.handlers, s'.authorized,
              s'.consumedStates);
        }
    }
  }

  lemma NewFamily(s: System, h: nat, familyId: string)
    requires GrantsTracked(s.handlers, s.authorized, s.codes, s.consumedCodes, s.families)
    requires FamiliesTracked(s.families, s.consumedCodes)
    requires IsGrant(s.handlers, h) && familyId !in s.families
    ensures var families := s.families[familyId := s.handlers[h].code.codeHash];
            && GrantsTracked(s.handlers - {h}, s.authorized, s.codes, s.consumedCodes, families)
            && FamiliesTracked(families, s.consumedCodes)
            && GrantCarried(s.authorized, s.codes, s.consumedCodes, s.handlers[h])
  {
  }

  lemma IssueTokensKeepsInv(env: Environment, s: System, h: nat, hash: string, familyId: string,
      now: int, s': System)
    requires Inv(env, s) && IssueTokensAction(env, s, h, hash, familyId, now, s')
    ensures Inv(env, s')
  {
    assert IsGrant(s.handlers, h) && Grows(s.families, s'.families);
    NewFamily(s, h, familyId);
    GrowingKeepsCallbacks(s.handlers, s.authorized, s.codes, s.consumedStates, s'.handlers, s'.authorized,
        s'.consumedStates);
    var CodeGrant(clientId, record, resource) := s.handlers[h];
    NewTokens(s, s'.families, familyId,
        RefreshTokens.Grant(clientId, record.user, resource, record.scopes, record.authTime), record.nonce, hash,
        env.refreshTtl, now);
  }

  lemma NewTokens(s: System, families: map<string, string>, familyId: string,
      grant: RefreshTokens.Grant, nonce: Option<string>, hash: string, ttlSeconds: int, now: int)
    requires TokensTracked(s.authorized, s.codes, s.families, s.store.refreshTokens)
    requires ResponsesTracked(s.authorized, s.codes, s.families, s.responses)
    requires Grows(s.families, families) && familyId in families
        && Entitled(s.authorized, s.codes, families[familyId], grant)
        && NonceCarried(s.authorized, s.codes, families[familyId], nonce)
    ensures TokensTracked(s.authorized, s.codes, families, RefreshTokens.Create(s.store.refreshTokens, hash, familyId,
        grant, ttlSeconds, now))
    ensures ResponsesTracked(s.authorized, s.codes, families, s.responses + [Response(grant, nonce, familyId)])
  {
  }

  lemma RotatedTokens(s: System, request: RefreshTokens.RotateRequest, now: int, newHash: string)
    requires TokensTracked(s.authorized, s.codes, s.families, s.store.refreshTokens)
    ensures var (tokens, outcome) := RefreshTokens.Rotate(s.store.refreshTokens, request, now, newHash);
            && TokensTracked(s.authorized, s.codes, s.families, tokens)
            && (outcome.Rotated? ==>
                  && outcome.oldRecord.clientId == request.clientId && outcome.oldRecord.familyId in s.families
                  && Entitled(s.authorized, s.codes, s.families[outcome.oldRecord.familyId],
                      RefreshTokens.GrantOf(outcome.oldRecord)))
  {
  }

  lemma NewRefresh(s: System, request: RefreshTokens.RotateRequest, now: int, newHash: string)
    requires TokensTracked(s.authorized, s.codes, s.families, s.store.refreshTokens)
    requires ResponsesTracked(s.authorized, s.codes, s.families, s.responses)
    ensures var (tokens, outcome) := RefreshTokens.Rotate(s.store.refreshTokens, request, now, newHash);
            && TokensTracked(s.authorized, s.codes, s.families, tokens)
            && (outcome.Rotated? ==>
                  var parent := outcome.oldRecord;
                  var grant := RefreshTokens.Grant(request.clientId, parent.user, parent.resource, parent.scopes,
                      parent.authTime);
                  ResponsesTracked(s.authorized, s.codes, s.families,
                      s.responses + [Response(grant, None, parent.familyId)]))
  {
  }

  lemma RefreshKeepsInv(env: Environment, s: System, clientId: string, form: TokenForm,
      newHash: string, now: int, s': System)
    requires Inv(env, s) && RefreshAction(env, s, clientId, form, newHash, now, s')
    ensures Inv(env, s')
  {
    var client := env.registry[clientId];
    match ResolveResource(env.canonical, client, form.resource) {
      case None =>
      case Some(resource) =>
        NewRefresh(s, RefreshTokens.RotateRequest(form.secretHash, client.clientId, env.refreshTtl, Some(resource),
            Some(client.allowedResources)), now, newHash);
    }
  }

  lemma NextKeepsInv(env: Environment, s: System, step: Step, s': System)
    requires RegistryValid(env.registry) && Inv(env, s) && Next(env, s, step, s')
    ensures Inv(env, s')
  {
    match step {
      case Authorize(request, hash, codeVerifier, upstreamNonce, now) =>
          AuthorizeKeepsInv(env, s, request, hash, codeVerifier, upstreamNonce, now, s');
      case ConsumeLogin(h, hash, now) => ConsumeLoginKeepsInv(env, s, h, hash, now, s');
      case IssueCode(h, user, hash, now) => IssueCodeKeepsInv(env, s, h, user, hash, now, s');
      case AbandonLogin(h) => AbandonKeepsInv(env, s, h, s');
      case RedeemCode(h, clientId, form, now) => RedeemCodeKeepsInv(env, s, h, clientId, form, now, s');
      case IssueTokens(h, hash, familyId, now) => IssueTokensKeepsInv(env, s, h, hash, familyId, now, s');
      case Refresh(clientId, form, newHash, now) => RefreshKeepsInv(env, s, clientId, form, newHash, now, s');
    }
  }

  lemma {:induction false} RunKeepsInv(env: Environment, states: seq<System>, steps: seq<Step>, i: nat)
    requires IsRun(env, states, steps) && i <= |steps|
    ensures Inv(env, states[i])
  {
    if i > 0 {
      RunKeepsInv(env, states, steps, i - 1);
      assert StepAt(env, states, steps, i - 1);
      NextKeepsInv(env, states[i - 1], steps[i - 1], states[i]);
    }
  }

  // ----- results -----

  /** Every token response traces back to a consumed code and a consumed login state; it carries the
      client, the resource and the scopes fixed at authorization with the user and the time of the
      login, and stays within what the client is registered for. */
  lemma ResponseTracesBack(env: Environment, states: seq<System>, steps: seq<Step>, i: nat,
      r: Response)
    requires IsRun(env, states, steps) && i <= |steps| && r in states[i].responses
    ensures var s := states[i];
            && r.familyId in s.families
            && var code := s.families[r.familyId];
            && code in s.consumedCodes && code in s.codes
            && var origin := s.codes[code];
            && origin.stateHash in s.consumedStates && origin.stateHash in s.authorized
            && var v := s.authorized[origin.stateHash];
            && r.grant == RefreshTokens.Grant(v.clientId, origin.user, v.resource, v.scopes, origin.authTime)
            && (r.nonce.Some? ==> r.nonce == AuthorizationCodes.Kept(v.nonce))
            && IsAllowed(env.registry, v)
  {
    RunKeepsInv(env, states, steps, i);
  }

  lemma CodeAuthorization(env: Environment, s: System, hash: string)
    requires Inv(env, s) && hash in s.store.authorizationCodes
    ensures CodeCarries(s.authorized, s.codes, s.store.authorizationCodes[hash])
        && s.store.authorizationCodes[hash].codeHash == hash
    ensures IsAllowed(env.registry, s.authorized[s.codes[hash].stateHash])
  {
  }

  /** A code is redeemed only with the client, the redirect, the resource and the challenge of the
      authorization behind it; a client that must use PKCE has proved possession of the verifier. */
  lemma RedemptionMatchesAuthorization(env: Environment, states: seq<System>, steps: seq<Step>,
      i: nat, h: nat, clientId: string, form: TokenForm, now: int)
    requires IsRun(env, states, steps) && i < |steps| && steps[i] == RedeemCode(h, clientId, form, now)
        && h in states[i + 1].handlers
    ensures var s := states[i];
            && form.secretHash in s.codes && s.codes[form.secretHash].stateHash in s.authorized
            && var v := s.authorized[s.codes[form.secretHash].stateHash];
            && clientId == v.clientId && form.redirectUri == v.redirectUri && clientId in env.registry
            && ResolveResource(env.canonical, env.registry[clientId], form.resource) == Some(v.resource)
            && AuthorizationCodes.VerifierMatches(env.digest, v.codeChallenge, form.verifier)
            && (env.registry[clientId].pkceRequired ==>
                  IsFilled(v.codeChallenge) && form.verifier.Some?
                      && env.digest(form.verifier.value) == v.codeChallenge.value)
  {
    RunKeepsInv(env, states, steps, i);
    assert StepAt(env, states, steps, i);
    CodeAuthorization(env, states[i], form.secretHash);
  }

  /** The code and the login state behind a response belong to its family alone. */
  lemma FamiliesDoNotShareOrigins(env: Environment, states: seq<System>, steps: seq<Step>, i: nat,
      f: string, g: string)
    requires IsRun(env, states, steps) && i <= |steps|
    requires f in states[i].families && g in states[i].families && f != g
    ensures var s := states[i];
            && s.families[f] in s.codes && s.families[g] in s.codes && s.families[f] != s.families[g]
            && s.codes[s.families[f]].stateHash != s.codes[s.families[g]].stateHash
  {
    RunKeepsInv(env, states, steps, i);
  }

  /** Refreshing never changes what a family is entitled to. */
  lemma FamilyResponsesAgree(env: Environment, states: seq<System>, steps: seq<Step>, i: nat,
      q: Response, r: Response)
    requires IsRun(env, states, steps) && i <= |steps| && q in states[i].responses && r in states[i].responses
        && q.familyId == r.familyId
    ensures q.grant == r.grant
  {
    RunKeepsInv(env, states, steps, i);
  }
}
