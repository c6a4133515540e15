/** What each handler answers, on the fields of the records it finds, and that an honest client is
    served from its authorization request to the refreshed tokens. */
module GrantRuns {
  import opened Wrappers
  import opened StoreRecords
  import opened Authorization
  import opened Provenance
  import opened ProvenanceRuns
  import AuthorizationCodes
  import RefreshTokens

  // ----- the answers -----

  /** An authorization request gets a login state exactly when it is valid. */
  lemma AuthorizesIff(env: Environment, states: seq<System>, steps: seq<Step>, i: nat, request: AuthorizationRequest,
      hash: string, codeVerifier: string, upstreamNonce: string, now: int)
    requires IsRun(env, states, steps) && i < |steps|
    requires steps[i] == Authorize(request, hash, codeVerifier, upstreamNonce, now)
    ensures var v, after := Validate(env.registry, env.canonical, request), states[i + 1];
            && (hash in after.authorized <==> v.Some?)
            && (v.None? ==> after == states[i])
            && (v.Some? ==>
                  && after.authorized[hash] == v.value && hash in after.store.upstreamStates
                  && StateCarries(after.store.upstreamStates[hash], hash, v.value)
                  && after.store.upstreamStates[hash].expiresAt == now + env.codeTtl)
  {
    assert StepAt(env, states, steps, i);
  }

  /** A callback goes on exactly when its login state is stored and unexpired, and then that state is gone. */
  lemma LogsInIff(env: Environment, states: seq<System>, steps: seq<Step>, i: nat, h: nat, hash: string, now: int)
    requires IsRun(env, states, steps) && i < |steps| && steps[i] == ConsumeLogin(h, hash, now)
    ensures var before, after := states[i].store.upstreamStates, states[i + 1];
            && (h in after.handlers <==> hash in before && before[hash].expiresAt > now)
            && (h in after.handlers ==>
                  after.handlers[h] == Callback(before[hash]) && hash !in after.store.upstreamStates)
            && (h !in after.handlers ==> after == states[i])
  {
    assert StepAt(env, states, steps, i);
    AuthorizationCodes.StateConsumesIff(states[i].store.upstreamStates, hash, now);
  }

  /** A code is redeemed exactly when it is stored, unconsumed and unexpired, its client presents it with
      its redirect, for its resource and with its verifier, and all its scopes are still allowed. */
  lemma RedeemsIff(env: Environment, states: seq<System>, steps: seq<Step>, i: nat, h: nat, clientId: string,
      form: TokenForm, now: int)
    requires IsRun(env, states, steps) && i < |steps| && steps[i] == RedeemCode(h, clientId, form, now)
    ensures clientId in env.registry
    ensures h in states[i + 1].handlers <==>
            && form.secretHash in states[i].store.authorizationCodes
            && var code, client := states[i].store.authorizationCodes[form.secretHash], env.registry[clientId];
            && (code.consumedAt == None || code.consumedAt == Some(0)) && code.expiresAt > now
            && code.clientId == clientId && code.redirectUri == form.redirectUri
            && ResolveResource(env.canonical, client, form.resource) == Some(code.resource)
            && (forall scope | scope in code.scopes :: scope in client.allowedScopes)
            && (code.codeChallenge.Some? && code.codeChallenge.value != "" ==>
                  AuthorizationCodes.Proves(env.digest, form.verifier, code.codeChallenge.value))
  {
    assert StepAt(env, states, steps, i);
    var client := env.registry[clientId];
    var resource := ResolveResource(env.canonical, client, form.resource);
    if resource.Some? {
      ResolvedIsAllowedAndStable(env.canonical, client, form.resource);
      AuthorizationCodes.ConsumesIff(env.digest, states[i].store.authorizationCodes, form.secretHash, form.verifier,
          AuthorizationCodes.Expectation(client.clientId, form.redirectUri, resource, Some(client.allowedResources),
              Some(client.allowedScopes)), now);
    }
  }

  /** A redeemed code is always answered: with what the authorization entitles to, its nonce, and the
      first token of a new family. */
  lemma CodeGrantResponds(env: Environment, states: seq<System>, steps: seq<Step>, i: nat, h: nat, hash: string,
      familyId: string, now: int)
    requires IsRun(env, states, steps) && i < |steps| && steps[i] == IssueTokens(h, hash, familyId, now)
    ensures h in states[i].handlers && states[i].handlers[h].CodeGrant?
    ensures var before, after, code := states[i], states[i + 1], states[i].handlers[h].code.codeHash;
            && code in before.codes && before.codes[code].stateHash in before.authorized
            && var origin := before.codes[code];
            && var v := before.authorized[origin.stateHash];
            && var grant := RefreshTokens.Grant(v.clientId, origin.user, v.resource, v.scopes, origin.authTime);
            && after.responses == before.responses +
               [Response(grant, if v.nonce == Some("") then None else v.nonce, familyId)]
            && familyId in after.families && after.families[familyId] == code
            && hash in after.store.refreshTokens
            && var token := after.store.refreshTokens[hash];
            && RefreshTokens.GrantOf(token) == grant && token.familyId == familyId
            && token.expiresAt == now + env.refreshTtl && token.revokedAt == None
  {
    RunKeepsInv(env, states, steps, i);
    assert StepAt(env, states, steps, i);
    assert IsGrant(states[i].handlers, h);
  }

  /** A refresh is answered exactly when the token is stored, unrevoked, unexpired and unrotated, and its
      client presents it for its own resource; the answer carries what the token carries and no nonce. */
  lemma RefreshRespondsIff(env: Environment, states: seq<System>, steps: seq<Step>, i: nat, clientId: string,
      form: TokenForm, newHash: string, now: int)
    requires IsRun(env, states, steps) && i < |steps| && steps[i] == Refresh(clientId, form, newHash, now)
    ensures clientId in env.registry
    ensures var tokens, before, after := states[i].store.refreshTokens, states[i].responses, states[i + 1].responses;
            && (after != before <==>
                  && form.secretHash in tokens
                  && var token := tokens[form.secretHash];
                  && (token.revokedAt == None || token.revokedAt == Some(0)) && token.expiresAt > now
                  && token.clientId == clientId
                  && ResolveResource(env.canonical, env.registry[clientId], form.resource) == Some(token.resource)
                  && forall k | k in tokens :: tokens[k].rotatedFromHash != Some(form.secretHash))
            && (after != before ==>
                  var token := tokens[form.secretHash];
                  after == before + [Response(RefreshTokens.Grant(clientId, token.user, token.resource, token.scopes,
                      token.authTime), None, token.familyId)])
  {
    assert StepAt(env, states, steps, i);
    var client := env.registry[clientId];
    var resource := ResolveResource(env.canonical, client, form.resource);
    if resource.Some? {
      ResolvedIsAllowedAndStable(env.canonical, client, form.resource);
      RefreshTokens.RotatesIff(states[i].store.refreshTokens, RefreshTokens.RotateRequest(form.secretHash,
          client.clientId, env.refreshTtl, resource, Some(client.allowedResources)), now, newHash);
    }
  }

  // ----- an honest client -----

  function Last(states: seq<System>): System
    requires states != []
  {
    states[|states| - 1]
  }

  lemma Extend(env: Environment, states: seq<System>, steps: seq<Step>, step: Step, s': System)
    requires IsRun(env, states, steps) && Next(env, Last(states), step, s')
    ensures IsRun(env, states + [s'], steps + [step])
  {
    var longer, more := states + [s'], steps + [step];
    forall i: nat | i < |more| ensures StepAt(env, longer, more, i) {
      if i < |steps| {
        assert StepAt(env, states, steps, i);
      }
    }
  }

  /** The random values, the times and the user of one login. */
  datatype Login = Login(stateHash: string, codeVerifier: string, upstreamNonce: string, codeHash: string,
    tokenHash: string, familyId: string, nextHash: string, user: UserProfile, authorizedAt: int, returnedAt: int,
    issuedAt: int, redeemedAt: int, answeredAt: int, refreshedAt: int)

  /** Every step comes within the lifetime of what it presents. */
  predicate InTime(env: Environment, l: Login) {
    && l.returnedAt < l.authorizedAt + env.codeTtl && 0 < l.redeemedAt < l.issuedAt + env.codeTtl
    && 0 < l.refreshedAt < l.answeredAt + env.refreshTtl
  }

  /** The token request of the client that was authorized: its redirect, its resource, its verifier. */
  predicate Fits(env: Environment, v: ValidatedAuthorization, form: TokenForm) {
    && form.redirectUri == v.redirectUri && v.clientId in env.registry
    && ResolveResource(env.canonical, env.registry[v.clientId], form.resource) == Some(v.resource)
    && (v.codeChallenge.Some? && v.codeChallenge.value != "" ==>
          AuthorizationCodes.Proves(env.digest, form.verifier, v.codeChallenge.value))
  }

  /** From the authorization to the code. */
  lemma LoginGoesThrough(env: Environment, request: AuthorizationRequest, l: Login)
      returns (states: seq<System>, steps: seq<Step>)
    requires RegistryValid(env.registry) && Validate(env.registry, env.canonical, request).Some? && InTime(env, l)
    ensures IsRun(env, states, steps)
    ensures var s, v := Last(states), Validate(env.registry, env.canonical, request).value;
            && s.handlers == map[] && s.responses == [] && s.families == map[] && s.store.refreshTokens == map[]
            && s.authorized == map[l.stateHash := v]
            && s.codes == map[l.codeHash := Origin(l.stateHash, l.user, l.issuedAt)]
            && l.codeHash in s.store.authorizationCodes
            && CodeCarries(s.authorized, s.codes, s.store.authorizationCodes[l.codeHash])
            && s.store.authorizationCodes[l.codeHash].codeHash == l.codeHash
            && s.store.authorizationCodes[l.codeHash].consumedAt == None
            && s.store.authorizationCodes[l.codeHash].expiresAt == l.issuedAt + env.codeTtl
  {
    var v := Validate(env.registry, env.canonical, request).value;
    var s0 := System(EMPTY_STORE, map[], map[], map[], map[], {}, {}, []);
    var input := StateInputOf(v, l.codeVerifier, l.upstreamNonce, env.codeTtl);
    var stored := AuthorizationCodes.CreateState(map[], l.stateHash, input, l.authorizedAt);
    var s1 := s0.(store := s0.store.(upstreamStates := stored), authorized := map[l.stateHash := v]);
    AuthorizationCodes.CreatedStateConsumesIff(map[], l.stateHash, input, l.authorizedAt, l.returnedAt);
    var (left, login) := AuthorizationCodes.ConsumeState(stored, l.stateHash, l.returnedAt);
    var s2 := s1.(store := s1.store.(upstreamStates := left), handlers := map[0 := Callback(login.value)],
        consumedStates := {l.stateHash});
    var codes := AuthorizationCodes.CreateCode(map[], l.codeHash, CodeInputOf(login.value, l.user, env.codeTtl),
        l.issuedAt);
    var s3 := s2.(store := s2.store.(authorizationCodes := codes), handlers := map[],
        codes := map[l.codeHash := Origin(l.stateHash, l.user, l.issuedAt)]);
    states, steps := [s0], [];
    Extend(env, states, steps, Authorize(request, l.stateHash, l.codeVerifier, l.upstreamNonce, l.authorizedAt), s1);
    states, steps := states + [s1],
      steps + [Authorize(request, l.stateHash, l.codeVerifier, l.upstreamNonce, l.authorizedAt)];
    Extend(env, states, steps, ConsumeLogin(0, l.stateHash, l.returnedAt), s2);
    states, steps := states + [s2], steps + [ConsumeLogin(0, l.stateHash, l.returnedAt)];
    Extend(env, states, steps, IssueCode(0, l.user, l.codeHash, l.issuedAt), s3);
    states, steps := states + [s3], steps + [IssueCode(0, l.user, l.codeHash, l.issuedAt)];
  }

  /** From the code to the first tokens. */
  lemma CodeGoesThrough(env: Environment, v: ValidatedAuthorization, l: Login, form: TokenForm, states: seq<System>,
      steps: seq<Step>) returns (longer: seq<System>, more: seq<Step>)
    requires IsRun(env, states, steps) && InTime(env, l) && Fits(env, v, form) && form.secretHash == l.codeHash
    requires var s := Last(states);
             && s.handlers == map[] && s.responses == [] && s.families == map[] && s.store.refreshTokens == map[]
             && IsAllowed(env.registry, v) && s.authorized == map[l.stateHash := v]
             && s.codes == map[l.codeHash := Origin(l.stateHash, l.user, l.issuedAt)]
             && l.codeHash in s.store.authorizationCodes
             && var code := s.store.authorizationCodes[l.codeHash];
             && CodeCarries(s.authorized, s.codes, code) && code.codeHash == l.codeHash
             && code.consumedAt == None && code.expiresAt == l.issuedAt + env.codeTtl
    ensures IsRun(env, longer, more)
    ensures var s, grant := Last(longer), RefreshTokens.Grant(v.clientId, l.user, v.resource, v.scopes, l.issuedAt);
            && s.responses == [Response(grant, if v.nonce == Some("") then None else v.nonce, l.familyId)]
            && s.store.refreshTokens == RefreshTokens.Create(map[], l.tokenHash, l.familyId, grant, env.refreshTtl,
                l.answeredAt)
  {
    var s, client := Last(states), env.registry[v.clientId];
    var expected := AuthorizationCodes.Expectation(v.clientId, form.redirectUri, Some(v.resource),
        Some(client.allowedResources), Some(client.allowedScopes));
    AuthorizationCodes.ConsumesIff(env.digest, s.store.authorizationCodes, l.codeHash, form.verifier, expected,
        l.redeemedAt);
    var (codes, result) := AuthorizationCodes.ConsumeCode(env.digest, s.store.authorizationCodes, l.codeHash,
        form.verifier, expected, l.redeemedAt);
    var s1 := s.(store := s.store.(authorizationCodes := codes),
        handlers := map[0 := CodeGrant(v.clientId, result.value, v.resource)],
        consumedCodes := s.consumedCodes + {l.codeHash});
    var grant := RefreshTokens.Grant(v.clientId, l.user, v.resource, v.scopes, l.issuedAt);
    var s2 := s1.(store := s1.store.(refreshTokens :=
          RefreshTokens.Create(map[], l.tokenHash, l.familyId, grant, env.refreshTtl, l.answeredAt)),
        handlers := map[], families := map[l.familyId := l.codeHash],
        responses := [Response(grant, result.value.nonce, l.familyId)]);
    Extend(env, states, steps, RedeemCode(0, v.clientId, form, l.redeemedAt), s1);
    longer, more := states + [s1], steps + [RedeemCode(0, v.clientId, form, l.redeemedAt)];
    Extend(env, longer, more, IssueTokens(0, l.tokenHash, l.familyId, l.answeredAt), s2);
    longer, more := longer + [s2], more + [IssueTokens(0, l.tokenHash, l.familyId, l.answeredAt)];
  }

  /** Every accepted authorization can be carried through: the code redeemed in time with the client's
      redirect, resource and verifier gives tokens, and the refresh token, presented in time for the
      resource, gives new ones. */
  lemma HonestClientIsServed(env: Environment, request: AuthorizationRequest, l: Login, form: TokenForm,
      again: TokenForm) returns (states: seq<System>, steps: seq<Step>)
    requires RegistryValid(env.registry) && Validate(env.registry, env.canonical, request).Some? && InTime(env, l)
    requires var v := Validate(env.registry, env.canonical, request).value; Fits(env, v, form) && Fits(env, v, again)
    requires form.secretHash == l.codeHash && again.secretHash == l.tokenHash && l.nextHash != l.tokenHash
    ensures IsRun(env, states, steps)
    ensures var v := Validate(env.registry, env.canonical, request).value;
            var grant := RefreshTokens.Grant(v.clientId, l.user, v.resource, v.scopes, l.issuedAt);
            Last(states).responses ==
            [Response(grant, if v.nonce == Some("") then None else v.nonce, l.familyId),
             Response(grant, None, l.familyId)]
  {
    var v := Validate(env.registry, env.canonical, request).value;
    ValidatedIsAllowed(env.registry, env.canonical, request);
    states, steps := LoginGoesThrough(env, request, l);
    states, steps := CodeGoesThrough(env, v, l, form, states, steps);
    var s, client := Last(states), env.registry[v.clientId];
    var rotation := RefreshTokens.RotateRequest(l.tokenHash, v.clientId, env.refreshTtl, Some(v.resource),
        Some(client.allowedResources));
    RefreshTokens.RotatesIff(s.store.refreshTokens, rotation, l.refreshedAt, l.nextHash);
    var (tokens, outcome) := RefreshTokens.Rotate(s.store.refreshTokens, rotation, l.refreshedAt, l.nextHash);
    var grant := RefreshTokens.Grant(v.clientId, l.user, v.resource, v.scopes, l.issuedAt);
    var s' := s.(store := s.store.(refreshTokens := tokens),
        responses := s.responses + [Response(grant, None, l.familyId)]);
    Extend(env, states, steps, Refresh(v.clientId, again, l.nextHash, l.refreshedAt), s');
    states, steps := states + [s'], steps + [Refresh(v.clientId, again, l.nextHash, l.refreshedAt)];
  }
}
