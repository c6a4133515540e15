/** The checks of the authorization endpoint and of resource indicators, for a fixed client registry. */
module Authorization {
  import opened Wrappers
  import opened StoreRecords
  import Json
  import Scopes
  import AuthorizationCodes

  datatype OAuthClient = OAuthClient(
    clientId: string,
    redirectUris: seq<string>,
    allowedScopes: seq<string>,
    allowedResources: seq<string>,
    pkceRequired: bool,
    clientClass: string)

  type Registry = map<string, OAuthClient>

  /** The canonical form of a resource URL, or None for one that is refused. */
  type Canonical = string -> Option<string>

  datatype AuthorizationRequest = AuthorizationRequest(
    responseType: string,
    clientId: string,
    redirectUri: string,
    scope: Option<string>,
    state: Option<string>,
    resource: Option<string>,
    codeChallenge: Option<string>,
    codeChallengeMethod: Option<string>,
    nonce: Option<string>)

  datatype ValidatedAuthorization = ValidatedAuthorization(
    clientId: string,
    redirectUri: string,
    resource: string,
    scopes: seq<string>,
    clientState: string,
    nonce: Option<string>,
    codeChallenge: Option<string>,
    codeChallengeMethod: Option<string>)

  // ----- resources -----

  /** The resource asked for, or the only one of a GPT Actions client; None stands for invalid_target. */
  function GrantResource(client: OAuthClient, resource: Option<string>): Option<string> {
    match resource
    case Some(text) => if text == "" then None else Some(text)
    case None =>
      if client.clientClass == "gpt-actions" && |client.allowedResources| == 1 && client.allowedResources[0] != "" then
        Some(client.allowedResources[0])
      else
        None
  }

  /** The first allowed resource with the given canonical form; a refused one on the way ends the search. */
  function FindAllowed(canonical: Canonical, allowed: seq<string>, target: string): Option<string> {
    if allowed == [] then None
    else
      match canonical(allowed[0])
      case None => None
      case Some(form) => if form == target then Some(allowed[0]) else FindAllowed(canonical, allowed[1..], target)
  }

  function ResolveResource(canonical: Canonical, client: OAuthClient, resource: Option<string>): Option<string> {
    match GrantResource(client, resource)
    case None => None
    case Some(wanted) =>
      match canonical(wanted)
      case None => None
      case Some(target) =>
        match FindAllowed(canonical, client.allowedResources, target)
        case None => None
        case Some(allowed) => if allowed == "" then None else Some(allowed)
  }

  lemma {:induction false} FoundIsAllowed(canonical: Canonical, allowed: seq<string>, target: string)
    requires FindAllowed(canonical, allowed, target).Some?
    ensures FindAllowed(canonical, allowed, target).value in allowed
    ensures canonical(FindAllowed(canonical, allowed, target).value) == Some(target)
    decreases |allowed|
  {
    if canonical(allowed[0]) != Some(target) {
      FoundIsAllowed(canonical, allowed[1..], target);
    }
  }

  /** A resolved resource is spelled as the client's registration spells it, and resolves to itself. */
  lemma ResolvedIsAllowedAndStable(canonical: Canonical, client: OAuthClient,
      resource: Option<string>)
    requires ResolveResource(canonical, client, resource).Some?
    ensures var resolved := ResolveResource(canonical, client, resource).value;
            resolved in client.allowedResources && ResolveResource(canonical, client, Some(resolved)) == Some(resolved)
  {
    FoundIsAllowed(canonical, client.allowedResources, canonical(GrantResource(client, resource).value).value);
  }

  /** The resource that is resolved: the requested text, which must not be empty, or without one the
      single resource of a GPT Actions client. */
  predicate Wants(client: OAuthClient, resource: Option<string>, wanted: string) {
    && wanted != ""
    && (resource == Some(wanted) ||
        (resource == None && client.clientClass == "gpt-actions" && client.allowedResources == [wanted]))
  }

  /** Place `k` is the first with the form, and every place before it has another form. */
  ghost predicate FirstWith(canonical: Canonical, allowed: seq<string>, form: string, k: int) {
    && 0 <= k < |allowed| && canonical(allowed[k]) == Some(form)
    && forall j | 0 <= j < k :: canonical(allowed[j]) != None && canonical(allowed[j]) != Some(form)
  }

  lemma {:induction false} FoundIff(canonical: Canonical, allowed: seq<string>, form: string, resolved: string)
    ensures FindAllowed(canonical, allowed, form) == Some(resolved) <==>
            exists k | FirstWith(canonical, allowed, form, k) :: allowed[k] == resolved
    decreases |allowed|
  {
    if allowed != [] && canonical(allowed[0]) == Some(form) {
      assert FirstWith(canonical, allowed, form, 0);
    } else if allowed != [] && canonical(allowed[0]) != None {
      var rest := allowed[1..];
      FoundIff(canonical, rest, form, resolved);
      forall k ensures FirstWith(canonical, allowed, form, k) <==> FirstWith(canonical, rest, form, k - 1) {
        if FirstWith(canonical, rest, form, k - 1) {
          forall j | 0 <= j < k ensures canonical(allowed[j]) != None && canonical(allowed[j]) != Some(form) {
            assert j > 0 ==> allowed[j] == rest[j - 1];
          }
        }
        if FirstWith(canonical, allowed, form, k) {
          assert rest[k - 1] == allowed[k];
          assert forall j | 0 <= j < k - 1 :: rest[j] == allowed[j + 1];
        }
      }
      if k :| FirstWith(canonical, rest, form, k) && rest[k] == resolved {
        assert FirstWith(canonical, allowed, form, k + 1);
      }
    }
  }

  /** A resource resolves to the first one of the client's with the same canonical form, unless one without
      a canonical form comes before it. */
  lemma ResolvesIff(canonical: Canonical, client: OAuthClient, resource: Option<string>, resolved: string)
    ensures ResolveResource(canonical, client, resource) == Some(resolved) <==>
            && resolved != ""
            && exists wanted, k | Wants(client, resource, wanted) && canonical(wanted).Some?
                 && FirstWith(canonical, client.allowedResources, canonical(wanted).value, k) ::
                 client.allowedResources[k] == resolved
  {
    var wanted := GrantResource(client, resource);
    assert forall w :: Wants(client, resource, w) <==> wanted == Some(w);
    if wanted.Some? && canonical(wanted.value).Some? {
      FoundIff(canonical, client.allowedResources, canonical(wanted.value).value, resolved);
    }
  }

  // ----- the authorization request -----

  /** At most 512 characters, none of them a control character. */
  predicate IsClientState(text: string) {
    0 < |text| <= 512 && forall c | c in text :: c > '\U{001F}' && c != '\U{007F}'
  }

  /** The challenge and its method, or None for bad_request. */
  function PkceInput(required: bool, challenge: Option<string>,
      challengeMethod: Option<string>): Option<(Option<string>, Option<string>)> {
    if !IsFilled(challenge) then (if required then None else Some((None, None)))
    else if !AuthorizationCodes.IsPkceText(challenge.value) || challengeMethod != Some("S256") then None
    else Some((challenge, Some("S256")))
  }

  /** What is handed to the login redirect, or None if a check fails. */
  function Validate(registry: Registry, canonical: Canonical,
      request: AuthorizationRequest): Option<ValidatedAuthorization> {
    if request.responseType != "code" then None
    else if request.state.None? || !IsClientState(request.state.value) then None
    else if request.clientId !in registry then None
    else
      var client := registry[request.clientId];
      if request.redirectUri !in client.redirectUris then None
      else
        match (ResolveResource(canonical, client, request.resource), Scopes.ParseScopes(request.scope))
        case (Some(resource), Some(scopes)) =>
          if !Scopes.ScopesAllowed(scopes, client.allowedScopes) then None
          else
            (match PkceInput(client.pkceRequired, request.codeChallenge, request.codeChallengeMethod)
             case None => None
             case Some((challenge, challengeMethod)) =>
               if request.nonce.Some? && !Json.IsNonce(request.nonce.value) then None
               else
                 Some(ValidatedAuthorization(client.clientId, request.redirectUri, resource, scopes,
                                             request.state.value, request.nonce, challenge, challengeMethod)))
        case _ => None
  }

  /** 43 to 128 letters, digits and `-._~`; RFC 7636 section 4.2. */
  predicate IsChallengeText(text: string) {
    43 <= |text| <= 128 && forall c | c in text :: AuthorizationCodes.IsUnreserved(c)
  }

  predicate IsNonceText(text: string) {
    8 <= |text| <= 256 && forall c | c in text :: AuthorizationCodes.IsUnreserved(c)
  }

  /** An authorization request is accepted exactly when it asks for a code, has a state of 1 to 512
      characters without control characters, comes from a registered client with one of its redirects and a
      resource that resolves, asks for nothing but scopes the client may have, has a challenge with method
      S256 or is allowed to have none, and has a nonce of 8 to 256 characters or none. */
  lemma ValidatesIff(registry: Registry, canonical: Canonical, request: AuthorizationRequest)
    ensures Validate(registry, canonical, request).Some? <==>
            && request.responseType == "code"
            && request.state.Some? && 1 <= |request.state.value| <= 512
            && (forall c | c in request.state.value :: c >= ' ' && c != 127 as char)
            && request.clientId in registry
            && var client := registry[request.clientId];
            && request.redirectUri in client.redirectUris
            && ResolveResource(canonical, client, request.resource).Some?
            && (forall scope | scope in Requested(request.scope) ::
                  Scopes.IsScopeText(scope) && scope in client.allowedScopes)
            && (if request.codeChallenge == None || request.codeChallenge == Some("") then !client.pkceRequired
                else IsChallengeText(request.codeChallenge.value) && request.codeChallengeMethod == Some("S256"))
            && (request.nonce.Some? ==> IsNonceText(request.nonce.value))
  {
    Scopes.ParsesIff(request.scope);
  }

  /** The pieces of the scope text, or the default scopes. */
  function Requested(scope: Option<string>): seq<string> {
    match scope
    case None => ["openid", "profile", "email"]
    case Some(text) => Scopes.SplitOn(Scopes.IsBlankSpace(), text)
  }

  /** What is accepted says what was asked: the client, its redirect, the resolved resource, the requested
      scopes in order of first occurrence, the state, the nonce and the challenge. */
  lemma ValidatedIsRequested(registry: Registry, canonical: Canonical, request: AuthorizationRequest)
    requires RegistryValid(registry) && Validate(registry, canonical, request).Some?
    ensures var v := Validate(registry, canonical, request).value;
            && v.clientId == request.clientId && v.redirectUri == request.redirectUri
            && ResolveResource(canonical, registry[request.clientId], request.resource) == Some(v.resource)
            && (request.scope == None ==> v.scopes == ["openid", "profile", "email"])
            && Scopes.Distinct(v.scopes) && (forall s :: s in v.scopes <==> s in Requested(request.scope))
            && Scopes.InOrderOfOccurrence(v.scopes, Requested(request.scope))
            && Some(v.clientState) == request.state && v.nonce == request.nonce
            && v.codeChallenge == (if request.codeChallenge == Some("") then None else request.codeChallenge)
            && v.codeChallengeMethod == (if v.codeChallenge.Some? then Some("S256") else None)
  {
    Scopes.ParsesIff(request.scope);
    if request.scope.None? {
      DefaultOrder();
    }
  }

  lemma DefaultOrder()
    ensures Scopes.InOrderOfOccurrence(["openid", "profile", "email"], ["openid", "profile", "email"])
  {
    var scopes := ["openid", "profile", "email"];
    Scopes.DistinctIsKept(scopes);
    Scopes.DedupKeepsOrder(scopes);
  }

  predicate RegistryValid(registry: Registry) {
    forall id | id in registry :: registry[id].clientId == id
  }

  /** The redirect, the resource and the scopes belong to the registered client; PKCE is there if required. */
  predicate Allowed(registry: Registry, clientId: string, redirectUri: string, resource: string, scopes: seq<string>,
      codeChallenge: Option<string>) {
    && clientId in registry
    && redirectUri in registry[clientId].redirectUris
    && resource in registry[clientId].allowedResources
    && Scopes.ScopesAllowed(scopes, registry[clientId].allowedScopes)
    && (registry[clientId].pkceRequired ==> IsFilled(codeChallenge))
  }

  /** Every validated authorization is within what its client is registered for. */
  lemma ValidatedIsAllowed(registry: Registry, canonical: Canonical, request: AuthorizationRequest)
    requires RegistryValid(registry) && Validate(registry, canonical, request).Some?
    ensures var v := Validate(registry, canonical, request).value;
            && v.clientId == request.clientId && v.redirectUri == request.redirectUri
            && Allowed(registry, v.clientId, v.redirectUri, v.resource, v.scopes, v.codeChallenge)
            && v.scopes != [] && Scopes.AllScopes(v.scopes) && Scopes.Distinct(v.scopes)
  {
    ResolvedIsAllowedAndStable(canonical, registry[request.clientId], request.resource);
    Scopes.ParsedScopesReadBack(request.scope);
  }
}
