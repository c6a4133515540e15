/** Authorization codes and upstream login states as atomic steps over maps of records.
    `digest` stands for SHA-256 in base64url, used both for keys and for PKCE challenges. */
module AuthorizationCodes {
  import opened Wrappers
  import opened StoreRecords
  import RefreshTokens

  type Digest = string -> string
  type Codes = map<string, AuthorizationCodeRecord>
  type States = map<string, UpstreamStateRecord>

  datatype CodeInput = CodeInput(
    clientId: string,
    redirectUri: string,
    resource: string,
    scopes: seq<string>,
    nonce: Option<string>,
    codeChallenge: Option<string>,
    codeChallengeMethod: Option<string>,
    user: UserProfile,
    ttlSeconds: int)

  datatype Expectation = Expectation(
    clientId: string,
    redirectUri: string,
    resource: Option<string>,
    allowedResources: Option<seq<string>>,
    allowedScopes: Option<seq<string>>)

  datatype StateInput = StateInput(
    clientId: string,
    redirectUri: string,
    resource: string,
    scopes: seq<string>,
    clientState: string,
    codeVerifier: string,
    upstreamNonce: string,
    nonce: Option<string>,
    codeChallenge: Option<string>,
    codeChallengeMethod: Option<string>,
    ttlSeconds: int)

  /** Empty optional strings are dropped on creation. */
  function Kept(text: Option<string>): Option<string> {
    if IsFilled(text) then text else None
  }

  function NewCode(hash: string, input: CodeInput, createdAt: int): AuthorizationCodeRecord {
    AuthorizationCodeRecord(hash, input.clientId, input.redirectUri, input.resource, input.scopes,
                            Kept(input.nonce), Kept(input.codeChallenge), Kept(input.codeChallengeMethod), input.user,
                            createdAt + input.ttlSeconds, None, createdAt, createdAt)
  }

  predicate IsPkceChar(c: char) {
    'A' <= c <= 'Z' || 'a' <= c <= 'z' || '0' <= c <= '9' || c in "._~-"
  }

  /** 43 to 128 unreserved characters, RFC 7636 section 4.1. */
  predicate IsPkceText(text: string) {
    43 <= |text| <= 128 && forall c | c in text :: IsPkceChar(c)
  }

  /** A code bound to a challenge needs a well-formed verifier with that digest; RFC 7636 section 4.6. */
  predicate VerifierMatches(digest: Digest, challenge: Option<string>, verifier: Option<string>) {
    IsFilled(challenge) ==> verifier.Some? && IsPkceText(verifier.value) && digest(verifier.value) == challenge.value
  }

  /** The whole acceptance test of a code, in the order of the checks. */
  predicate CodeAccepted(digest: Digest, record: AuthorizationCodeRecord, verifier: Option<string>,
      expected: Expectation, now: int) {
    && !IsSet(record.consumedAt)
    && record.expiresAt > now
    && record.clientId == expected.clientId && record.redirectUri == expected.redirectUri
    && RefreshTokens.ResourceAllowed(record.resource, expected.resource, expected.allowedResources)
    && (expected.allowedScopes.Some? ==> forall scope | scope in record.scopes :: scope in expected.allowedScopes.value)
    && VerifierMatches(digest, record.codeChallenge, verifier)
  }

  function CreateCode(codes: Codes, hash: string, input: CodeInput, createdAt: int): Codes {
    codes[hash := NewCode(hash, input, createdAt)]
  }

  function ConsumeCode(digest: Digest, codes: Codes, hash: string, verifier: Option<string>, expected: Expectation,
      now: int): (Codes, Result<AuthorizationCodeRecord, ServiceError>) {
    if hash in codes && CodeAccepted(digest, codes[hash], verifier, expected, now) then
      var consumed := codes[hash].(consumedAt := Some(now));
      (codes[hash := consumed], Ok(consumed))
    else
      (codes, Err(InvalidGrant))
  }

  /** A code is consumed exactly when it is stored, unconsumed and unexpired, client, redirect, resource
      and scopes fit, and the verifier of a code with a challenge is 43 to 128 unreserved characters with
      that digest. Otherwise nothing changes. */
  lemma ConsumesIff(digest: Digest, codes: Codes, hash: string, verifier: Option<string>, expected: Expectation,
      now: int)
    ensures var (after, result) := ConsumeCode(digest, codes, hash, verifier, expected, now);
            && (result.Ok? <==>
                  && hash in codes
                  && var record := codes[hash];
                  && (record.consumedAt == None || record.consumedAt == Some(0))
                  && record.expiresAt > now
                  && record.clientId == expected.clientId
                  && record.redirectUri == expected.redirectUri
                  && (expected.resource.Some? ==> record.resource == expected.resource.value)
                  && (expected.allowedResources.Some? ==> record.resource in expected.allowedResources.value)
                  && (expected.allowedScopes.Some? ==>
                        forall scope | scope in record.scopes :: scope in expected.allowedScopes.value)
                  && (record.codeChallenge.Some? && record.codeChallenge.value != "" ==>
                        Proves(digest, verifier, record.codeChallenge.value)))
            && (result.Ok? ==>
                  && result.value == codes[hash].(consumedAt := Some(now))
                  && after == codes[hash := result.value])
            && (result.Err? ==> after == codes && result.error == InvalidGrant)
  {
  }

  predicate IsUnreserved(c: char) {
    'A' <= c <= 'Z' || 'a' <= c <= 'z' || '0' <= c <= '9' || c == '-' || c == '.' || c == '_' || c == '~'
  }

  /** The verifier that RFC 7636 asks for, sections 4.1 and 4.6. */
  predicate Proves(digest: Digest, verifier: Option<string>, challenge: string) {
    && verifier.Some? && 43 <= |verifier.value| <= 128
    && (forall c | c in verifier.value :: IsUnreserved(c))
    && digest(verifier.value) == challenge
  }

  /** A created code is consumed until its lifetime is over by whoever fits the input it was made from. */
  lemma CreatedCodeConsumesIff(digest: Digest, codes: Codes, hash: string, input: CodeInput, createdAt: int,
      verifier: Option<string>, expected: Expectation, now: int)
    ensures var created := CreateCode(codes, hash, input, createdAt);
            var result := ConsumeCode(digest, created, hash, verifier, expected, now).1;
            && (result.Ok? <==>
                  && now < createdAt + input.ttlSeconds
                  && input.clientId == expected.clientId && input.redirectUri == expected.redirectUri
                  && (expected.resource.Some? ==> input.resource == expected.resource.value)
                  && (expected.allowedResources.Some? ==> input.resource in expected.allowedResources.value)
                  && (expected.allowedScopes.Some? ==>
                        forall scope | scope in input.scopes :: scope in expected.allowedScopes.value)
                  && (input.codeChallenge.Some? && input.codeChallenge.value != "" ==>
                        Proves(digest, verifier, input.codeChallenge.value)))
            && (result.Ok? ==>
                  && result.value.codeHash == hash && result.value.scopes == input.scopes
                  && result.value.user == input.user && result.value.authTime == createdAt)
  {
    ConsumesIff(digest, CreateCode(codes, hash, input, createdAt), hash, verifier, expected, now);
  }

  function NewState(hash: string, input: StateInput, createdAt: int): UpstreamStateRecord {
    UpstreamStateRecord(hash, input.clientId, input.redirectUri, input.resource, input.scopes, input.clientState,
                        input.codeVerifier, input.upstreamNonce, Kept(input.nonce), Kept(input.codeChallenge),
                        Kept(input.codeChallengeMethod), createdAt + input.ttlSeconds, createdAt)
  }

  function PruneStates(states: States, now: int): States {
    map h | h in states && states[h].expiresAt > now :: states[h]
  }

  function CreateState(states: States, hash: string, input: StateInput, createdAt: int): States {
    PruneStates(states, createdAt)[hash := NewState(hash, input, createdAt)]
  }

  function ConsumeState(states: States, hash: string, now: int): (States, Result<UpstreamStateRecord, ServiceError>) {
    var pruned := PruneStates(states, now);
    if hash in pruned then (pruned - {hash}, Ok(pruned[hash])) else (states, Err(InvalidGrant))
  }

  /** A login state is handed out, as it was stored, exactly when it is stored and unexpired. It and every
      expired state are then gone; otherwise nothing changes. */
  lemma StateConsumesIff(states: States, hash: string, now: int)
    ensures var (after, result) := ConsumeState(states, hash, now);
            && (result.Ok? <==> hash in states && states[hash].expiresAt > now)
            && (result.Ok? ==>
                  && result.value == states[hash]
                  && (forall h :: h in after <==> h in states && states[h].expiresAt > now && h != hash)
                  && (forall h | h in after :: after[h] == states[h]))
            && (result.Err? ==> after == states && result.error == InvalidGrant)
  {
  }

  /** A created login state is handed out once, with what it was created from, until its lifetime is over. */
  lemma CreatedStateConsumesIff(states: States, hash: string, input: StateInput, createdAt: int, now: int)
    ensures var created := CreateState(states, hash, input, createdAt);
            var (after, result) := ConsumeState(created, hash, now);
            && (forall h :: h in created <==> h == hash || (h in states && states[h].expiresAt > createdAt))
            && (forall h | h in created && h != hash :: created[h] == states[h])
            && (result.Ok? <==> now < createdAt + input.ttlSeconds)
            && (result.Ok? ==>
                  && result.value.clientId == input.clientId && result.value.redirectUri == input.redirectUri
                  && result.value.resource == input.resource && result.value.scopes == input.scopes
                  && result.value.clientState == input.clientState && result.value.codeVerifier == input.codeVerifier
                  && result.value.upstreamNonce == input.upstreamNonce
                  && ConsumeState(after, hash, now).1.Err?)
  {
  }
}
