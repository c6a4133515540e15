/** Access tokens with ideal signatures: what is issued, and exactly when it verifies. */
module AccessToken {
  import opened Wrappers
  import opened StoreRecords
  import opened Json
  import opened Scopes
  import StoreRows

  /** Signing keys by identifier; the secret stands for the key pair. */
  datatype SigningKey = SigningKey(kid: string, secret: nat)

  /** `keys` are the verification keys in order; `active` signs and comes first. */
  datatype Config = Config(issuer: string, ttlSeconds: int, active: SigningKey, previous: seq<SigningKey>) {
    function Keys(): seq<SigningKey> {
      [active] + previous
    }

    /** Key identifiers are checked to be unique when the keys are loaded. */
    predicate Valid() {
      forall i, j | 0 <= i < j < |Keys()| :: Keys()[i].kid != Keys()[j].kid
    }
  }

  /** The claims of a payload, as JSON values that may be absent or of any type. */
  datatype Payload = Payload(
    iss: Option<Json>,
    sub: Option<Json>,
    aud: Option<Json>,
    exp: Option<Json>,
    iat: Option<Json>,
    nbf: Option<Json>,
    jti: Option<Json>,
    clientId: Option<Json>,
    scope: Option<Json>,
    name: Option<Json>,
    givenName: Option<Json>,
    familyName: Option<Json>,
    preferredUsername: Option<Json>,
    email: Option<Json>,
    emailVerified: Option<Json>)

  /** An ideal token: the header names a key, and only the holder of `signer` can have made it. */
  datatype Token = Token(kid: string, signer: nat, payload: Payload, length: nat)

  datatype TokenInput = TokenInput(user: UserProfile, clientId: string, audience: string, scopes: seq<string>)

  datatype Failure =
    | Oversized | UnknownKeyId | InvalidSignature
    | MissingRequiredClaim | InvalidScopeClaim | InvalidEmailVerifiedClaim | InvalidNumericDate
    | IssuerMismatch | AudienceMismatch | TokenExpired | TokenNotYetValid | TokenIssuedInFuture
                   | InsufficientScope

  const MAX_TOKEN_LENGTH := 8192

  function Claim(text: string): Option<Json> {
    Some(Text(text))
  }

  /** `length` is the length of the signed text, which depends on the encoding. */
  function IssueAccessToken(config: Config, input: TokenInput, jti: string, now: int, length: nat): Token {
    Token(config.active.kid, config.active.secret,
          Payload(Claim(config.issuer), Claim(input.user.sub), Claim(input.audience),
                  Some(Number(now + config.ttlSeconds)), Some(Number(now)), Some(Number(now)),
                  Claim(jti), Claim(input.clientId), Claim(Join(input.scopes)),
                  Claim(input.user.name), Claim(input.user.givenName), Claim(input.user.familyName),
                  Claim(input.user.preferredUsername), Claim(input.user.email), Some(Bool(input.user.emailVerified))),
          length)
  }

  function FindKey(keys: seq<SigningKey>, kid: string): Option<SigningKey> {
    if keys == [] then None
    else if keys[0].kid == kid then Some(keys[0])
    else FindKey(keys[1..], kid)
  }

  /** A text that `trim` would leave as it is, and not the empty one. */
  predicate IsClaimText(s: string) {
    s != "" && Trimmed(s)
  }

  predicate NonEmptyString(value: Option<Json>) {
    value.Some? && value.value.Text? && IsClaimText(value.value.text)
  }

  predicate IsNumericDate(value: Option<Json>) {
    value.Some? && value.value.Number? && StoreRows.IsSeconds(value.value.number)
  }

  /** The type checks on the claims, in order. */
  function AccessClaims(payload: Payload): Result<Payload, Failure> {
    if !(NonEmptyString(payload.iss) && NonEmptyString(payload.sub) && NonEmptyString(payload.aud)
        && NonEmptyString(payload.jti)
         && NonEmptyString(payload.clientId) && NonEmptyString(payload.scope) && NonEmptyString(payload.name)
         && NonEmptyString(payload.givenName) && NonEmptyString(payload.familyName)
         && NonEmptyString(payload.preferredUsername)
         && NonEmptyString(payload.email)) then Err(MissingRequiredClaim)
    else if !ValidScopeString(payload.scope.value.text) then Err(InvalidScopeClaim)
    else if payload.emailVerified.None? || !payload.emailVerified.value.Bool? then Err(InvalidEmailVerifiedClaim)
    else if !IsNumericDate(payload.exp) || !IsNumericDate(payload.iat) || !IsNumericDate(payload.nbf)
        then Err(InvalidNumericDate)
    else Ok(payload)
  }

  function VerifyAccessToken(config: Config, token: Token, audience: string, required: seq<string>,
      now: int): Result<Payload, Failure> {
    if token.length > MAX_TOKEN_LENGTH then Err(Oversized)
    else
      match FindKey(config.Keys(), token.kid)
      case None => Err(UnknownKeyId)
      case Some(key) =>
        if key.secret != token.signer then Err(InvalidSignature)
        else
          match AccessClaims(token.payload)
          case Err(failure) => Err(failure)
          case Ok(claims) =>
            if claims.iss.value.text != config.issuer then Err(IssuerMismatch)
            else if claims.aud.value.text != audience then Err(AudienceMismatch)
            else if claims.exp.value.number <= now then Err(TokenExpired)
            else if claims.nbf.value.number > now then Err(TokenNotYetValid)
            else if claims.iat.value.number > now then Err(TokenIssuedInFuture)
            else if !HasScopes(Words(claims.scope.value.text), required) then Err(InsufficientScope)
            else Ok(claims)
  }

  /** A claim that is a text, not empty and without white space at its ends. */
  predicate IsTextClaim(value: Option<Json>) {
    && value.Some? && value.value.Text?
    && var text := value.value.text;
    text != "" && Trim(text) == text
  }

  /** A date that is a whole number of seconds a double can hold. */
  predicate IsDateClaim(value: Option<Json>) {
    value.Some? && value.value.Number? && 0 <= value.value.number < 0x20_0000_0000_0000
  }

  /** The type checks pass for exactly these payloads, and hand them on as they are. */
  lemma AcceptsClaimsIff(payload: Payload)
    ensures AccessClaims(payload).Ok? <==>
            && IsTextClaim(payload.iss) && IsTextClaim(payload.sub) && IsTextClaim(payload.aud)
            && IsTextClaim(payload.jti) && IsTextClaim(payload.clientId) && IsTextClaim(payload.name)
            && IsTextClaim(payload.givenName) && IsTextClaim(payload.familyName)
            && IsTextClaim(payload.preferredUsername) && IsTextClaim(payload.email)
            && payload.scope.Some? && payload.scope.value.Text?
            && (forall piece | piece in SplitOn(IsBlankSpace(), payload.scope.value.text) :: IsScopeText(piece))
            && payload.emailVerified.Some? && payload.emailVerified.value.Bool?
            && IsDateClaim(payload.exp) && IsDateClaim(payload.iat) && IsDateClaim(payload.nbf)
    ensures AccessClaims(payload).Ok? ==> AccessClaims(payload).value == payload
  {
    forall s ensures Trim(s) == s <==> Trimmed(s) {
      KeptIsTrimmed(s);
    }
    if payload.scope.Some? && payload.scope.value.Text? {
      var text := payload.scope.value.text;
      ClaimAndRequestAgree(text);
      PatternMeansScopes(text);
      ScopesByCharacter(SplitOn(IsBlankSpace(), text));
    }
  }

  /** What an issued token needs to verify at all: claims that are trimmed and not empty, a scope,
      times a numeric date can hold and a text that is not too long. */
  predicate Issuable(config: Config, input: TokenInput, jti: string, now: int, length: nat) {
    && IsClaimText(config.issuer) && IsClaimText(input.user.sub) && IsClaimText(input.audience) && IsClaimText(jti)
    && IsClaimText(input.clientId) && IsClaimText(input.user.name) && IsClaimText(input.user.givenName)
    && IsClaimText(input.user.familyName) && IsClaimText(input.user.preferredUsername) && IsClaimText(input.user.email)
    && input.scopes != []
    && StoreRows.IsSeconds(now) && StoreRows.IsSeconds(now + config.ttlSeconds)
    && length <= MAX_TOKEN_LENGTH
  }

  lemma ActiveKeyIsFound(config: Config)
    ensures FindKey(config.Keys(), config.active.kid) == Some(config.active)
  {
  }

  /** The scope claim is a valid one exactly when there is a scope, and it reads back as issued. */
  lemma ScopeClaim(scopes: seq<string>)
    requires AllScopes(scopes)
    ensures IsClaimText(Join(scopes)) && ValidScopeString(Join(scopes)) <==> scopes != []
    ensures scopes != [] ==> Words(Join(scopes)) == scopes && IsClaimText(Join(scopes))
  {
    if scopes != [] {
      JoinedScopesReadBack(scopes);
      PatternMeansScopes(Join(scopes));
      ClaimAndRequestAgree(Join(scopes));
      KeptIsTrimmed(Join(scopes));
    }
  }

  /** The type checks pass exactly for issuable claims. */
  lemma IssuedClaims(config: Config, input: TokenInput, jti: string, now: int, length: nat)
    requires AllScopes(input.scopes)
    ensures var payload := IssueAccessToken(config, input, jti, now, length).payload;
            && (length <= MAX_TOKEN_LENGTH && AccessClaims(payload).Ok? <==> Issuable(config, input, jti, now, length))
            && (AccessClaims(payload).Ok? ==> AccessClaims(payload).value == payload)
  {
    ScopeClaim(input.scopes);
  }

  /** An issued token verifies for an audience, required scopes and a time exactly when the audience
      is its own, the scopes are among its own, and the time is from its issue to before its expiry. */
  lemma IssuedTokenVerifiesIff(config: Config, input: TokenInput, jti: string, issuedAt: int,
      length: nat, audience: string, required: seq<string>, now: int)
    requires config.Valid() && AllScopes(input.scopes)
    ensures VerifyAccessToken(config, IssueAccessToken(config, input, jti, issuedAt, length), audience, required,
        now).Ok?
            <==>
            && Issuable(config, input, jti, issuedAt, length)
            && audience == input.audience && HasScopes(input.scopes, required)
            && issuedAt <= now < issuedAt + config.ttlSeconds
  {
    ActiveKeyIsFound(config);
    IssuedClaims(config, input, jti, issuedAt, length);
    ScopeClaim(input.scopes);
  }

  /** The claims of an issued token that verifies are the issuer's, the user's and the client's, each in
      its place, with the times of its issue. */
  lemma VerifiedClaimsAreTheInput(config: Config, input: TokenInput, jti: string, issuedAt: int, length: nat,
      audience: string, required: seq<string>, now: int)
    requires config.Valid() && AllScopes(input.scopes)
    requires
      VerifyAccessToken(config, IssueAccessToken(config, input, jti, issuedAt, length), audience, required, now).Ok?
    ensures var token := IssueAccessToken(config, input, jti, issuedAt, length);
            var claims := VerifyAccessToken(config, token, audience, required, now).value;
            && claims.iss == Some(Text(config.issuer)) && claims.aud == Some(Text(input.audience))
            && claims.sub == Some(Text(input.user.sub)) && claims.clientId == Some(Text(input.clientId))
            && claims.name == Some(Text(input.user.name)) && claims.givenName == Some(Text(input.user.givenName))
            && claims.familyName == Some(Text(input.user.familyName))
            && claims.preferredUsername == Some(Text(input.user.preferredUsername))
            && claims.email == Some(Text(input.user.email))
            && claims.emailVerified == Some(Bool(input.user.emailVerified))
            && claims.jti == Some(Text(jti))
            && claims.exp == Some(Number(issuedAt + config.ttlSeconds))
            && claims.iat == Some(Number(issuedAt)) && claims.nbf == Some(Number(issuedAt))
            && claims.scope.Some? && claims.scope.value.Text? && Words(claims.scope.value.text) == input.scopes
  {
    ActiveKeyIsFound(config);
    IssuedClaims(config, input, jti, issuedAt, length);
    ScopeClaim(input.scopes);
  }

  /** Why a well-formed issued token fails: another audience, then its expiry, then a time before its
      issue, then a missing scope. It is never reported as issued in the future. */
  lemma IssuedTokenFailsWith(config: Config, input: TokenInput, jti: string, issuedAt: int, length: nat,
      audience: string, required: seq<string>, now: int)
    requires config.Valid() && AllScopes(input.scopes) && Issuable(config, input, jti, issuedAt, length)
    ensures var token := IssueAccessToken(config, input, jti, issuedAt, length);
            var result := VerifyAccessToken(config, token, audience, required, now);
            && (result == Err(AudienceMismatch) <==> audience != input.audience)
            && (result == Err(TokenExpired) <==> audience == input.audience && now >= issuedAt + config.ttlSeconds)
            && (result == Err(TokenNotYetValid) <==>
                  audience == input.audience && now < issuedAt + config.ttlSeconds && now < issuedAt)
            && (result == Err(InsufficientScope) <==>
                  && audience == input.audience && issuedAt <= now < issuedAt + config.ttlSeconds
                  && exists scope | scope in required :: scope !in input.scopes)
            && (result.Err? ==> result.error in {AudienceMismatch, TokenExpired, TokenNotYetValid, InsufficientScope})
  {
    ActiveKeyIsFound(config);
    IssuedClaims(config, input, jti, issuedAt, length);
    ScopeClaim(input.scopes);
  }

  /** A token verifies exactly when it is not too long, is signed with the configured key it names, has
      well-formed claims, is for this issuer and audience, is within its times, and has every required
      scope among the words of its scope claim. */
  lemma VerifiesIff(config: Config, token: Token, audience: string, required: seq<string>, now: int)
    requires config.Valid()
    ensures VerifyAccessToken(config, token, audience, required, now).Ok? <==>
            && token.length <= 8192 && SigningKey(token.kid, token.signer) in config.Keys()
            && AccessClaims(token.payload).Ok?
            && token.payload.iss == Some(Text(config.issuer)) && token.payload.aud == Some(Text(audience))
            && now < token.payload.exp.value.number
            && token.payload.nbf.value.number <= now && token.payload.iat.value.number <= now
            && forall scope | scope in required :: scope in Words(token.payload.scope.value.text)
  {
    FoundKeyIsListed(config.Keys(), token.kid);
    if SigningKey(token.kid, token.signer) in config.Keys() {
      UniqueKeyIsFound(config.Keys(), SigningKey(token.kid, token.signer));
    }
    AcceptsClaimsIff(token.payload);
  }

  /** A verified token was signed with the configured key it names, for this issuer and audience, is
      within its times, and its scope claim is a scope list that holds the required scopes. */
  lemma VerifiedTokenFits(config: Config, token: Token, audience: string, required: seq<string>,
      now: int)
    requires VerifyAccessToken(config, token, audience, required, now).Ok?
    ensures SigningKey(token.kid, token.signer) in config.Keys()
    ensures token.payload.iss == Claim(config.issuer) && token.payload.aud == Claim(audience)
    ensures token.payload.exp.Some? && token.payload.exp.value.Number? && now < token.payload.exp.value.number
    ensures token.payload.iat.Some? && token.payload.iat.value.Number? && token.payload.iat.value.number <= now
    ensures token.payload.nbf.Some? && token.payload.nbf.value.Number? && token.payload.nbf.value.number <= now
    ensures token.payload.scope.Some? && token.payload.scope.value.Text?
        && MatchesScopeList(token.payload.scope.value.text)
        && HasScopes(Words(token.payload.scope.value.text), required)
  {
    ClaimAndRequestAgree(token.payload.scope.value.text);
    FoundKeyIsListed(config.Keys(), token.kid);
  }

  lemma {:induction false} FoundKeyIsListed(keys: seq<SigningKey>, kid: string)
    ensures FindKey(keys, kid).Some? ==> FindKey(keys, kid).value in keys && FindKey(keys, kid).value.kid == kid
    decreases |keys|
  {
    if keys != [] {
      FoundKeyIsListed(keys[1..], kid);
    }
  }

  /** After a change of keys a token issued before still verifies as long as its key stays listed. */
  lemma RotatedKeysStillVerify(earlier: Config, config: Config, input: TokenInput, jti: string,
      issuedAt: int, length: nat, audience: string, required: seq<string>, now: int)
    requires earlier.Valid() && config.Valid() && AllScopes(input.scopes) && config.issuer == earlier.issuer
    requires earlier.active in config.Keys()
    ensures var token := IssueAccessToken(earlier, input, jti, issuedAt, length);
            VerifyAccessToken(config, token, audience, required, now) ==
                VerifyAccessToken(earlier, token, audience, required, now)
  {
    ActiveKeyIsFound(earlier);
    UniqueKeyIsFound(config.Keys(), earlier.active);
  }

  lemma {:induction false} UniqueKeyIsFound(keys: seq<SigningKey>, key: SigningKey)
    requires key in keys && forall i, j | 0 <= i < j < |keys| :: keys[i].kid != keys[j].kid
    ensures FindKey(keys, key.kid) == Some(key)
    decreases |keys|
  {
    if keys[0].kid != key.kid {
      assert key in keys[1..];
      UniqueKeyIsFound(keys[1..], key);
    }
  }
}
