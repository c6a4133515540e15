/** Private-key client assertions: the claim checks and the memory against replay; RFC 7523 section 3. */
module ClientAssertion {
  import opened Wrappers
  import opened Json
  import StoreRows

  const MAX_LIFETIME_SECONDS := 300
  const CLOCK_SKEW_SECONDS := 60

  /** The registered claims of a verified assertion; absent ones are None. */
  datatype Claims = Claims(iss: Option<Json>, sub: Option<Json>, aud: Option<Json>, exp: Option<Json>,
                           nbf: Option<Json>, iat: Option<Json>, jti: Option<Json>)

  type Memory = map<string, int>

  // ----- the claim checks -----

  function NumericDate(value: Option<Json>): Parsed<int> {
    if value.Some? && value.value.Number?
        && -StoreRows.MAX_SAFE_INTEGER <= value.value.number <= StoreRows.MAX_SAFE_INTEGER then
      Valid(value.value.number)
    else
      Malformed
  }

  predicate IsSafeChar(c: char) {
    'A' <= c <= 'Z' || 'a' <= c <= 'z' || '0' <= c <= '9' || c in "._-"
  }

  function SafeString(value: Option<Json>): Parsed<string> {
    if value.Some? && value.value.Text? && 1 <= |value.value.text| <= 256 && forall c | c in value.value.text ::
        IsSafeChar(c) then
      Valid(value.value.text)
    else
      Malformed
  }

  predicate AudienceMatches(issuer: string, aud: Option<Json>) {
    var accepted := {issuer, issuer + "/oauth/token"};
    && aud.Some?
    && match aud.value
       case Text(text) => text in accepted
       case List(elements) => exists element | element in elements :: element.Text? && element.text in accepted
       case _ => false
  }

  /** The identifier and the expiry of an assertion that passes every check but that against replay. */
  function CheckedClaims(issuer: string, clientId: string, claims: Claims, now: int): Parsed<(string, int)> {
    if claims.iss != Some(Text(clientId)) || claims.sub != Some(Text(clientId)) then Malformed
    else if !AudienceMatches(issuer, claims.aud) then Malformed
    else
      var exp :- NumericDate(claims.exp);
      if exp <= now - CLOCK_SKEW_SECONDS || exp > now + MAX_LIFETIME_SECONDS + CLOCK_SKEW_SECONDS then Malformed
      else
        var notBefore :- if claims.nbf.Some? then NumericDate(claims.nbf) else Valid(now);
        if notBefore > now + CLOCK_SKEW_SECONDS then Malformed
        else
          var issuedAt :- if claims.iat.Some? then NumericDate(claims.iat) else Valid(now);
          if issuedAt > now + CLOCK_SKEW_SECONDS || issuedAt < now - MAX_LIFETIME_SECONDS - CLOCK_SKEW_SECONDS
              then Malformed
          else
            var jti :- SafeString(claims.jti);
            Valid((jti, exp))
  }

  // ----- the memory against replay -----

  function ReplayKey(clientId: string, jti: string): string {
    clientId + ['\0'] + jti
  }

  function Pruned(memory: Memory, now: int): Memory {
    map key | key in memory && memory[key] > now :: memory[key]
  }

  /** The memory after an attempt, and whether the assertion was accepted. */
  function Attempted(memory: Memory, issuer: string, clientId: string, claims: Claims, now: int): (Memory, bool) {
    match CheckedClaims(issuer, clientId, claims, now)
    case Malformed => (memory, false)
    case Valid((jti, exp)) =>
      var pruned := Pruned(memory, now);
      if ReplayKey(clientId, jti) in pruned then (pruned, false)
      else (pruned[ReplayKey(clientId, jti) := exp + CLOCK_SKEW_SECONDS], true)
  }

  class AssertionVerifier {
    const issuer: string
    var replayCache: Memory

    constructor (issuer: string)
      ensures this.issuer == issuer && replayCache == map[]
    {
      this.issuer := issuer;
      replayCache := map[];
    }

    method RejectReplay(clientId: string, jti: string, exp: int, now: int) returns (accepted: bool)
      modifies this
      ensures accepted <==> ReplayKey(clientId, jti) !in Pruned(old(replayCache), now)
      ensures replayCache ==
              if accepted then Pruned(old(replayCache), now)[ReplayKey(clientId, jti) := exp + CLOCK_SKEW_SECONDS]
              else Pruned(old(replayCache), now)
    {
      var before := replayCache;
      var pending := before.Keys;
      while pending != {}
        invariant pending <= replayCache.Keys <= before.Keys
        invariant forall k | k in replayCache :: replayCache[k] == before[k]
        invariant forall k | k in before.Keys - pending :: k in replayCache <==> before[k] > now
      {
        var k :| k in pending;
        if replayCache[k] <= now {
          replayCache := replayCache - {k};
        }
        pending := pending - {k};
      }
      assert replayCache == Pruned(before, now);
      var key := ReplayKey(clientId, jti);
      if key in replayCache {
        return false;
      }
      replayCache := replayCache[key := exp + CLOCK_SKEW_SECONDS];
      return true;
    }

    method ValidateAssertionClaims(clientId: string, claims: Claims, now: int) returns (accepted: bool)
      modifies this
      ensures (replayCache, accepted) == Attempted(old(replayCache), issuer, clientId, claims, now)
    {
      var checked := CheckedClaims(issuer, clientId, claims, now);
      if checked.Malformed? {
        return false;
      }
      accepted := RejectReplay(clientId, checked.value.0, checked.value.1, now);
    }
  }

  // ----- runs -----

  datatype Attempt = Attempt(clientId: string, claims: Claims, now: int)

  function MemoryAfter(issuer: string, attempts: seq<Attempt>, n: nat): Memory
    requires n <= |attempts|
  {
    if n == 0 then map[]
    else
      var a := attempts[n - 1];
      Attempted(MemoryAfter(issuer, attempts, n - 1), issuer, a.clientId, a.claims, a.now).0
  }

  predicate Accepted(issuer: string, attempts: seq<Attempt>, i: nat)
    requires i < |attempts|
  {
    Attempted(MemoryAfter(issuer, attempts, i), issuer, attempts[i].clientId, attempts[i].claims, attempts[i].now).1
  }

  function Checked(issuer: string, a: Attempt): Parsed<(string, int)> {
    CheckedClaims(issuer, a.clientId, a.claims, a.now)
  }

  ghost predicate ClockNeverGoesBack(attempts: seq<Attempt>) {
    forall i, j | 0 <= i <= j < |attempts| :: attempts[i].now <= attempts[j].now
  }

  lemma CheckedMeans(issuer: string, a: Attempt)
    requires Checked(issuer, a).Valid?
    ensures var (jti, exp) := Checked(issuer, a).value;
            a.now - CLOCK_SKEW_SECONDS < exp && a.claims.exp == Some(Number(exp)) && '\0' !in jti
  {
  }

  /** An assertion that an honest client made `age` seconds ago by a clock at most `drift` seconds
      ahead of this one, with a lifetime of at most 300 seconds, passes until it has expired by both. */
  lemma HonestAssertionPasses(issuer: string, clientId: string, jti: string, age: nat, drift: int,
      lifetime: nat, now: int)
    requires -CLOCK_SKEW_SECONDS <= drift <= CLOCK_SKEW_SECONDS && 0 < lifetime <= MAX_LIFETIME_SECONDS
    requires age < lifetime + CLOCK_SKEW_SECONDS + drift
    requires 1 <= |jti| <= 256 && forall c | c in jti :: IsSafeChar(c)
    requires 0 <= now <= StoreRows.MAX_SAFE_INTEGER / 2
    ensures var iat := now - age + drift;
            var claims := Claims(Some(Text(clientId)), Some(Text(clientId)), Some(Text(issuer + "/oauth/token")),
                                 Some(Number(iat + lifetime)), Some(Number(iat)), Some(Number(iat)), Some(Text(jti)));
            CheckedClaims(issuer, clientId, claims, now) == Valid((jti, iat + lifetime))
  {
  }

  /** The audience of an assertion: this issuer or its token endpoint, alone or in a list. */
  predicate Addresses(aud: Option<Json>, issuer: string) {
    || aud == Some(Text(issuer)) || aud == Some(Text(issuer + "/oauth/token"))
    || (aud.Some? && aud.value.List?
        && (Text(issuer) in aud.value.elements || Text(issuer + "/oauth/token") in aud.value.elements))
  }

  /** A whole number that a double can hold. */
  predicate IsDate(value: Option<Json>) {
    value.Some? && value.value.Number? && -0x20_0000_0000_0000 < value.value.number < 0x20_0000_0000_0000
  }

  /** An assertion passes the claim checks exactly when it is the client's own, is meant for this issuer,
      expires between 60 seconds ago and 360 seconds from now, does not start more than 60 seconds from
      now, was issued, if it says so, between 360 seconds ago and 60 seconds from now, and has an
      identifier of 1 to 256 letters, digits and `._-`. */
  lemma PassesIff(issuer: string, clientId: string, claims: Claims, now: int)
    ensures CheckedClaims(issuer, clientId, claims, now).Valid? <==>
            && claims.iss == Some(Text(clientId)) && claims.sub == Some(Text(clientId))
            && Addresses(claims.aud, issuer)
            && IsDate(claims.exp) && now - 60 < claims.exp.value.number <= now + 360
            && (claims.nbf.Some? ==> IsDate(claims.nbf) && claims.nbf.value.number <= now + 60)
            && (claims.iat.Some? ==> IsDate(claims.iat) && now - 360 <= claims.iat.value.number <= now + 60)
            && claims.jti.Some? && claims.jti.value.Text? && 1 <= |claims.jti.value.text| <= 256
            && forall c | c in claims.jti.value.text ::
                 'A' <= c <= 'Z' || 'a' <= c <= 'z' || '0' <= c <= '9' || c == '.' || c == '_' || c == '-'
    ensures CheckedClaims(issuer, clientId, claims, now).Valid? ==>
              CheckedClaims(issuer, clientId, claims, now).value == (claims.jti.value.text, claims.exp.value.number)
  {
    assert AudienceMatches(issuer, claims.aud) <==> Addresses(claims.aud, issuer);
  }

  /** Whatever its claims, no assertion passes outside the window that its expiry fixes, nor for
      another client or audience. */
  lemma PassingAssertionFits(issuer: string, a: Attempt)
    requires Checked(issuer, a).Valid?
    ensures var exp := Checked(issuer, a).value.1;
            exp - MAX_LIFETIME_SECONDS - CLOCK_SKEW_SECONDS <= a.now < exp + CLOCK_SKEW_SECONDS
    ensures a.claims.iss == Some(Text(a.clientId)) == a.claims.sub && AudienceMatches(issuer, a.claims.aud)
    ensures a.claims.nbf.Some? ==> a.claims.nbf.value.Number? && a.claims.nbf.value.number <= a.now + CLOCK_SKEW_SECONDS
    ensures a.claims.iat.Some? ==>
              && a.claims.iat.value.Number?
              && a.now - MAX_LIFETIME_SECONDS - CLOCK_SKEW_SECONDS <= a.claims.iat.value.number
              && a.claims.iat.value.number <= a.now + CLOCK_SKEW_SECONDS
  {
  }

  /** An identifier contains no NUL, so the key tells the client and the identifier apart. */
  lemma KeyIsInjective(clientId: string, jti: string, otherClientId: string, otherJti: string)
    requires ReplayKey(clientId, jti) == ReplayKey(otherClientId, otherJti) && '\0' !in jti && '\0' !in otherJti
    ensures clientId == otherClientId && jti == otherJti
  {
    var key := ReplayKey(clientId, jti);
    assert key[|clientId|] == '\0' && key[|otherClientId|] == '\0';
    assert forall i | |clientId| < i < |key| :: key[i] == jti[i - |clientId| - 1];
    assert forall i | |otherClientId| < i < |key| :: key[i] == otherJti[i - |otherClientId| - 1];
    assert |clientId| == |otherClientId|;
    assert key[..|clientId|] == clientId && key[..|otherClientId|] == otherClientId;
    assert key[|clientId| + 1..] == jti && key[|clientId| + 1..] == otherJti;
  }

  /** An accepted assertion is remembered as long as its expiry passes the acceptance test. */
  lemma {:induction false} RememberedWhileAcceptable(issuer: string, attempts: seq<Attempt>, i: nat, n: nat)
    requires ClockNeverGoesBack(attempts) && i < n <= |attempts| && Accepted(issuer, attempts, i)
    requires var exp := Checked(issuer, attempts[i]).value.1; attempts[n - 1].now < exp + CLOCK_SKEW_SECONDS
    ensures var (jti, exp) := Checked(issuer, attempts[i]).value;
            var key := ReplayKey(attempts[i].clientId, jti);
            key in MemoryAfter(issuer, attempts, n) && MemoryAfter(issuer, attempts, n)[key] == exp + CLOCK_SKEW_SECONDS
    decreases n
  {
    if n > i + 1 {
      RememberedWhileAcceptable(issuer, attempts, i, n - 1);
    }
  }

  /** Between two accepted assertions of one client with one identifier the first has expired. */
  lemma AcceptedAgainOnlyAfterExpiry(issuer: string, attempts: seq<Attempt>, i: nat, j: nat)
    requires ClockNeverGoesBack(attempts) && i < j < |attempts|
    requires Accepted(issuer, attempts, i) && Accepted(issuer, attempts, j)
    requires attempts[i].clientId == attempts[j].clientId
    requires Checked(issuer, attempts[i]).value.0 == Checked(issuer, attempts[j]).value.0
    ensures Checked(issuer, attempts[i]).value.1 < Checked(issuer, attempts[j]).value.1
  {
    CheckedMeans(issuer, attempts[j]);
    if attempts[j].now < Checked(issuer, attempts[i]).value.1 + CLOCK_SKEW_SECONDS {
      RememberedWhileAcceptable(issuer, attempts, i, j);
    }
  }

  /** Over every run an assertion (client, identifier, expiry) is accepted at most once. */
  lemma AcceptedAtMostOnce(issuer: string, attempts: seq<Attempt>, i: nat, j: nat)
    requires ClockNeverGoesBack(attempts) && i < |attempts| && j < |attempts|
    requires Accepted(issuer, attempts, i) && Accepted(issuer, attempts, j)
    requires attempts[i].clientId == attempts[j].clientId && Checked(issuer, attempts[i]).value ==
        Checked(issuer, attempts[j]).value
    ensures i == j
  {
    if i < j {
      AcceptedAgainOnlyAfterExpiry(issuer, attempts, i, j);
    } else if j < i {
      AcceptedAgainOnlyAfterExpiry(issuer, attempts, j, i);
    }
  }

  /** Only a repetition is refused for replay: an assertion that passes the checks and is refused
      repeats the client and the identifier of one accepted before. */
  lemma OnlyRepetitionsAreRefused(issuer: string, attempts: seq<Attempt>, j: nat) returns (i: nat)
    requires j < |attempts| && Checked(issuer, attempts[j]).Valid? && !Accepted(issuer, attempts, j)
    ensures i < j && Accepted(issuer, attempts, i)
    ensures attempts[i].clientId == attempts[j].clientId && Checked(issuer, attempts[i]).value.0 ==
        Checked(issuer, attempts[j]).value.0
  {
    var jti := Checked(issuer, attempts[j]).value.0;
    i := Origin(issuer, attempts, j, ReplayKey(attempts[j].clientId, jti));
    CheckedMeans(issuer, attempts[i]);
    CheckedMeans(issuer, attempts[j]);
    KeyIsInjective(attempts[i].clientId, Checked(issuer, attempts[i]).value.0, attempts[j].clientId, jti);
  }

  lemma {:induction false} Origin(issuer: string, attempts: seq<Attempt>, n: nat, key: string) returns (i: nat)
    requires n <= |attempts| && key in MemoryAfter(issuer, attempts, n)
    ensures i < n && Accepted(issuer, attempts, i) && Checked(issuer, attempts[i]).Valid?
    ensures key == ReplayKey(attempts[i].clientId, Checked(issuer, attempts[i]).value.0)
    decreases n
  {
    if key in MemoryAfter(issuer, attempts, n - 1) && !(Accepted(issuer, attempts, n - 1)
        && key == ReplayKey(attempts[n - 1].clientId, Checked(issuer, attempts[n - 1]).value.0)) {
      i := Origin(issuer, attempts, n - 1, key);
    } else {
      i := n - 1;
    }
  }
}
