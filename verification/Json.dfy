/** JSON as a tree of values, and the tests on strings that the parsers use. */
module Json {
  import opened Wrappers

  /** Member names: those of the stored rows and of user profiles, and any other text. */
  datatype Key =
    | AuthTime | ClientId | ClientState | CodeChallenge | CodeChallengeMethod | CodeHash | CodeVerifier | ConsumedAt
    | CreatedAt | CurrentCount | ExpiresAt | FamilyId | InitializedAt | LastSeenAt | LastUsedAt | Nonce | PreviousCount
    | ProtocolVersion | RedirectUri | RequestIdHashesJson | Resource | RevokedAt | RotatedFromHash | ScopesJson
    | SessionIdHash | StateHash | TerminatedAt | TokenHash | UpstreamNonce | UserJson | WindowStart
    | AuthorizationCodes | RefreshTokens | UpstreamAuthorizationStates | McpSessions | RateLimits
    | Sub | GivenName | FamilyName | FullName | PreferredUsername | Email | EmailVerified
    | Other(text: string)

  type Row = map<Key, Json>

  datatype Json =
    | Null
    | Bool(flag: bool)
    | Number(number: int)
    | Fraction(fraction: real)
    | Text(text: string)
    | List(elements: seq<Json>)
    | Object(members: Row)

  /** JSON text, known only by the promise that parsing undoes printing. */
  datatype Syntax = Syntax(print_: Json -> string, parse: string -> Option<Json>) {
    ghost predicate RoundTrips() {
      && (forall value :: parse(print_(value)) == Some(value))
      && (forall value: Json | value.List? || value.Object? :: !Blank(print_(value)))
    }
  }

  // ----- strings -----

  /** White space and line ends, which `trim` removes and `\s` matches. */
  predicate IsSpace(c: char) {
    || '\U{0009}' <= c <= '\U{000D}' || c == ' ' || c == '\U{00A0}' || c == '\U{1680}' || '\U{2000}' <= c <= '\U{200A}'
    || c == '\U{2028}' || c == '\U{2029}' || c == '\U{202F}' || c == '\U{205F}' || c == '\U{3000}' || c == '\U{FEFF}'
  }

  predicate Blank(s: string) {
    forall c | c in s :: IsSpace(c)
  }

  function TrimStart(s: string): string {
    if s != "" && IsSpace(s[0]) then TrimStart(s[1..]) else s
  }

  function TrimEnd(s: string): string {
    if s != "" && IsSpace(s[|s| - 1]) then TrimEnd(s[..|s| - 1]) else s
  }

  function Trim(s: string): string {
    TrimEnd(TrimStart(s))
  }

  predicate Trimmed(s: string) {
    s != "" ==> !IsSpace(s[0]) && !IsSpace(s[|s| - 1])
  }

  predicate IsHashChar(c: char) {
    'A' <= c <= 'Z' || 'a' <= c <= 'z' || '0' <= c <= '9' || c == '_' || c == '-'
  }

  /** The base64url text of a SHA-256 digest. */
  predicate IsHash(s: string) {
    |s| == 43 && forall c | c in s :: IsHashChar(c)
  }

  predicate IsNonce(s: string) {
    8 <= |s| <= 256 && forall c | c in s :: IsHashChar(c) || c == '.' || c == '~'
  }

  lemma {:induction false} TrimEndFacts(s: string)
    ensures TrimEnd(s) <= s
    ensures TrimEnd(s) != "" ==> !IsSpace(TrimEnd(s)[|TrimEnd(s)| - 1])
    ensures TrimEnd(s) == "" <==> Blank(s)
    decreases |s|
  {
    if s != "" && IsSpace(s[|s| - 1]) {
      TrimEndFacts(s[..|s| - 1]);
      assert s == s[..|s| - 1] + [s[|s| - 1]];
    }
  }

  lemma {:induction false} TrimStartFacts(s: string)
    ensures TrimStart(s) != "" ==> !IsSpace(TrimStart(s)[0])
    ensures Blank(TrimStart(s)) <==> Blank(s)
    ensures forall c | c in TrimStart(s) :: c in s
    decreases |s|
  {
    if s != "" && IsSpace(s[0]) {
      TrimStartFacts(s[1..]);
      assert s == [s[0]] + s[1..];
    }
  }

  /** What `trim` leaves is trimmed, is empty only for blank text, and holds only characters of the text. */
  lemma TrimFacts(s: string)
    ensures Trimmed(Trim(s))
    ensures Trim(s) == "" <==> Blank(s)
    ensures forall c | c in Trim(s) :: c in s
  {
    TrimStartFacts(s);
    TrimEndFacts(TrimStart(s));
  }

  lemma TrimmedIsKept(s: string)
    requires Trimmed(s)
    ensures Trim(s) == s
  {
  }

  lemma KeptIsTrimmed(s: string)
    ensures Trim(s) == s <==> Trimmed(s)
  {
    TrimFacts(s);
    if Trimmed(s) {
      TrimmedIsKept(s);
    }
  }

  lemma {:induction false} TrimStartCuts(s: string)
    ensures exists before :: s == before + TrimStart(s) && Blank(before)
    decreases |s|
  {
    if s != "" && IsSpace(s[0]) {
      TrimStartCuts(s[1..]);
      var before :| s[1..] == before + TrimStart(s[1..]) && Blank(before);
      assert s == ([s[0]] + before) + TrimStart(s);
    } else {
      assert s == "" + TrimStart(s);
    }
  }

  lemma {:induction false} TrimEndCuts(s: string)
    ensures exists after :: s == TrimEnd(s) + after && Blank(after)
    decreases |s|
  {
    if s != "" && IsSpace(s[|s| - 1]) {
      var n := |s| - 1;
      TrimEndCuts(s[..n]);
      var after :| s[..n] == TrimEnd(s[..n]) + after && Blank(after);
      assert s == TrimEnd(s) + (after + [s[n]]);
    } else {
      assert s == TrimEnd(s) + "";
    }
  }

  /** Trimming takes away white space at the two ends and nothing else. */
  lemma TrimCutsTheEnds(s: string)
    ensures exists before, after :: s == before + Trim(s) + after && Blank(before) && Blank(after)
  {
    TrimStartCuts(s);
    TrimEndCuts(TrimStart(s));
    var before :| s == before + TrimStart(s) && Blank(before);
    var after :| TrimStart(s) == Trim(s) + after && Blank(after);
    assert s == before + Trim(s) + after;
  }

  lemma HashIsNotBlank(s: string)
    requires IsHash(s) || IsNonce(s)
    ensures !Blank(s)
  {
    assert s[0] in s;
  }
}
