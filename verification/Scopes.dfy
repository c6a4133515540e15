/** Scope lists as text: parsing, joining and splitting, and the checks on sets of scopes. */
module Scopes {
  import opened Wrappers
  import Json

  const DEFAULT_SCOPES := ["openid", "profile", "email"]

  predicate IsScopeChar(c: char) {
    'A' <= c <= 'Z' || 'a' <= c <= 'z' || '0' <= c <= '9' || c in ":_./-"
  }

  predicate IsScope(s: string) {
    s != "" && forall i | 0 <= i < |s| :: IsScopeChar(s[i])
  }

  // ----- joining and splitting -----

  function Join(parts: seq<string>): string {
    if parts == [] then ""
    else if |parts| == 1 then parts[0]
    else parts[0] + " " + Join(parts[1..])
  }

  /** The pieces between separator characters, empty ones included. */
  function SplitOn(separates: char -> bool, s: string): (parts: seq<string>)
    ensures |parts| >= 1
  {
    if s == "" then [""]
    else if separates(s[0]) then [""] + SplitOn(separates, s[1..])
    else
      var rest := SplitOn(separates, s[1..]);
      [[s[0]] + rest[0]] + rest[1..]
  }

  function IsBlankSpace(): char -> bool {
    c => c == ' '
  }

  function IsAnySpace(): char -> bool {
    c => Json.IsSpace(c)
  }

  function NonEmpty(parts: seq<string>): seq<string> {
    if parts == [] then []
    else (if parts[0] == "" then [] else [parts[0]]) + NonEmpty(parts[1..])
  }

  /** Runs of characters between any white space, as a verifier reads a scope claim. */
  function Words(s: string): seq<string> {
    NonEmpty(SplitOn(IsAnySpace(), s))
  }

  predicate AllScopes(parts: seq<string>) {
    forall i | 0 <= i < |parts| :: IsScope(parts[i])
  }

  ghost predicate Avoids(separates: char -> bool, s: string) {
    forall i | 0 <= i < |s| :: !separates(s[i])
  }

  lemma {:induction false} SplitWhole(separates: char -> bool, s: string)
    requires Avoids(separates, s)
    ensures SplitOn(separates, s) == [s]
    decreases |s|
  {
    if s != "" {
      SplitWhole(separates, s[1..]);
      assert [s[0]] + s[1..] == s;
    }
  }

  lemma {:induction false} SplitAtSeparator(separates: char -> bool, first: string, c: char, rest: string)
    requires Avoids(separates, first) && separates(c)
    ensures SplitOn(separates, first + [c] + rest) == [first] + SplitOn(separates, rest)
    decreases |first|
  {
    var s := first + [c] + rest;
    if first == "" {
      assert s[1..] == rest;
    } else {
      SplitAtSeparator(separates, first[1..], c, rest);
      assert s[1..] == first[1..] + [c] + rest;
      assert [first[0]] + first[1..] == first;
    }
  }

  /** Splitting undoes joining when no part contains a separator. */
  lemma {:induction false} SplitUndoesJoin(separates: char -> bool, parts: seq<string>)
    requires parts != [] && separates(' ') && forall i | 0 <= i < |parts| :: Avoids(separates, parts[i])
    ensures SplitOn(separates, Join(parts)) == parts
    decreases |parts|
  {
    if |parts| == 1 {
      SplitWhole(separates, parts[0]);
    } else {
      SplitUndoesJoin(separates, parts[1..]);
      SplitAtSeparator(separates, parts[0], ' ', Join(parts[1..]));
      assert Join(parts) == parts[0] + [' '] + Join(parts[1..]);
    }
  }

  /** Joining undoes splitting at single spaces, for every text. */
  lemma {:induction false} JoinUndoesSplit(s: string)
    ensures Join(SplitOn(IsBlankSpace(), s)) == s
    decreases |s|
  {
    if s != "" {
      JoinUndoesSplit(s[1..]);
      var rest := SplitOn(IsBlankSpace(), s[1..]);
      assert s == [s[0]] + s[1..];
      if s[0] == ' ' {
        assert ([""] + rest)[1..] == rest;
      } else {
        var parts := [[s[0]] + rest[0]] + rest[1..];
        assert parts[1..] == rest[1..];
      }
    }
  }

  lemma ScopesAvoidSpaces(s: string)
    requires IsScope(s)
    ensures Avoids(IsBlankSpace(), s) && Avoids(IsAnySpace(), s)
  {
  }

  lemma {:induction false} NonEmptyKeepsScopes(parts: seq<string>)
    requires AllScopes(parts)
    ensures NonEmpty(parts) == parts
    decreases |parts|
  {
    if parts != [] {
      NonEmptyKeepsScopes(parts[1..]);
    }
  }

  /** A joined list of scopes reads back as it was, by single spaces and by any white space. */
  lemma JoinedScopesReadBack(scopes: seq<string>)
    requires scopes != [] && AllScopes(scopes)
    ensures SplitOn(IsBlankSpace(), Join(scopes)) == scopes && Words(Join(scopes)) == scopes
  {
    forall i | 0 <= i < |scopes| ensures Avoids(IsBlankSpace(), scopes[i]) && Avoids(IsAnySpace(), scopes[i]) {
      ScopesAvoidSpaces(scopes[i]);
    }
    SplitUndoesJoin(IsBlankSpace(), scopes);
    SplitUndoesJoin(IsAnySpace(), scopes);
    NonEmptyKeepsScopes(scopes);
  }

  // ----- parsing -----

  /** The pattern of a requested scope list: scopes separated by single spaces. */
  predicate MatchesScopeList(s: string) {
    && s != "" && s[0] != ' ' && s[|s| - 1] != ' '
    && (forall i | 0 <= i < |s| :: IsScopeChar(s[i]) || s[i] == ' ')
    && (forall i, j | 0 <= i < |s| && j == i + 1 && j < |s| :: s[i] != ' ' || s[j] != ' ')
  }

  /** The test of a scope claim: every piece between single spaces is a scope. */
  predicate ValidScopeString(s: string) {
    Json.Trim(s) == s && AllScopes(SplitOn(IsBlankSpace(), s))
  }

  lemma MatchesTail(s: string)
    requires s != "" && IsScopeChar(s[0])
    ensures MatchesScopeList(s) <==>
            s[1..] == "" || MatchesScopeList(s[1..]) || (s[1] == ' ' && MatchesScopeList(s[2..]))
  {
  }

  /** The pattern and the pieces agree. */
  lemma {:induction false} PatternMeansScopes(s: string)
    ensures MatchesScopeList(s) <==> AllScopes(SplitOn(IsBlankSpace(), s))
    decreases |s|
  {
    if s == "" || s[0] == ' ' {
      assert SplitOn(IsBlankSpace(), s)[0] == "";
    } else if !IsScopeChar(s[0]) {
      assert SplitOn(IsBlankSpace(), s)[0][0] == s[0];
    } else {
      MatchesTail(s);
      var rest := SplitOn(IsBlankSpace(), s[1..]);
      var parts := [[s[0]] + rest[0]] + rest[1..];
      assert SplitOn(IsBlankSpace(), s) == parts;
      assert AllScopes(parts) <==> (rest[0] == "" || IsScope(rest[0])) && AllScopes(rest[1..]) by {
        ConsScope(s[0], rest[0], rest[1..]);
      }
      if s[1..] == "" {
      } else if s[1] == ' ' {
        PatternMeansScopes(s[2..]);
        assert s[1..][1..] == s[2..];
        assert rest[1..] == SplitOn(IsBlankSpace(), s[2..]);
      } else {
        PatternMeansScopes(s[1..]);
        assert rest[0] != "" by { assert s[1..][0] != ' '; }
        assert AllScopes(rest) <==> IsScope(rest[0]) && AllScopes(rest[1..]) by { HeadScope(rest); }
      }
    }
  }

  lemma HeadScope(parts: seq<string>)
    requires parts != []
    ensures AllScopes(parts) <==> IsScope(parts[0]) && AllScopes(parts[1..])
  {
  }

  lemma ConsScope(c: char, first: string, others: seq<string>)
    requires IsScopeChar(c)
    ensures AllScopes([[c] + first] + others) <==> (first == "" || IsScope(first)) && AllScopes(others)
  {
    var parts := [[c] + first] + others;
    HeadScope(parts);
    assert parts[1..] == others;
    assert forall i | 0 <= i < |first| :: ([c] + first)[i + 1] == first[i];
  }

  lemma MatchingTextIsTrimmed(s: string)
    requires MatchesScopeList(s)
    ensures Json.Trim(s) == s
  {
  }

  /** What the verifier of a token accepts as a scope claim is exactly what the authorization
      endpoint accepts as a request. */
  lemma ClaimAndRequestAgree(s: string)
    ensures ValidScopeString(s) <==> MatchesScopeList(s)
  {
    PatternMeansScopes(s);
    if MatchesScopeList(s) {
      MatchingTextIsTrimmed(s);
    }
  }

  /** First occurrences, in order. */
  function Dedup(parts: seq<string>): (r: seq<string>)
    ensures forall i, j | 0 <= i < j < |r| :: r[i] != r[j]
    ensures forall s :: s in r <==> s in parts
  {
    if parts == [] then []
    else
      var earlier, last := parts[..|parts| - 1], parts[|parts| - 1];
      assert parts == earlier + [last];
      Dedup(earlier) + (if last in earlier then [] else [last])
  }

  /** Some occurrence of `a` comes before any of `b`. */
  ghost predicate OccursBefore(parts: seq<string>, a: string, b: string) {
    exists k | 0 <= k < |parts| :: parts[k] == a && b !in parts[..k + 1]
  }

  ghost predicate InOrderOfOccurrence(scopes: seq<string>, parts: seq<string>) {
    forall i, j | 0 <= i < j < |scopes| :: OccursBefore(parts, scopes[i], scopes[j])
  }

  /** Duplicates are dropped where they repeat: what comes first in the result occurred first. */
  lemma {:induction false} DedupKeepsOrder(parts: seq<string>)
    ensures InOrderOfOccurrence(Dedup(parts), parts)
    decreases |parts|
  {
    if parts != [] {
      var n, r := |parts| - 1, Dedup(parts);
      var earlier := parts[..n];
      DedupKeepsOrder(earlier);
      forall i, j | 0 <= i < j < |r| ensures OccursBefore(parts, r[i], r[j]) {
        if j < |Dedup(earlier)| {
          assert OccursBefore(earlier, Dedup(earlier)[i], Dedup(earlier)[j]);
          var k :| 0 <= k < n && earlier[k] == r[i] && r[j] !in earlier[..k + 1];
          assert parts[..k + 1] == earlier[..k + 1];
        } else {
          assert r[i] in earlier && r[j] !in earlier;
          var k :| 0 <= k < n && earlier[k] == r[i];
          assert parts[..k + 1] == earlier[..k + 1];
        }
      }
    }
  }

  /** The pieces hold no separator. */
  lemma {:induction false} PiecesAvoidSeparators(separates: char -> bool, s: string, i: nat)
    requires i < |SplitOn(separates, s)|
    ensures Avoids(separates, SplitOn(separates, s)[i])
    decreases |s|
  {
    if s != "" {
      var rest := SplitOn(separates, s[1..]);
      if separates(s[0]) {
        if i > 0 {
          PiecesAvoidSeparators(separates, s[1..], i - 1);
        }
      } else {
        PiecesAvoidSeparators(separates, s[1..], i);
      }
    }
  }

  /** A non-empty text of letters, digits and `:_./-`. */
  predicate IsScopeText(piece: string) {
    && piece != ""
    && forall c | c in piece ::
         || 'A' <= c <= 'Z' || 'a' <= c <= 'z' || '0' <= c <= '9'
         || c == ':' || c == '_' || c == '.' || c == '/' || c == '-'
  }

  /** A scope request is accepted exactly when every piece between single spaces is a scope, and it means
      these pieces, each once, in order of first occurrence. Without one the default scopes are meant. */
  lemma ParsesIff(input: Option<string>)
    ensures ParseScopes(None) == Some(["openid", "profile", "email"])
    ensures input.Some? ==>
              var scopes, pieces := ParseScopes(input), SplitOn(IsBlankSpace(), input.value);
              && (scopes.Some? <==> forall piece | piece in pieces :: IsScopeText(piece))
              && (scopes.Some? ==>
                    && Distinct(scopes.value) && (forall s :: s in scopes.value <==> s in pieces)
                    && InOrderOfOccurrence(scopes.value, pieces))
  {
    if input.Some? {
      var pieces := SplitOn(IsBlankSpace(), input.value);
      PatternMeansScopes(input.value);
      ScopesByCharacter(pieces);
      DedupKeepsOrder(pieces);
    }
  }

  lemma ScopesByCharacter(parts: seq<string>)
    ensures AllScopes(parts) <==> forall piece | piece in parts :: IsScopeText(piece)
  {
    if AllScopes(parts) {
      forall piece | piece in parts ensures IsScopeText(piece) {
        var i :| 0 <= i < |parts| && parts[i] == piece;
        assert IsScope(parts[i]);
      }
    } else {
      var i :| 0 <= i < |parts| && !IsScope(parts[i]);
      assert parts[i] in parts;
      if parts[i] != "" {
        var k :| 0 <= k < |parts[i]| && !IsScopeChar(parts[i][k]);
        assert parts[i][k] in parts[i];
      }
    }
  }

  /** None stands for the invalid_scope error. */
  function ParseScopes(input: Option<string>): Option<seq<string>> {
    match input
    case None => Some(DEFAULT_SCOPES)
    case Some(text) => if MatchesScopeList(text) then Some(Dedup(SplitOn(IsBlankSpace(), text))) else None
  }

  predicate ScopesAllowed(requested: seq<string>, allowed: seq<string>) {
    forall scope | scope in requested :: scope in allowed
  }

  predicate HasScopes(actual: seq<string>, required: seq<string>) {
    forall scope | scope in required :: scope in actual
  }

  predicate Distinct(parts: seq<string>) {
    forall i, j | 0 <= i < j < |parts| :: parts[i] != parts[j]
  }

  lemma {:induction false} DistinctIsKept(parts: seq<string>)
    requires Distinct(parts)
    ensures Dedup(parts) == parts
    decreases |parts|
  {
    if parts != [] {
      DistinctIsKept(parts[..|parts| - 1]);
      assert parts == parts[..|parts| - 1] + [parts[|parts| - 1]];
    }
  }

  /** Parsed scopes are distinct scopes and not none; their text parses back to them. */
  lemma ParsedScopesReadBack(input: Option<string>)
    requires ParseScopes(input).Some?
    ensures var scopes := ParseScopes(input).value;
            scopes != [] && AllScopes(scopes) && Distinct(scopes) && ParseScopes(Some(Join(scopes))) == Some(scopes)
  {
    var scopes := ParseScopes(input).value;
    if input.Some? {
      PatternMeansScopes(input.value);
      var parts := SplitOn(IsBlankSpace(), input.value);
      assert parts[0] in scopes;
      forall i | 0 <= i < |scopes| ensures IsScope(scopes[i]) {
        assert scopes[i] in parts;
      }
    }
    JoinedScopesReadBack(scopes);
    PatternMeansScopes(Join(scopes));
    DistinctIsKept(scopes);
  }
}
