/** The fields of the rows of the store file: strict parsers, printers, and what survives both. */
module StoreRows {
  import opened Wrappers
  import opened StoreRecords
  import opened Json
  import opened UserProfiles

  const MAX_SAFE_INTEGER := 9007199254740991

  // ----- field parsers -----

  function RowOf(value: Json, allowed: set<Key>): Parsed<Row> {
    if value.Object? && value.members.Keys <= allowed then Valid(value.members) else Malformed
  }

  function TextAt(row: Row, key: Key): Parsed<string> {
    if key in row && row[key].Text? && !Blank(row[key].text) then Valid(row[key].text) else Malformed
  }

  /** A field that may be absent, though not null. */
  function OptionalAt<T>(row: Row, key: Key, parse: (Row, Key) -> Parsed<T>): Parsed<Option<T>> {
    if key !in row then Valid(None)
    else
      var value :- parse(row, key);
      Valid(Some(value))
  }

  function HashAt(row: Row, key: Key): Parsed<string> {
    var text :- TextAt(row, key);
    if IsHash(text) then Valid(text) else Malformed
  }

  function NonceAt(row: Row, key: Key): Parsed<string> {
    var text :- TextAt(row, key);
    if IsNonce(text) then Valid(text) else Malformed
  }

  predicate IsSeconds(time: int) {
    0 <= time <= MAX_SAFE_INTEGER
  }

  function SecondsAt(row: Row, key: Key): Parsed<int> {
    if key in row && row[key].Number? && IsSeconds(row[key].number) then Valid(row[key].number) else Malformed
  }

  predicate IsTime(time: int, minimum: int) {
    IsSeconds(time) && minimum <= time
  }

  function OrderedAt(row: Row, key: Key, minimum: int): Parsed<int> {
    var time :- SecondsAt(row, key);
    if time < minimum then Malformed else Valid(time)
  }

  function OptionalOrderedAt(row: Row, key: Key, minimum: int): Parsed<Option<int>> {
    if key !in row then Valid(None)
    else
      var time :- OrderedAt(row, key, minimum);
      Valid(Some(time))
  }

  function AuthTimeAt(row: Row, createdAt: int): Parsed<int> {
    var time :- SecondsAt(row, AuthTime);
    if time > createdAt then Malformed else Valid(time)
  }

  function MethodAt(row: Row, key: Key): Parsed<string> {
    if key in row && row[key] == Text("S256") then Valid("S256") else Malformed
  }

  function Texts(values: seq<string>): Json {
    List(seq(|values|, i requires 0 <= i < |values| => Text(values[i])))
  }

  function StringsOf(value: Option<Json>, accept: string -> bool): Parsed<seq<string>> {
    if value.Some? && value.value.List? && forall element | element in value.value.elements ::
        element.Text? && accept(element.text) then
      var elements := value.value.elements;
      Valid(seq(|elements|, i requires 0 <= i < |elements| => elements[i].text))
    else
      Malformed
  }

  function ScopesAt(syntax: Syntax, row: Row): Parsed<seq<string>> {
    var text :- TextAt(row, ScopesJson);
    StringsOf(syntax.parse(text), scope => !Blank(scope))
  }

  /** An absent list is the empty one. */
  function RequestIdsAt(syntax: Syntax, row: Row): Parsed<seq<string>> {
    if RequestIdHashesJson !in row then Valid([])
    else if !row[RequestIdHashesJson].Text? then Malformed
    else StringsOf(syntax.parse(row[RequestIdHashesJson].text), IsHash)
  }

  function ProfileAt(syntax: Syntax, row: Row): Parsed<UserProfile> {
    var text :- TextAt(row, UserJson);
    match syntax.parse(text)
    case Some(value) => NormalizeProfile(value)
    case None => Malformed
  }

  // ----- printers -----

  /** Fields without a value are left out of the row. */
  function Compact(fields: map<Key, Option<Json>>): Row {
    map key | key in fields && fields[key].Some? :: fields[key].value
  }

  function TextField(text: string): Option<Json> {
    Some(Text(text))
  }

  function TimeField(time: int): Option<Json> {
    Some(Number(time))
  }

  function OptionalTextField(text: Option<string>): Option<Json> {
    if text.Some? then Some(Text(text.value)) else None
  }

  function OptionalTimeField(time: Option<int>): Option<Json> {
    if time.Some? then Some(Number(time.value)) else None
  }

  function ScopesField(syntax: Syntax, scopes: seq<string>): Option<Json> {
    Some(Text(syntax.print_(Texts(scopes))))
  }

  function RequestIdsField(syntax: Syntax, ids: seq<string>): Option<Json> {
    if |ids| > 0 then Some(Text(syntax.print_(Texts(ids)))) else None
  }

  /** Printing a profile normalises it first, and fails if it is malformed. */
  function ProfileField(syntax: Syntax, user: UserProfile): Parsed<Option<Json>> {
    var normalized :- NormalizeProfile(ProfileValue(user));
    Valid(Some(Text(syntax.print_(ProfileValue(normalized)))))
  }

  // ----- what fields survive -----

  /** The row has the printed field. */
  predicate Holds(row: Row, key: Key, field: Option<Json>) {
    if field.Some? then key in row && row[key] == field.value else key !in row
  }

  lemma TextSurvives(row: Row, key: Key, text: string)
    requires Holds(row, key, TextField(text))
    ensures TextAt(row, key) == Valid(text) <==> !Blank(text)
    ensures HashAt(row, key) == Valid(text) <==> IsHash(text)
    ensures NonceAt(row, key) == Valid(text) <==> IsNonce(text)
  {
    if IsHash(text) || IsNonce(text) {
      HashIsNotBlank(text);
    }
  }

  lemma OptionalHashSurvives(row: Row, key: Key, text: Option<string>)
    requires Holds(row, key, OptionalTextField(text))
    ensures OptionalAt(row, key, HashAt) == Valid(text) <==> (text.Some? ==> IsHash(text.value))
  {
    if text.Some? {
      TextSurvives(row, key, text.value);
    }
  }

  lemma PkceSurvives(row: Row, nonce: Option<string>, challenge: Option<string>,
      challengeMethod: Option<string>)
    requires Holds(row, Nonce, OptionalTextField(nonce))
    requires Holds(row, CodeChallenge, OptionalTextField(challenge))
    requires Holds(row, CodeChallengeMethod, OptionalTextField(challengeMethod))
    ensures (OptionalAt(row, Nonce, NonceAt) == Valid(nonce) && OptionalAt(row, CodeChallenge, HashAt) ==
        Valid(challenge)
             && OptionalAt(row, CodeChallengeMethod, MethodAt) == Valid(challengeMethod))
            <==> PkceStorable(nonce, challenge, challengeMethod)
  {
    if nonce.Some? {
      TextSurvives(row, Nonce, nonce.value);
    }
    OptionalHashSurvives(row, CodeChallenge, challenge);
  }

  lemma TimeSurvives(row: Row, key: Key, time: int, minimum: int)
    requires Holds(row, key, TimeField(time))
    ensures SecondsAt(row, key) == Valid(time) <==> IsSeconds(time)
    ensures OrderedAt(row, key, minimum) == Valid(time) <==> IsTime(time, minimum)
  {
  }

  lemma OptionalTimeSurvives(row: Row, key: Key, time: Option<int>, minimum: int)
    requires Holds(row, key, OptionalTimeField(time))
    ensures OptionalOrderedAt(row, key, minimum) == Valid(time) <==> (time.Some? ==> IsTime(time.value, minimum))
  {
  }

  /** The challenge, the method and the nonce as the row parsers want them. */
  predicate PkceStorable(nonce: Option<string>, codeChallenge: Option<string>, codeChallengeMethod: Option<string>) {
    && (nonce.Some? ==> IsNonce(nonce.value))
    && (codeChallenge.Some? ==> IsHash(codeChallenge.value))
    && (codeChallengeMethod.Some? ==> codeChallengeMethod.value == "S256")
  }

  predicate IsScopes(scopes: seq<string>) {
    forall scope | scope in scopes :: !Blank(scope)
  }

  predicate IsRequestIds(ids: seq<string>) {
    forall id | id in ids :: IsHash(id)
  }

  lemma TextsSurvive(syntax: Syntax, values: seq<string>, accept: string -> bool)
    requires syntax.RoundTrips()
    ensures !Blank(syntax.print_(Texts(values)))
    ensures StringsOf(syntax.parse(syntax.print_(Texts(values))), accept) ==
            if forall value | value in values :: accept(value) then Valid(values) else Malformed
  {
    var elements := Texts(values).elements;
    assert forall i | 0 <= i < |values| :: elements[i] == Text(values[i]) && elements[i] in elements;
    if forall value | value in values :: accept(value) {
      assert seq(|elements|, i requires 0 <= i < |elements| => elements[i].text) == values;
    } else {
      var value :| value in values && !accept(value);
      var i :| 0 <= i < |values| && values[i] == value;
      assert elements[i] == Text(value);
    }
  }

  lemma ScopesSurvive(syntax: Syntax, row: Row, scopes: seq<string>)
    requires syntax.RoundTrips() && Holds(row, ScopesJson, ScopesField(syntax, scopes))
    ensures ScopesAt(syntax, row) == if IsScopes(scopes) then Valid(scopes) else Malformed
  {
    TextsSurvive(syntax, scopes, scope => !Blank(scope));
  }

  lemma RequestIdsSurvive(syntax: Syntax, row: Row, ids: seq<string>)
    requires syntax.RoundTrips() && Holds(row, RequestIdHashesJson, RequestIdsField(syntax, ids))
    ensures RequestIdsAt(syntax, row) == if IsRequestIds(ids) then Valid(ids) else Malformed
  {
    TextsSurvive(syntax, ids, IsHash);
  }

  lemma ProfileSurvives(syntax: Syntax, row: Row, user: UserProfile)
    requires syntax.RoundTrips() && ProfileField(syntax, user).Valid?
    requires Holds(row, UserJson, ProfileField(syntax, user).value)
    ensures ProfileAt(syntax, row) == Valid(user) <==> IsProfile(user)
  {
    var normalized := NormalizeProfile(ProfileValue(user)).value;
    assert syntax.parse(syntax.print_(ProfileValue(normalized))) == Some(ProfileValue(normalized));
    assert ProfileAt(syntax, row) == NormalizeProfile(ProfileValue(normalized));
    NormalizingIsIdempotentIffNameFits(ProfileValue(user));
    ProfileIsKept(user);
  }

  lemma ProfilePrints(syntax: Syntax, user: UserProfile)
    requires IsProfile(user)
    ensures ProfileField(syntax, user).Valid?
  {
    ProfileIsKept(user);
  }
}
