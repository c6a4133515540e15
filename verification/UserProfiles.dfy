/** The normaliser of user profiles, which runs on what an identity provider sends, on every
    profile written to the store and on every profile read back. */
module UserProfiles {
  import opened Wrappers
  import opened StoreRecords
  import opened Json

  const MAX_CLAIM_LENGTH := 256

  predicate HasLineBreak(s: string) {
    '\r' in s || '\n' in s
  }

  function Member(members: Row, key: Key): Json {
    if key in members then members[key] else Null
  }

  /** Absent, null and blank claims count as missing. */
  function OptionalClaim(value: Json): Parsed<Option<string>> {
    match value
    case Null => Valid(None)
    case Text(text) =>
      var trimmed := Trim(text);
      if trimmed == "" then Valid(None)
      else if |trimmed| > MAX_CLAIM_LENGTH || HasLineBreak(trimmed) then Malformed
      else Valid(Some(trimmed))
    case _ => Malformed
  }

  function RequiredClaim(value: Json): Parsed<string> {
    var claim :- OptionalClaim(value);
    if claim.Some? then Valid(claim.value) else Malformed
  }

  /** Something before the one at sign, and a dot inside what follows it. */
  predicate IsEmail(s: string) {
    exists i, j | 0 < i < |s| && i + 1 < j < |s| - 1 ::
      s[i] == '@' && s[j] == '.' && forall k | 0 <= k < |s| && k != i :: !IsSpace(s[k]) && s[k] != '@'
  }

  function EmailClaim(value: Json): Parsed<string> {
    var email :- RequiredClaim(value);
    if IsEmail(email) then Valid(email) else Malformed
  }

  function BooleanClaim(value: Json): Parsed<bool> {
    match value
    case Bool(flag) => Valid(flag)
    case Text(text) => if text == "true" then Valid(true) else if text == "false" then Valid(false) else Malformed
    case _ => Malformed
  }

  function OrElse(claim: Option<string>, other: string): string {
    if claim.Some? then claim.value else other
  }

  function NormalizeProfile(value: Json): Parsed<UserProfile> {
    if !value.Object? then Malformed
    else
      var given :- OptionalClaim(Member(value.members, GivenName));
      var family :- OptionalClaim(Member(value.members, FamilyName));
      var givenName, familyName := OrElse(given, "Authenticated"), OrElse(family, "User");
      var email :- EmailClaim(Member(value.members, Email));
      var sub :- RequiredClaim(Member(value.members, Sub));
      var name :- OptionalClaim(Member(value.members, FullName));
      var username :- OptionalClaim(Member(value.members, PreferredUsername));
      var verified :- BooleanClaim(Member(value.members, EmailVerified));
      Valid(UserProfile(sub, givenName, familyName, OrElse(name, Trim(givenName + " " + familyName)),
                        OrElse(username, email), email, verified))
  }

  function ProfileValue(user: UserProfile): Json {
    Object(map[Sub := Text(user.sub), GivenName := Text(user.givenName), FamilyName := Text(user.familyName),
               FullName := Text(user.name), PreferredUsername := Text(user.preferredUsername),
               Email := Text(user.email), EmailVerified := Bool(user.emailVerified)])
  }

  /** What the claim says: nothing when it is absent, null or blank, and its trimmed text otherwise. */
  function Said(value: Json): Option<string> {
    if value.Text? && !Blank(value.text) then Some(Trim(value.text)) else None
  }

  /** Absent, null, or a text that is a single line of at most 256 characters once it is trimmed. */
  predicate IsSayable(value: Json) {
    || value == Null
    || (value.Text? && |Trim(value.text)| <= 256 && '\r' !in Trim(value.text) && '\n' !in Trim(value.text))
  }

  /** A profile is accepted exactly when its six texts are sayable, the subject and an address are said, and
      the verified flag is a boolean or one of two texts. */
  lemma NormalizesIff(members: Row)
    ensures NormalizeProfile(Object(members)).Valid? <==>
            && IsSayable(Member(members, Sub)) && IsSayable(Member(members, GivenName))
            && IsSayable(Member(members, FamilyName)) && IsSayable(Member(members, FullName))
            && IsSayable(Member(members, PreferredUsername)) && IsSayable(Member(members, Email))
            && Said(Member(members, Sub)).Some? && Said(Member(members, Email)).Some?
            && IsEmail(Said(Member(members, Email)).value)
            && Member(members, EmailVerified) in {Bool(true), Bool(false), Text("true"), Text("false")}
  {
    ClaimMeans(Member(members, Sub));
    ClaimMeans(Member(members, GivenName));
    ClaimMeans(Member(members, FamilyName));
    ClaimMeans(Member(members, FullName));
    ClaimMeans(Member(members, PreferredUsername));
    ClaimMeans(Member(members, Email));
  }

  /** An accepted profile says what its claims say. Missing names are made up: the given name is
      "Authenticated", the family name "User", the full name both, and the user name the address. */
  lemma NormalizedSays(members: Row)
    requires NormalizeProfile(Object(members)).Valid?
    ensures var user := NormalizeProfile(Object(members)).value;
            && Said(Member(members, Sub)) == Some(user.sub) && Said(Member(members, Email)) == Some(user.email)
            && user.givenName == OrElse(Said(Member(members, GivenName)), "Authenticated")
            && user.familyName == OrElse(Said(Member(members, FamilyName)), "User")
            && user.name == OrElse(Said(Member(members, FullName)), Trim(user.givenName + " " + user.familyName))
            && user.preferredUsername == OrElse(Said(Member(members, PreferredUsername)), user.email)
            && (user.emailVerified <==> Member(members, EmailVerified) in {Bool(true), Text("true")})
  {
    ClaimMeans(Member(members, Sub));
    ClaimMeans(Member(members, GivenName));
    ClaimMeans(Member(members, FamilyName));
    ClaimMeans(Member(members, FullName));
    ClaimMeans(Member(members, PreferredUsername));
    ClaimMeans(Member(members, Email));
  }

  /** A text without white space and at signs, and not empty. */
  predicate IsEmailPart(s: string) {
    s != "" && forall c | c in s :: !IsSpace(c) && c != '@'
  }

  lemma PartsMakeAnEmail(local: string, host: string, end: string)
    requires IsEmailPart(local) && IsEmailPart(host) && IsEmailPart(end)
    ensures IsEmail(local + "@" + host + "." + end)
  {
    var s := local + "@" + host + "." + end;
    var i, j := |local|, |local| + 1 + |host|;
    assert s[i] == '@' && s[j] == '.';
    forall k | 0 <= k < |s| && k != i ensures !IsSpace(s[k]) && s[k] != '@' {
      if k < i {
        assert s[k] == local[k] && local[k] in local;
      } else if k < j {
        assert s[k] == host[k - i - 1] && host[k - i - 1] in host;
      } else if k > j {
        assert s[k] == end[k - j - 1] && end[k - j - 1] in end;
      }
    }
  }

  /** An address is a part, an at sign, a part, a dot and a part. */
  lemma EmailMeans(s: string)
    ensures IsEmail(s) <==>
            exists local, host, end | IsEmailPart(local) && IsEmailPart(host) && IsEmailPart(end) ::
              s == local + "@" + host + "." + end
  {
    if IsEmail(s) {
      var i, j :| 0 < i < |s| && i + 1 < j < |s| - 1 && s[i] == '@' && s[j] == '.'
        && forall k | 0 <= k < |s| && k != i :: !IsSpace(s[k]) && s[k] != '@';
      assert s == s[..i] + "@" + s[i + 1..j] + "." + s[j + 1..];
      assert IsEmailPart(s[..i]) && IsEmailPart(s[i + 1..j]) && IsEmailPart(s[j + 1..]);
    }
    forall local, host, end | IsEmailPart(local) && IsEmailPart(host) && IsEmailPart(end)
      ensures IsEmail(local + "@" + host + "." + end)
    {
      PartsMakeAnEmail(local, host, end);
    }
  }

  lemma ClaimMeans(value: Json)
    ensures OptionalClaim(value).Valid? <==> IsSayable(value)
    ensures IsSayable(value) ==> OptionalClaim(value) == Valid(Said(value))
  {
    if value.Text? {
      TrimFacts(value.text);
    }
  }

  /** A claim that the normaliser returns as it is. */
  predicate IsClaim(s: string) {
    s != "" && Trimmed(s) && |s| <= MAX_CLAIM_LENGTH && !HasLineBreak(s)
  }

  /** The profiles that the normaliser returns as they are. */
  predicate IsProfile(user: UserProfile) {
    && IsClaim(user.sub) && IsClaim(user.givenName) && IsClaim(user.familyName) && IsClaim(user.name)
    && IsClaim(user.preferredUsername) && IsClaim(user.email) && IsEmail(user.email)
  }

  lemma ClaimIsKept(s: string)
    ensures OptionalClaim(Text(s)) == Valid(Some(s)) <==> IsClaim(s)
  {
    TrimFacts(s);
    if IsClaim(s) {
      TrimmedIsKept(s);
    }
  }

  lemma ClaimIsNormal(value: Json)
    ensures OptionalClaim(value).Valid? && OptionalClaim(value).value.Some?
        ==> IsClaim(OptionalClaim(value).value.value)
  {
    if value.Text? {
      TrimFacts(value.text);
    }
  }

  /** What the normaliser makes of the fields of a profile. */
  lemma ProfileMembers(user: UserProfile)
    ensures var members := ProfileValue(user).members;
            && Member(members, Sub) == Text(user.sub) && Member(members, GivenName) == Text(user.givenName)
            && Member(members, FamilyName) == Text(user.familyName) && Member(members, FullName) == Text(user.name)
            && Member(members, PreferredUsername) == Text(user.preferredUsername)
            && Member(members, Email) == Text(user.email)
            && Member(members, EmailVerified) == Bool(user.emailVerified)
  {
  }

  lemma DefaultsAreClaims()
    ensures IsClaim("Authenticated") && IsClaim("User")
  {
  }

  lemma RequiredIsNormal(value: Json)
    ensures RequiredClaim(value).Valid? ==> IsClaim(RequiredClaim(value).value)
  {
    ClaimIsNormal(value);
  }

  lemma DefaultedIsNormal(value: Json, other: string)
    requires OptionalClaim(value).Valid? && IsClaim(other)
    ensures IsClaim(OrElse(OptionalClaim(value).value, other))
  {
    ClaimIsNormal(value);
  }

  /** Every profile that the normaliser returns is well formed, but for the length of a derived name. */
  lemma NormalizedProfile(value: Json)
    requires NormalizeProfile(value).Valid?
    ensures var user := NormalizeProfile(value).value;
            && IsClaim(user.sub) && IsClaim(user.givenName) && IsClaim(user.familyName)
            && IsClaim(user.preferredUsername) && IsClaim(user.email) && IsEmail(user.email)
  {
    DefaultsAreClaims();
    RequiredIsNormal(Member(value.members, Sub));
    RequiredIsNormal(Member(value.members, Email));
    DefaultedIsNormal(Member(value.members, GivenName), "Authenticated");
    DefaultedIsNormal(Member(value.members, FamilyName), "User");
    DefaultedIsNormal(Member(value.members, PreferredUsername), NormalizeProfile(value).value.email);
  }

  lemma NormalizedName(value: Json)
    requires NormalizeProfile(value).Valid?
    ensures var user := NormalizeProfile(value).value;
            && (IsClaim(user.name) <==> |user.name| <= MAX_CLAIM_LENGTH)
            && (!IsClaim(user.name) ==> user.name == user.givenName + " " + user.familyName)
  {
    NormalizedProfile(value);
    ClaimIsNormal(Member(value.members, FullName));
    var user := NormalizeProfile(value).value;
    DerivedName(user.givenName, user.familyName);
  }

  lemma DerivedName(givenName: string, familyName: string)
    requires IsClaim(givenName) && IsClaim(familyName)
    ensures var name := givenName + " " + familyName;
            Trim(name) == name && Trimmed(name) && name != "" && !HasLineBreak(name)
  {
  }

  lemma ProfileIsReturned(user: UserProfile)
    requires IsProfile(user)
    ensures NormalizeProfile(ProfileValue(user)) == Valid(user)
  {
    ProfileMembers(user);
    ClaimIsKept(user.sub);
    ClaimIsKept(user.givenName);
    ClaimIsKept(user.familyName);
    ClaimIsKept(user.name);
    ClaimIsKept(user.preferredUsername);
    ClaimIsKept(user.email);
  }

  lemma ReturnedIsProfile(user: UserProfile)
    requires NormalizeProfile(ProfileValue(user)) == Valid(user)
    ensures IsProfile(user)
  {
    NormalizedProfile(ProfileValue(user));
    NormalizedName(ProfileValue(user));
    ProfileMembers(user);
    if !IsClaim(user.name) {
      DerivedName(user.givenName, user.familyName);
    }
  }

  /** The normaliser leaves a profile as it is exactly when every field is a trimmed, non-empty
      single line of at most 256 characters and the email is one. */
  lemma ProfileIsKept(user: UserProfile)
    ensures NormalizeProfile(ProfileValue(user)) == Valid(user) <==> IsProfile(user)
  {
    if IsProfile(user) {
      ProfileIsReturned(user);
    } else if NormalizeProfile(ProfileValue(user)) == Valid(user) {
      ReturnedIsProfile(user);
    }
  }

  /** Normalising again changes nothing if the name fits, and fails if a derived name does not. */
  lemma NormalizingIsIdempotentIffNameFits(value: Json)
    requires NormalizeProfile(value).Valid?
    ensures var user := NormalizeProfile(value).value;
            NormalizeProfile(ProfileValue(user)) == if |user.name| <= MAX_CLAIM_LENGTH then Valid(user) else Malformed
  {
    NormalizedProfile(value);
    NormalizedName(value);
    var user := NormalizeProfile(value).value;
    if |user.name| <= MAX_CLAIM_LENGTH {
      ProfileIsReturned(user);
    } else {
      ProfileMembers(user);
      DerivedName(user.givenName, user.familyName);
    }
  }

  function Repeat(c: char, n: nat): (s: string)
    ensures |s| == n && forall i | 0 <= i < n :: s[i] == c
  {
    seq(n, _ => c)
  }

  lemma ShortEmail()
    ensures IsClaim("a@b.c") && IsEmail("a@b.c")
  {
    var email := "a@b.c";
    assert email[1] == '@' && email[3] == '.';
  }

  function GivenNameOnly(given: string, email: string): Json {
    Object(map[Sub := Text(given), GivenName := Text(given), Email := Text(email), EmailVerified := Bool(true)])
  }

  /** Missing claims get their defaults; the display name is put together. */
  lemma MissingClaimsAreFilled(given: string, email: string)
    requires IsClaim(given) && IsClaim(email) && IsEmail(email)
    ensures NormalizeProfile(GivenNameOnly(given, email)) ==
            Valid(UserProfile(given, given, "User", given + " " + "User", email, email, true))
  {
    ClaimIsKept(given);
    ClaimIsKept(email);
    DefaultsAreClaims();
    DerivedName(given, "User");
    var members := GivenNameOnly(given, email).members;
    assert Member(members, FamilyName) == Null && Member(members, FullName) == Null
        && Member(members, PreferredUsername) == Null;
  }

  /** A given name of 256 letters and no family or full name: the provider's profile is accepted
      once, but the profile it yields cannot be written to the store. */
  lemma LongDerivedNameIsRefused() returns (value: Json)
    ensures NormalizeProfile(value).Valid?
    ensures NormalizeProfile(ProfileValue(NormalizeProfile(value).value)) == Malformed
  {
    var given := Repeat('a', 256);
    value := GivenNameOnly(given, "a@b.c");
    ShortEmail();
    MissingClaimsAreFilled(given, "a@b.c");
    NormalizingIsIdempotentIffNameFits(value);
  }
}
