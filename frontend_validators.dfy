/** The client's form validators (frontend/src/shared/utils/validators.ts). JavaScript
    numbers are modelled as Dafny `real`s (exact rationals), so a fractional value is
    representable; NaN and the infinities are not. */
module Validators {
  import opened Common
  import Strings
  import WeeklyReviewEntity
  import ActivityEntity
  import AuthUseCases

  const EMAIL_REQUIRED_MESSAGE: string := "El email es requerido"
  const EMAIL_FORMAT_MESSAGE: string := "Formato de email inválido"
  const PASSWORD_REQUIRED_MESSAGE: string := "La contraseña es requerida"
  const PASSWORD_LENGTH_MESSAGE: string := "La contraseña debe tener al menos 6 caracteres"
  const MIN_PASSWORD_LENGTH: nat := 6

  // ---------------------------------------------------------------------------------
  // isValidEmail

  /** A character the class `[^\s@]` admits. */
  predicate IsEmailChar(c: char) {
    !Strings.IsWhitespace(c) && c != '@'
  }

  /** Every character is one `[^\s@]` admits. */
  predicate AllEmailChars(s: string) {
    forall k :: 0 <= k < |s| ==> IsEmailChar(s[k])
  }

  /** A non-empty run of `[^\s@]` characters: the `[^\s@]+` of the pattern. */
  predicate IsEmailPart(s: string) {
    s != [] && AllEmailChars(s)
  }

  /** What the regular expression `^[^\s@]+@[^\s@]+\.[^\s@]+$` accepts: some split of the
      whole string into a part, "@", a part, "." and a part. */
  ghost predicate MatchesEmailPattern(s: string) {
    exists i, j :: 0 < i && i + 1 < j && j + 1 < |s| && s[i] == '@' && s[j] == '.'
      && IsEmailPart(s[..i]) && IsEmailPart(s[i + 1..j]) && IsEmailPart(s[j + 1..])
  }

  /** The position of the first `c` in `s`, or -1. */
  function IndexOf(s: string, c: char): (i: int)
    ensures -1 <= i < |s|
    ensures i >= 0 ==> s[i] == c && forall k :: 0 <= k < i ==> s[k] != c
    ensures i == -1 ==> forall k :: 0 <= k < |s| ==> s[k] != c
  {
    if s == [] then -1
    else if s[0] == c then 0
    else
      var j := IndexOf(s[1..], c);
      if j == -1 then -1 else j + 1
  }

  /** The text after "@": `[^\s@]` characters only, with a dot that has at least one
      character on each side. */
  predicate IsDomain(d: string) {
    IsEmailPart(d) && exists j :: 0 < j < |d| - 1 && d[j] == '.'
  }

  /** `isValidEmail`: a non-empty local part up to the first "@", and a domain after it. */
  predicate IsValidEmail(email: string) {
    var at := IndexOf(email, '@');
    0 < at && IsEmailPart(email[..at]) && IsDomain(email[at + 1..])
  }

  /** A string is made of admitted characters exactly when each of its two halves is. */
  lemma AllEmailCharsConcat(a: string, b: string)
    ensures AllEmailChars(a + b) <==> AllEmailChars(a) && AllEmailChars(b)
  {
    if AllEmailChars(a + b) {
      forall k | 0 <= k < |a| ensures IsEmailChar(a[k]) { assert a[k] == (a + b)[k]; }
      forall k | 0 <= k < |b| ensures IsEmailChar(b[k]) { assert b[k] == (a + b)[|a| + k]; }
    }
    if AllEmailChars(a) && AllEmailChars(b) {
      forall k | 0 <= k < |a + b| ensures IsEmailChar((a + b)[k]) {
        if k < |a| { assert (a + b)[k] == a[k]; } else { assert (a + b)[k] == b[k - |a|]; }
      }
    }
  }

  /** A domain splits at its dot into two parts. */
  lemma DomainSplit(d: string, j: int)
    requires IsEmailPart(d) && 0 < j < |d| - 1 && d[j] == '.'
    ensures IsEmailPart(d[..j]) && IsEmailPart(d[j + 1..])
  {
    assert d == d[..j] + (d[j..j + 1] + d[j + 1..]);
    AllEmailCharsConcat(d[..j], d[j..j + 1] + d[j + 1..]);
    AllEmailCharsConcat(d[j..j + 1], d[j + 1..]);
  }

  /** Two parts joined by a dot form a domain. */
  lemma DomainJoin(a: string, b: string)
    requires IsEmailPart(a) && IsEmailPart(b)
    ensures IsDomain(a + "." + b)
  {
    var d := a + "." + b;
    assert IsEmailChar('.');
    AllEmailCharsConcat(a, ".");
    AllEmailCharsConcat(a + ".", b);
    assert d[|a|] == '.';
  }

  /** An address the check accepts splits as the pattern requires. */
  lemma CheckedEmailMatches(s: string)
    requires IsValidEmail(s)
    ensures MatchesEmailPattern(s)
  {
    var at := IndexOf(s, '@');
    var d := s[at + 1..];
    var j :| 0 < j < |d| - 1 && d[j] == '.';
    DomainSplit(d, j);
    var i', j' := at, at + 1 + j;
    assert s[i' + 1..j'] == d[..j];
    assert s[j' + 1..] == d[j + 1..];
  }

  /** A string the pattern matches passes the check: its "@" is the first one. */
  lemma MatchedEmailChecks(s: string, i: int, j: int)
    requires 0 < i && i + 1 < j && j + 1 < |s| && s[i] == '@' && s[j] == '.'
    requires IsEmailPart(s[..i]) && IsEmailPart(s[i + 1..j]) && IsEmailPart(s[j + 1..])
    ensures IsValidEmail(s)
  {
    forall k | 0 <= k < i ensures s[k] != '@' { assert s[..i][k] == s[k]; }
    assert IndexOf(s, '@') == i;
    var d := s[i + 1..];
    assert IsEmailChar('.');
    forall k | 0 <= k < |d| ensures IsEmailChar(d[k]) {
      if k < j - i - 1 {
        assert d[k] == s[i + 1..j][k];
      } else if k > j - i - 1 {
        assert d[k] == s[j + 1..][k - (j - i)];
      }
    }
    assert d[j - i - 1] == '.';
  }

  /** The check accepts exactly the strings the regular expression matches. */
  lemma EmailCheckMatchesPattern(s: string)
    ensures IsValidEmail(s) <==> MatchesEmailPattern(s)
  {
    if IsValidEmail(s) {
      CheckedEmailMatches(s);
    }
    if MatchesEmailPattern(s) {
      var i, j :| 0 < i && i + 1 < j && j + 1 < |s| && s[i] == '@' && s[j] == '.'
        && IsEmailPart(s[..i]) && IsEmailPart(s[i + 1..j]) && IsEmailPart(s[j + 1..]);
      MatchedEmailChecks(s, i, j);
    }
  }

  /** Three parts joined as "{local}@{name}.{tld}" always make a valid address. */
  lemma EmailFromParts(local: string, name: string, tld: string)
    requires IsEmailPart(local) && IsEmailPart(name) && IsEmailPart(tld)
    ensures IsValidEmail(local + "@" + name + "." + tld)
  {
    var s := local + "@" + name + "." + tld;
    var i, j := |local|, |local| + 1 + |name|;
    assert s[..i] == local && s[i] == '@' && s[j] == '.';
    assert s[i + 1..j] == name && s[j + 1..] == tld;
    EmailCheckMatchesPattern(s);
  }

  /** The well-formed address of the client's tests is accepted. */
  lemma EmailAccepted()
    ensures IsValidEmail("test@example.com")
  {
    assert AllEmailChars("test") by {
      forall k | 0 <= k < 4 ensures IsEmailChar("test"[k]) { AsciiLetterIsEmailChar("test"[k]); }
    }
    assert AllEmailChars("example") by {
      forall k | 0 <= k < 7 ensures IsEmailChar("example"[k]) { AsciiLetterIsEmailChar("example"[k]); }
    }
    assert AllEmailChars("com") by {
      forall k | 0 <= k < 3 ensures IsEmailChar("com"[k]) { AsciiLetterIsEmailChar("com"[k]); }
    }
    EmailFromParts("test", "example", "com");
    assert "test" + "@" + "example" + "." + "com" == "test@example.com";
  }

  lemma AsciiLetterIsEmailChar(c: char)
    requires 'a' <= c <= 'z'
    ensures IsEmailChar(c)
  {
  }

  /** Addresses without an "@" are refused. */
  lemma NoAtRejected()
    ensures !IsValidEmail("") && !IsValidEmail("invalid")
  {
    assert IndexOf("invalid", '@') == -1 by {
      assert forall k :: 0 <= k < 7 ==> "invalid"[k] != '@';
    }
  }

  /** An "@" at either end leaves an empty part. */
  lemma EdgeAtRejected()
    ensures !IsValidEmail("invalid@") && !IsValidEmail("@domain.com")
  {
    assert IndexOf("invalid@", '@') == 7;
    assert IndexOf("@domain.com", '@') == 0;
  }

  /** A domain that starts with its dot has no name before the dot. */
  lemma EmptyDomainNameRejected()
    ensures !IsValidEmail("test@.com")
  {
    assert IndexOf("test@.com", '@') == 4;
    var e := "test@.com"[5..];
    assert e == ".com";
    assert forall j :: 0 < j < |e| - 1 ==> e[j] != '.';
  }

  /** The malformed addresses of the client's tests are refused. */
  lemma EmailRejected()
    ensures !IsValidEmail("") && !IsValidEmail("invalid") && !IsValidEmail("invalid@")
    ensures !IsValidEmail("@domain.com") && !IsValidEmail("test@.com")
  {
    NoAtRejected();
    EdgeAtRejected();
    EmptyDomainNameRejected();
  }

  // ---------------------------------------------------------------------------------
  // Passwords and text

  /** `isValidPassword`: at least six characters. */
  predicate IsValidPassword(password: string) {
    |password| >= MIN_PASSWORD_LENGTH
  }

  /** `isNotEmpty`: something is left after trimming. */
  predicate IsNotEmpty(value: string) {
    |Strings.Trim(value)| > 0
  }

  /** A string passes `isNotEmpty` exactly when it holds a character that is not
      whitespace. */
  lemma NotEmptyIffNotBlank(value: string)
    ensures IsNotEmpty(value) <==> exists k :: 0 <= k < |value| && !Strings.IsWhitespace(value[k])
  {
    Strings.TrimEmptyIffBlank(value);
  }

  // ---------------------------------------------------------------------------------
  // Numbers

  /** `isInRange`: both bounds included. */
  predicate IsInRange(value: real, min: real, max: real) {
    value >= min && value <= max
  }

  /** `Number.isInteger`, on a finite number. */
  predicate IsInteger(x: real) {
    x.Floor as real == x
  }

  /** `isValidMinutes`: a positive whole number. */
  predicate IsValidMinutes(minutes: real) {
    IsInteger(minutes) && minutes > 0.0
  }

  /** `isValidScore`: the client's score scale, 1 to 10. */
  predicate IsValidScore(score: real) {
    IsInRange(score, 1.0, 10.0)
  }

  /** `isValidSatisfaction`: 1 to 5. */
  predicate IsValidSatisfaction(level: real) {
    IsInRange(level, 1.0, 5.0)
  }

  /** The range check includes both ends, and a fraction is not a whole number of
      minutes. */
  lemma RangeAndMinutesBoundaries()
    ensures IsInRange(1.0, 1.0, 10.0) && IsInRange(10.0, 1.0, 10.0)
    ensures !IsInRange(0.0, 1.0, 10.0) && !IsInRange(11.0, 1.0, 10.0)
    ensures IsValidMinutes(1.0) && !IsValidMinutes(0.0) && !IsValidMinutes(1.5) && !IsValidMinutes(-5.0)
  {
    assert (1.5).Floor == 1;
  }

  /** On whole minutes the client's check is the backend's `isValidDuration`. */
  lemma MinutesAgreeWithBackend(minutes: int)
    ensures IsValidMinutes(minutes as real) <==> ActivityEntity.IsValidDuration(minutes)
  {
  }

  /** On whole numbers the client's satisfaction check is the backend's. */
  lemma SatisfactionAgreesWithBackend(level: int)
    ensures IsValidSatisfaction(level as real) <==> ActivityEntity.IsValidSatisfactionLevel(level)
  {
  }

  /** The client scores on 1..10 and the backend on 0..100: every whole score the client
      accepts the backend accepts too, but the backend's 0 and 11..100 are refused by the
      client, and the client lets through fractions such as 7.5 that the backend's whole
      number scale has no place for. */
  lemma ScoreScalesDiffer(score: int)
    ensures IsValidScore(score as real) ==> WeeklyReviewEntity.IsValidScore(score)
    ensures WeeklyReviewEntity.IsValidScore(score) && !IsValidScore(score as real) <==> score == 0 || 11 <= score <= 100
    ensures IsValidScore(7.5) && !IsInteger(7.5)
  {
    assert (7.5).Floor == 7;
  }

  // ---------------------------------------------------------------------------------
  // Time ranges

  /** `isValidTimeRange` on the two parsed instants; `None` is an unparsable date string
      (an Invalid Date, whose comparisons are all false). */
  predicate IsValidTimeRange(startTime: Option<Instant>, endTime: Option<Instant>) {
    startTime.Some? && endTime.Some? && endTime.value > startTime.value
  }

  /** The range is valid exactly when both dates parse and the end is strictly later;
      equal instants are refused. */
  lemma TimeRangeMeaning(startTime: Option<Instant>, endTime: Option<Instant>)
    ensures IsValidTimeRange(startTime, endTime) ==> startTime.Some? && endTime.Some?
    ensures startTime.Some? && endTime.Some? ==>
              (IsValidTimeRange(startTime, endTime) <==> startTime.value < endTime.value)
    ensures forall t: Instant :: !IsValidTimeRange(Some(t), Some(t))
  {
  }

  // ---------------------------------------------------------------------------------
  // Field error messages

  /** `getEmailError`: the "required" message for an empty string, the format message for
      a malformed address, and no message otherwise. */
  function GetEmailError(email: string): (r: Option<string>)
    ensures email == [] ==> r == Some(EMAIL_REQUIRED_MESSAGE)
    ensures email != [] && !MatchesEmailPattern(email) ==> r == Some(EMAIL_FORMAT_MESSAGE)
    ensures r.None? <==> MatchesEmailPattern(email)
  {
    EmailCheckMatchesPattern(email);
    if email == [] then Some(EMAIL_REQUIRED_MESSAGE)
    else if !IsValidEmail(email) then Some(EMAIL_FORMAT_MESSAGE)
    else None
  }

  /** `getPasswordError`: the "required" message for an empty string, the length message
      below six characters, and no message otherwise. */
  function GetPasswordError(password: string): (r: Option<string>)
    ensures password == [] ==> r == Some(PASSWORD_REQUIRED_MESSAGE)
    ensures 0 < |password| < 6 ==> r == Some(PASSWORD_LENGTH_MESSAGE)
    ensures r.None? <==> |password| >= 6
  {
    if password == [] then Some(PASSWORD_REQUIRED_MESSAGE)
    else if !IsValidPassword(password) then Some(PASSWORD_LENGTH_MESSAGE)
    else None
  }

  /** The client asks for six characters and the backend's registration for eight: a
      password of six or seven characters passes the form and is refused by the server. */
  lemma PasswordMinimumsDiffer(email: string, password: string, name: string)
    requires email != [] && name != [] && 6 <= |password| < 8
    ensures GetPasswordError(password).None?
    ensures AuthUseCases.RegisterCheck(AuthUseCases.RegisterUserDto(email, password, name))
            == Some(AuthUseCases.DomainErrors.Validation(AuthUseCases.PASSWORD_LENGTH_MESSAGE))
  {
  }
}
