/**
 * The request validators of backend/app/schemas/user.py. Each pydantic field
 * validator either returns the (possibly normalised) value or raises a
 * `ValueError`, modelled as `Err(message)`.
 *
 * `re.match` anchors at the start; the patterns' `$` matches at the end of
 * the string or just before one final `"\n"`, which `UsernameMatch` and `ValidateEmail` spell out.
 */
module UserSchema {
  import opened Wrappers
  import opened Text

  predicate IsAsciiLetter(c: char)
  {
    ('a' <= c <= 'z') || ('A' <= c <= 'Z')
  }

  predicate IsAsciiAlnum(c: char)
  {
    IsAsciiLetter(c) || IsDigit(c)
  }

  /** `[a-zA-Z0-9_-]` */
  predicate IsUsernameChar(c: char)
  {
    IsAsciiAlnum(c) || c == '_' || c == '-'
  }

  /** `[a-zA-Z0-9._-]` */
  predicate IsLocalChar(c: char)
  {
    IsAsciiAlnum(c) || c == '.' || c == '_' || c == '-'
  }

  /** `[a-zA-Z0-9.-]` */
  predicate IsDomainChar(c: char)
  {
    IsAsciiAlnum(c) || c == '.' || c == '-'
  }

  // --------------------------------------------------------------- username

  const UsernameTooShort := "Username must be at least 3 characters"
  const UsernameBadChars := "Username can only contain letters, numbers, underscores, and hyphens"

  /** `[a-zA-Z0-9_-]+` over the whole string. */
  predicate UsernameBody(w: string)
  {
    |w| > 0 && forall i :: 0 <= i < |w| ==> IsUsernameChar(w[i])
  }

  /**
   * `re.match(r'^[a-zA-Z0-9_-]+$', v)`: the pattern's `$` matches at the end
   * of the string or just before one final newline.
   */
  predicate UsernameMatch(v: string)
  {
    UsernameBody(v) || (|v| > 0 && v[|v| - 1] == '\n' && UsernameBody(v[..|v| - 1]))
  }

  /**
   * `validate_username`: the length rule, on the stripped value, is checked
   * first; the character rule is checked on the value as given; the stripped
   * value is returned.
   */
  function ValidateUsername(v: string): (r: Result<string, string>)
    ensures r == Err(UsernameTooShort) <==> |Strip(v)| < 3
    ensures r == Err(UsernameBadChars) <==> |Strip(v)| >= 3 && !UsernameMatch(v)
    ensures r.Ok? <==> |Strip(v)| >= 3 && UsernameMatch(v)
    ensures r.Ok? ==> r.value == Strip(v)
  {
    if |Strip(v)| < 3 then Err(UsernameTooShort)
    else if !UsernameMatch(v) then Err(UsernameBadChars)
    else Ok(Strip(v))
  }

  /** Stripping a whitespace-free word followed by one newline gives the word back. */
  lemma StripTrailingNewline(w: string)
    requires |w| > 0 && forall i :: 0 <= i < |w| ==> !IsPyWhitespace(w[i])
    ensures Strip(w + "\n") == w
  {
    var s := w + "\n";
    assert s[0] == w[0] && !IsPyWhitespace(s[0]);
    assert StripStart(s) == s;
    var b := StripEnd(s);
    assert s[|s| - 1] == '\n' && IsPyWhitespace(s[|s| - 1]);
    assert s[|w| - 1] == w[|w| - 1] && !IsPyWhitespace(s[|w| - 1]);
    assert |b| == |w|;
    assert b == s[..|w|] == w;
  }

  /** The username class holds no whitespace. */
  lemma UsernameBodyHasNoWhitespace(w: string)
    requires UsernameBody(w)
    ensures forall i :: 0 <= i < |w| ==> !IsPyWhitespace(w[i])
  {
    forall i | 0 <= i < |w| ensures !IsPyWhitespace(w[i]) {
      assert IsUsernameChar(w[i]);
    }
  }

  /** The value the character rule lets through strips to its body. */
  lemma {:induction false} StripOfUsernameMatch(v: string)
    requires UsernameMatch(v)
    ensures UsernameBody(Strip(v)) && (v == Strip(v) || v == Strip(v) + "\n")
  {
    if UsernameBody(v) {
      UsernameBodyHasNoWhitespace(v);
    } else {
      var w := v[..|v| - 1];
      UsernameBodyHasNoWhitespace(w);
      assert v == w + "\n";
      StripTrailingNewline(w);
    }
  }

  /**
   * An accepted username is at least three characters of `[a-zA-Z0-9_-]`,
   * and it is the submitted value itself or that value less one trailing newline.
   */
  lemma {:induction false} AcceptedUsername(v: string)
    requires ValidateUsername(v).Ok?
    ensures var u := ValidateUsername(v).value;
            |u| >= 3 && UsernameBody(u) && (v == u || v == u + "\n")
  {
    StripOfUsernameMatch(v);
  }

  /** A trailing newline gets through: `"abc\n"` is accepted as `"abc"`. */
  lemma TrailingNewlineAccepted()
    ensures ValidateUsername("abc\n") == Ok("abc")
  {
    var v := "abc\n";
    assert v[..3] == "abc";
    assert UsernameBody("abc");
    assert UsernameMatch(v);
    StripOfUsernameMatch(v);
    assert v == "abc" + "\n";
    assert Strip(v) == "abc";
  }

  /** Surrounding spaces are rejected by the character rule even though the stripped value is long enough. */
  lemma PaddedUsernameRejected()
    ensures ValidateUsername(" abc") == Err(UsernameBadChars)
  {
    PaddedStrip();
    PaddedNoMatch();
  }

  lemma PaddedStrip()
    ensures Strip(" abc") == "abc"
  {
    assert " abc" == " " + "abc";
    StripLeadingWhitespace(" ", "abc");
  }

  lemma PaddedNoMatch()
    ensures !UsernameMatch(" abc")
  {
    var v := " abc";
    assert !IsUsernameChar(v[0]) && v[|v| - 1] != '\n';
  }

  // --------------------------------------------------------------- password

  const PasswordTooShort := "Password must be at least 6 characters"

  /** `validate_password`: at least six characters; the value is returned unchanged. */
  function ValidatePassword(v: string): (r: Result<string, string>)
    ensures r.Ok? <==> |v| >= 6
    ensures r.Ok? ==> r.value == v
    ensures r.Err? ==> r.error == PasswordTooShort
  {
    if |v| < 6 then Err(PasswordTooShort) else Ok(v)
  }

  // ------------------------------------------------------------------ email

  const InvalidEmail := "Invalid email format"

  /**
   * `w` splits as `local @ domain . tld` at positions `at` and `dot`, with
   * `local` in `[a-zA-Z0-9._-]+`, `domain` in `[a-zA-Z0-9.-]+` and `tld` in
   * `[a-zA-Z]{2,6}`.
   */
  predicate EmailSplit(w: string, at: int, dot: int)
  {
    0 < at && at + 1 < dot < |w| && w[at] == '@' && w[dot] == '.'
    && (forall i :: 0 <= i < at ==> IsLocalChar(w[i]))
    && (forall i :: at < i < dot ==> IsDomainChar(w[i]))
    && 2 <= |w| - dot - 1 <= 6
    && (forall i :: dot < i < |w| ==> IsAsciiLetter(w[i]))
  }

  /** `[a-zA-Z0-9._-]+@[a-zA-Z0-9.-]+\.[a-zA-Z]{2,6}` over the whole string. */
  predicate EmailBody(w: string)
  {
    exists at, dot | 0 <= at < |w| && 0 <= dot < |w| :: EmailSplit(w, at, dot)
  }

  /**
   * No class but the first admits `@` and the top-level domain admits no `.`,
   * so a match can only split at the first `@` and the last `.`.
   */
  lemma {:induction false} EmailSplitIsFirstAtLastDot(w: string)
    ensures EmailBody(w) ==>
              FirstIndexOf(w, '@').Some? && LastIndexOf(w, '.').Some?
              && EmailSplit(w, FirstIndexOf(w, '@').value, LastIndexOf(w, '.').value)
  {
    if EmailBody(w) {
      var a, d :| 0 <= a < |w| && 0 <= d < |w| && EmailSplit(w, a, d);
      assert !IsLocalChar('@') && !IsAsciiLetter('.');
      assert FirstIndexOf(w, '@') == Some(a);
      assert LastIndexOf(w, '.') == Some(d);
    }
  }

  /** A decision procedure for `EmailBody`: try the one candidate split. */
  function EmailMatches(w: string): (r: bool)
    ensures r <==> EmailBody(w)
  {
    EmailSplitIsFirstAtLastDot(w);
    var at := FirstIndexOf(w, '@');
    var dot := LastIndexOf(w, '.');
    at.Some? && dot.Some? && EmailSplit(w, at.value, dot.value)
  }

  /** `validate_email`: the address must match the pattern; it is returned unchanged. */
  function ValidateEmail(v: string): (r: Result<string, string>)
    ensures r.Ok? <==> EmailBody(v) || (|v| > 0 && v[|v| - 1] == '\n' && EmailBody(v[..|v| - 1]))
    ensures r.Ok? ==> r.value == v
    ensures r.Err? ==> r.error == InvalidEmail
  {
    if EmailMatches(v) || (|v| > 0 && v[|v| - 1] == '\n' && EmailMatches(v[..|v| - 1])) then Ok(v)
    else Err(InvalidEmail)
  }

  /** An accepted address has exactly one `@`. */
  lemma {:induction false} AcceptedEmailHasOneAt(w: string, at: int, dot: int)
    requires EmailSplit(w, at, dot)
    ensures forall i :: 0 <= i < |w| && w[i] == '@' ==> i == at
  {
    assert !IsLocalChar('@') && !IsDomainChar('@') && !IsAsciiLetter('@');
  }

  /** A plain address is accepted. */
  lemma EmailAccepted()
    ensures ValidateEmail("a@b.co") == Ok("a@b.co")
  {
    assert EmailSplit("a@b.co", 1, 3);
  }

  /** A one-letter top-level domain is rejected. */
  lemma ShortTopLevelDomainRejected()
    ensures ValidateEmail("a@b.c") == Err(InvalidEmail)
  {
    var bad := "a@b.c";
    EmailSplitIsFirstAtLastDot(bad);
    assert bad[0] == 'a' && bad[1] == '@';
    assert FirstIndexOf(bad, '@') == Some(1);
    assert bad[4] == 'c' && bad[3] == '.';
    assert LastIndexOf(bad, '.') == Some(3);
    assert !EmailSplit(bad, 1, 3);
  }

  // ------------------------------------------------------------ UserCreate

  /** A validated `UserCreate` body. */
  datatype UserCreate = UserCreate(username: string, email: string, password: string)

  /**
   * Validation of a `UserCreate` body: every field is checked and the
   * errors are reported in field order (username, email, password).
   */
  function ValidateUserCreate(username: string, email: string, password: string): (r: Result<UserCreate, seq<string>>)
    ensures r.Ok? <==> ValidateUsername(username).Ok? && ValidateEmail(email).Ok? && ValidatePassword(password).Ok?
    ensures r.Ok? ==> r.value == UserCreate(Strip(username), email, password)
    ensures r.Err? ==> r.error == (if ValidateUsername(username).Err? then [ValidateUsername(username).error] else [])
                                 + (if ValidateEmail(email).Err? then [InvalidEmail] else [])
                                 + (if ValidatePassword(password).Err? then [PasswordTooShort] else [])
  {
    var u := ValidateUsername(username);
    var e := ValidateEmail(email);
    var p := ValidatePassword(password);
    if u.Ok? && e.Ok? && p.Ok? then Ok(UserCreate(u.value, e.value, p.value))
    else Err((if u.Err? then [u.error] else []) + (if e.Err? then [e.error] else []) + (if p.Err? then [p.error] else []))
  }
}
