/**
 * The registration form of frontend/src/pages/Register.jsx: the client-side
 * `validateField` rules and `emailRegex`, the `formData` / `errors` state
 * with `handleChange`, the `handleSubmit` gate, the routing of a server
 * error to one field, and the submit button's disabled condition.
 */
module Register {
  import opened Wrappers
  import opened Text
  import ApiClient
  import UserSchema

  /** The form's three inputs, by their `name` attribute. */
  datatype FieldName = UsernameField | EmailField | PasswordField

  /** A `{username, email, password}` record; both `formData` and `errors` have this shape. */
  datatype Fields = Fields(username: string, email: string, password: string)
  {
    function Get(f: FieldName): string
    {
      match f
      case UsernameField => username
      case EmailField => email
      case PasswordField => password
    }

    /** `{...prev, [name]: value}` */
    function With(f: FieldName, v: string): (r: Fields)
      ensures r.Get(f) == v
      ensures forall g :: g != f ==> r.Get(g) == Get(g)
    {
      match f
      case UsernameField => this.(username := v)
      case EmailField => this.(email := v)
      case PasswordField => this.(password := v)
    }
  }

  function NameOf(f: FieldName): string
  {
    match f
    case UsernameField => "username"
    case EmailField => "email"
    case PasswordField => "password"
  }

  function EmptyFields(): (r: Fields)
    ensures forall f :: r.Get(f) == ""
  {
    Fields("", "", "")
  }

  // -------------------------------------------------------------- emailRegex

  const Providers: set<string> := {"gmail", "yahoo", "outlook", "hotmail", "proton", "icloud", "msit"}
  const TopLevelDomains: set<string> := {"com", "net", "org", "edu", "io", "dev"}

  /** `(gmail|...|msit)\.(com|...|dev)` over the whole string. */
  predicate KnownDomain(d: string)
  {
    exists p, t | p in Providers && t in TopLevelDomains :: d == p + "." + t
  }

  /** `s` splits at `at` into a local part in `[a-zA-Z0-9._-]+`, the `@`, and a known domain. */
  predicate ClientEmailSplit(s: string, at: int)
  {
    0 < at < |s| && s[at] == '@'
    && (forall i :: 0 <= i < at ==> UserSchema.IsLocalChar(s[i]))
    && KnownDomain(s[at + 1..])
  }

  /** `emailRegex.test(s)`; without the `m` flag, `$` is the end of the string. */
  predicate ClientEmail(s: string)
  {
    exists at | 0 <= at < |s| :: ClientEmailSplit(s, at)
  }

  /** The local part admits no `@`, so the only candidate split is the first `@`. */
  lemma {:induction false} ClientEmailSplitsAtFirstAt(s: string)
    ensures ClientEmail(s) ==> FirstIndexOf(s, '@').Some? && ClientEmailSplit(s, FirstIndexOf(s, '@').value)
  {
    if ClientEmail(s) {
      var at :| 0 <= at < |s| && ClientEmailSplit(s, at);
      assert !UserSchema.IsLocalChar('@');
      assert FirstIndexOf(s, '@') == Some(at);
    }
  }

  /** A decision procedure for `emailRegex`. */
  function ClientEmailMatches(s: string): (r: bool)
    ensures r <==> ClientEmail(s)
  {
    ClientEmailSplitsAtFirstAt(s);
    var at := FirstIndexOf(s, '@');
    at.Some? && ClientEmailSplit(s, at.value)
  }

  // ----------------------------------------------------------- validateField

  const UsernameTooShort := "Username must be at least 3 characters"
  const InvalidEmail := "Please enter a valid email address"
  const PasswordTooShort := "Password must be at least 6 characters"

  /**
   * `validateField(name, value)`: `''` for an empty value or an unknown
   * field; otherwise the field's message when its rule fails. Lengths are
   * JavaScript's UTF-16 lengths.
   */
  function ValidateField(name: string, value: string): (r: string)
    ensures value == "" ==> r == ""
    ensures name != "username" && name != "email" && name != "password" ==> r == ""
    ensures name == "username" ==> (r != "" <==> value != "" && Utf16Length(value) < 3)
    ensures name == "email" ==> (r != "" <==> value != "" && !ClientEmail(value))
    ensures name == "password" ==> (r != "" <==> value != "" && Utf16Length(value) < 6)
    ensures r == "" || r == UsernameTooShort || r == InvalidEmail || r == PasswordTooShort
  {
    if value == "" then ""
    else if name == "username" then (if Utf16Length(value) < 3 then UsernameTooShort else "")
    else if name == "email" then (if !ClientEmailMatches(value) then InvalidEmail else "")
    else if name == "password" then (if Utf16Length(value) < 6 then PasswordTooShort else "")
    else ""
  }

  /** The three messages `handleSubmit` and the debounced effect compute. */
  function ValidateAll(form: Fields): (r: Fields)
    ensures forall f :: r.Get(f) == ValidateField(NameOf(f), form.Get(f))
  {
    Fields(ValidateField("username", form.username), ValidateField("email", form.email),
           ValidateField("password", form.password))
  }

  /** `Object.values(errors).some(error => error)` */
  predicate AnyError(errors: Fields)
  {
    exists f :: errors.Get(f) != ""
  }

  /** The submit button's `disabled`: while the request runs or while any field shows an error. */
  predicate SubmitDisabled(isLoading: bool, errors: Fields)
  {
    isLoading || AnyError(errors)
  }

  /** An untouched form shows no error. */
  lemma EmptyFormIsValid()
    ensures !AnyError(ValidateAll(EmptyFields()))
  {
  }

  // ------------------------------------------------------------ error routing

  const RegistrationFailed := "Registration failed"

  /** The field name each server message is searched for. */
  function Keyword(f: FieldName): string
  {
    match f
    case UsernameField => "Username"
    case EmailField => "Email"
    case PasswordField => "Password"
  }

  /** The order of the `onError` tests. */
  function Order(f: FieldName): nat
  {
    match f
    case UsernameField => 0
    case EmailField => 1
    case PasswordField => 2
  }

  /** `error.response?.data?.detail || 'Registration failed'`, as text; a list detail is not text. */
  function RegisterMessage(detail: ApiClient.ErrorDetail): string
  {
    if detail.TextDetail? && detail.text != "" then detail.text else RegistrationFailed
  }

  /** `msg` is shown under field `f`: the first field, in test order, whose keyword it contains. */
  predicate Targets(msg: string, f: FieldName)
  {
    Contains(msg, Keyword(f))
    && (Order(UsernameField) < Order(f) ==> !Contains(msg, Keyword(UsernameField)))
    && (Order(EmailField) < Order(f) ==> !Contains(msg, Keyword(EmailField)))
  }

  /**
   * `onError`: the message goes to the first field whose name it contains
   * and to no other; the other fields keep their errors. A list detail is
   * an array, whose `includes` finds none of the field names.
   */
  function RouteRegisterError(errors: Fields, detail: ApiClient.ErrorDetail): (r: Fields)
    ensures detail.ListDetail? ==> r == errors
    ensures !detail.ListDetail? ==>
              forall f :: r.Get(f) == if Targets(RegisterMessage(detail), f) then RegisterMessage(detail) else errors.Get(f)
  {
    if detail.ListDetail? then errors
    else
      var msg := RegisterMessage(detail);
      var target := if Contains(msg, "Username") then Some(UsernameField)
                    else if Contains(msg, "Email") then Some(EmailField)
                    else if Contains(msg, "Password") then Some(PasswordField)
                    else None;
      if target.Some? then errors.With(target.value, msg) else errors
  }

  /** A message targets at most one field. */
  lemma AtMostOneTarget(msg: string, f: FieldName, g: FieldName)
    requires Targets(msg, f) && Targets(msg, g)
    ensures f == g
  {
  }

  /** The back end's duplicate-username answer lands under the username. */
  lemma DuplicateUsernameRouted(errors: Fields)
    ensures RouteRegisterError(errors, ApiClient.TextDetail("Username already exists"))
            == errors.(username := "Username already exists")
  {
    assert OccursAt("Username", "Username already exists", 0);
  }

  // ---------------------------------------------------- client versus server

  /** Every provider is a non-empty word of ASCII letters. */
  lemma ProviderIsWord(p: string)
    requires p in Providers
    ensures |p| > 0 && forall i :: 0 <= i < |p| ==> UserSchema.IsAsciiLetter(p[i])
  {
  }

  /** Every top-level domain is a word of two or three ASCII letters. */
  lemma TopLevelDomainIsWord(t: string)
    requires t in TopLevelDomains
    ensures 2 <= |t| <= 3 && forall i :: 0 <= i < |t| ==> UserSchema.IsAsciiLetter(t[i])
  {
  }

  /** A local part, `@`, a word of letters, `.` and a word of two or three letters is a back-end split. */
  lemma ProviderDomainSplit(s: string, at: int, p: string, t: string)
    requires 0 < at < |s| && s[at] == '@' && forall i :: 0 <= i < at ==> UserSchema.IsLocalChar(s[i])
    requires s[at + 1..] == p + "." + t
    requires |p| > 0 && forall i :: 0 <= i < |p| ==> UserSchema.IsAsciiLetter(p[i])
    requires 2 <= |t| <= 3 && forall i :: 0 <= i < |t| ==> UserSchema.IsAsciiLetter(t[i])
    ensures UserSchema.EmailSplit(s, at, at + 1 + |p|)
  {
    var d := s[at + 1..];
    var dot := at + 1 + |p|;
    assert s[dot] == d[|p|] == '.';
    forall i | at < i < dot ensures UserSchema.IsDomainChar(s[i]) {
      assert s[i] == d[i - at - 1] == p[i - at - 1];
    }
    forall i | dot < i < |s| ensures UserSchema.IsAsciiLetter(s[i]) {
      assert s[i] == d[i - at - 1] == t[i - dot - 1];
    }
  }

  /** An address the form accepts also passes the back end's `validate_email`. */
  lemma {:induction false} ClientEmailPassesServer(s: string)
    requires ClientEmail(s)
    ensures UserSchema.ValidateEmail(s).Ok?
  {
    var at :| 0 <= at < |s| && ClientEmailSplit(s, at);
    var p, t :| p in Providers && t in TopLevelDomains && s[at + 1..] == p + "." + t;
    ProviderIsWord(p);
    TopLevelDomainIsWord(t);
    ProviderDomainSplit(s, at, p, t);
    assert UserSchema.EmailSplit(s, at, at + 1 + |p|);
  }

  /**
   * The form counts UTF-16 units and the back end counts code points: three
   * characters outside the Basic Multilingual Plane pass the form's password
   * rule and fail the back end's.
   */
  lemma PasswordLengthGap()
    ensures var pw := "\U{1F600}\U{1F600}\U{1F600}";
            ValidateField("password", pw) == "" && UserSchema.ValidatePassword(pw).Err?
  {
  }

  /** The form does not strip: a padded name the form accepts is rejected by the back end's length rule. */
  lemma UsernamePaddingGap()
    ensures ValidateField("username", "  a") == "" && UserSchema.ValidateUsername("  a").Err?
  {
    assert "  a" == "  " + "a";
    StripLeadingWhitespace("  ", "a");
  }

  // -------------------------------------------------------------- the page

  /** The page's state: the form's values and the errors shown under them. */
  class RegisterPage {
    var formData: Fields
    var errors: Fields

    constructor ()
      ensures formData == EmptyFields() && errors == EmptyFields()
    {
      formData := EmptyFields();
      errors := EmptyFields();
    }

    /** `handleChange`: the named input's value; nothing else changes. */
    method HandleChange(name: FieldName, value: string)
      modifies this
      ensures formData == old(formData).With(name, value)
      ensures errors == old(errors)
    {
      formData := formData.With(name, value);
    }

    /** The debounced effect, once the delay has passed: the errors are recomputed from the form. */
    method RevalidateAfterDelay()
      modifies this
      ensures errors == ValidateAll(formData) && formData == old(formData)
    {
      errors := ValidateAll(formData);
    }

    /**
     * `handleSubmit`: always replaces the errors with fresh ones, and sends
     * the form, as a register request, only when none of them is set.
     */
    method HandleSubmit() returns (sent: Option<ApiClient.Request>)
      modifies this
      ensures formData == old(formData)
      ensures errors == ValidateAll(formData)
      ensures sent.Some? <==> !AnyError(errors)
      ensures sent.Some? ==> sent.value == ApiClient.RegisterRequest(formData.username, formData.email, formData.password)
      ensures Disabled(false) <==> sent.None?
    {
      var newErrors := Fields(ValidateField("username", formData.username),
                              ValidateField("email", formData.email),
                              ValidateField("password", formData.password));
      errors := newErrors;
      if newErrors.username != "" || newErrors.email != "" || newErrors.password != "" {
        assert errors.Get(UsernameField) != "" || errors.Get(EmailField) != "" || errors.Get(PasswordField) != "";
        return None;
      }
      sent := Some(ApiClient.RegisterRequest(formData.username, formData.email, formData.password));
    }

    /** The mutation's `onError`. */
    method OnError(detail: ApiClient.ErrorDetail)
      modifies this
      ensures errors == RouteRegisterError(old(errors), detail) && formData == old(formData)
    {
      errors := RouteRegisterError(errors, detail);
    }

    /** The submit button's `disabled`. */
    predicate Disabled(isLoading: bool)
      reads this
    {
      SubmitDisabled(isLoading, errors)
    }
  }

  /**
   * Once the errors are recomputed from the form, the button is disabled
   * exactly while the request runs or while some non-empty field breaks its rule.
   */
  lemma {:induction false} SubmitGateMatchesButton(form: Fields, isLoading: bool)
    ensures SubmitDisabled(isLoading, ValidateAll(form)) <==>
              isLoading
              || (form.username != "" && Utf16Length(form.username) < 3)
              || (form.email != "" && !ClientEmail(form.email))
              || (form.password != "" && Utf16Length(form.password) < 6)
  {
    var e := ValidateAll(form);
    assert e.Get(UsernameField) == ValidateField("username", form.username);
    assert e.Get(EmailField) == ValidateField("email", form.email);
    assert e.Get(PasswordField) == ValidateField("password", form.password);
    assert AnyError(e) <==> e.Get(UsernameField) != "" || e.Get(EmailField) != "" || e.Get(PasswordField) != "";
  }
}
