/**
 * The sign-in form of frontend/src/pages/Login.jsx: the `formData` and
 * `errors` state, the `handleSubmit` reset, the hand-over of a successful
 * response to the provider's `login`, and the routing of a failure message
 * to a field.
 */
module Login {
  import opened Wrappers
  import opened Text
  import ApiClient
  import AuthProvider

  /** A `{username, password}` record; both `formData` and `errors` have this shape. */
  datatype LoginFields = LoginFields(username: string, password: string)

  const LoginFailed := "Login failed"

  /** `error.response?.data?.detail || 'Login failed'`, when the detail is text or absent. */
  function LoginMessage(detail: ApiClient.ErrorDetail): string
  {
    if detail.TextDetail? && detail.text != "" then detail.text else LoginFailed
  }

  /** The message, lower-cased, names the username. */
  predicate MentionsUsername(msg: string)
  {
    Contains(ToLower(msg), "username")
  }

  /** The message, lower-cased, names the password. */
  predicate MentionsPassword(msg: string)
  {
    Contains(ToLower(msg), "password")
  }

  /**
   * `onError`, field by field: the username shows the message unless only
   * the password is named; the password shows it when the password but not
   * the username is named, keeps its error when the username is named, and
   * is cleared when neither is. A list detail is an array, whose missing
   * `toLowerCase` throws before any state is set.
   */
  function RouteLoginError(errors: LoginFields, detail: ApiClient.ErrorDetail): (r: LoginFields)
    ensures detail.ListDetail? ==> r == errors
    ensures !detail.ListDetail? ==>
              var msg := LoginMessage(detail);
              && r.username == (if !MentionsUsername(msg) && MentionsPassword(msg) then errors.username else msg)
              && r.password == (if MentionsUsername(msg) then errors.password
                                else if MentionsPassword(msg) then msg
                                else "")
  {
    if detail.ListDetail? then errors
    else
      var msg := LoginMessage(detail);
      if MentionsUsername(msg) then errors.(username := msg)
      else if MentionsPassword(msg) then errors.(password := msg)
      else LoginFields(msg, "")
  }

  /** Every failure shows its message under at least one field. */
  lemma {:induction false} ErrorAlwaysShown(errors: LoginFields, detail: ApiClient.ErrorDetail)
    requires !detail.ListDetail?
    ensures var r := RouteLoginError(errors, detail);
            r.username == LoginMessage(detail) || r.password == LoginMessage(detail)
  {
  }

  /**
   * The back end's one answer for an unknown user and a wrong password
   * lands under the username, whatever the password field showed.
   */
  lemma InvalidCredentialsRouted(errors: LoginFields)
    ensures RouteLoginError(errors, ApiClient.TextDetail("Invalid username or password"))
            == errors.(username := "Invalid username or password")
  {
    var msg := "Invalid username or password";
    var low := ToLower(msg);
    assert low[8..16] == "username";
    assert OccursAt("username", low, 8);
  }

  /** The page's state: the form's values and the errors shown under them. */
  class LoginPage {
    var formData: LoginFields
    var errors: LoginFields

    constructor ()
      ensures formData == LoginFields("", "") && errors == LoginFields("", "")
    {
      formData := LoginFields("", "");
      errors := LoginFields("", "");
    }

    method EditUsername(value: string)
      modifies this
      ensures formData == old(formData).(username := value) && errors == old(errors)
    {
      formData := formData.(username := value);
    }

    method EditPassword(value: string)
      modifies this
      ensures formData == old(formData).(password := value) && errors == old(errors)
    {
      formData := formData.(password := value);
    }

    /** `handleSubmit`: both errors are cleared and the credentials are sent as they are. */
    method HandleSubmit() returns (sent: ApiClient.Request)
      modifies this
      ensures errors == LoginFields("", "") && formData == old(formData)
      ensures sent == ApiClient.LoginRequest(formData.username, formData.password)
    {
      errors := LoginFields("", "");
      sent := ApiClient.LoginRequest(formData.username, formData.password);
    }

    /** The mutation's `onSuccess`: the response's token and username go to the provider's `login`. */
    method OnSuccess(auth: AuthProvider.AuthProvider, data: ApiClient.LoginBody)
      modifies auth, auth.storage
      ensures auth.Snap() == AuthProvider.LoginStep(old(auth.Snap()), auth.key, data.accessToken, data.username)
    {
      auth.Login(data.accessToken, data.username);
    }

    /** The mutation's `onError`. */
    method OnError(detail: ApiClient.ErrorDetail)
      modifies this
      ensures errors == RouteLoginError(old(errors), detail) && formData == old(formData)
    {
      errors := RouteLoginError(errors, detail);
    }
  }
}
