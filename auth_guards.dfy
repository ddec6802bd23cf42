/**
 * The route guards of frontend/src/context/AuthGuards.jsx: what
 * `ProtectedRoute` and `GuestRoute` render for a given `(user, loading)`.
 */
module AuthGuards {
  import opened Wrappers
  import opened AuthProvider

  /** What a guard renders: the spinner, a redirect, or the guarded page. */
  datatype Rendered = Spinner | Redirect(to: string) | Children

  /** `ProtectedRoute`: only a signed-in user reaches the page. */
  function ProtectedRoute(user: Option<User>, loading: bool): (r: Rendered)
    ensures loading ==> r == Spinner
    ensures r == Redirect("/login") <==> !loading && user.None?
    ensures r == Children <==> !loading && user.Some?
  {
    if loading then Spinner
    else if user.None? then Redirect("/login")
    else Children
  }

  /** `GuestRoute`: only a signed-out visitor reaches the page. */
  function GuestRoute(user: Option<User>, loading: bool): (r: Rendered)
    ensures loading ==> r == Spinner
    ensures r == Redirect("/dashboard") <==> !loading && user.Some?
    ensures r == Children <==> !loading && user.None?
  {
    if loading then Spinner
    else if user.Some? then Redirect("/dashboard")
    else Children
  }

  /** Once loading is over, exactly one of the two guards lets its page through. */
  lemma ExactlyOneGuardPasses(user: Option<User>, loading: bool)
    requires !loading
    ensures (ProtectedRoute(user, loading) == Children) != (GuestRoute(user, loading) == Children)
  {
  }

  /** After `initialize`, neither guard is stuck on the spinner. */
  lemma NoSpinnerAfterInitialize(s: Session, key: string, decode: TokenCodec.Decoder, nowMs: int)
    ensures var st := InitializeStep(s, key, decode, nowMs).state;
            ProtectedRoute(st.user, st.loading) != Spinner && GuestRoute(st.user, st.loading) != Spinner
  {
  }
}
