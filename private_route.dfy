/** The guard of the pages that need a signed-in user. */
module PrivateRoute {
  import opened Base

  /** The signed-in user as the authentication context holds it. */
  datatype CurrentUser = CurrentUser(id: nat, role: string)

  /** What a guard renders: the loading text, a redirection, or the
      protected page. */
  datatype RouteView = Spinner | Redirect(to: string) | Outlet

  const LoginPath: string := "/login"
  const AccessDeniedPath: string := "/access-denied"

  /** `PrivateRoute`: the loading text while the session is restored, the
      login page without a user, the page otherwise. */
  function Guard(loading: bool, user: Option<CurrentUser>): (v: RouteView)
    ensures loading ==> v == Spinner
    ensures !loading && user.None? ==> v == Redirect(LoginPath)
    ensures !loading && user.Some? ==> v == Outlet
  {
    if loading then Spinner
    else if user.None? then Redirect(LoginPath)
    else Outlet
  }

  /** The decision depends only on the loading flag and on whether a user
      is signed in, never on who it is, and it never denies access. */
  lemma {:induction false} PrivateRouteIgnoresRole(loading: bool, u: Option<CurrentUser>, w: Option<CurrentUser>)
    requires u.Some? == w.Some?
    ensures Guard(loading, u) == Guard(loading, w)
    ensures Guard(loading, u) != Redirect(AccessDeniedPath)
  {
  }
}
