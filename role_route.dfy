/** The guard of the pages reserved to some roles. */
module RoleRoute {
  import opened Base
  import opened PrivateRoute


  /** `RoleRoute`: as the private guard, and then a signed-in user whose role
      is not allowed is sent to the access-denied page. */
  function Guard(loading: bool, user: Option<CurrentUser>, allowedRoles: seq<string>): (v: RouteView)
    ensures loading ==> v == Spinner
    ensures !loading && user.None? ==> v == Redirect(LoginPath)
    ensures !loading && user.Some? ==>
              (v == Outlet <==> user.value.role in allowedRoles) &&
              (v == Redirect(AccessDeniedPath) <==> user.value.role !in allowedRoles)
  {
    if loading then Spinner
    else if user.None? then Redirect(LoginPath)
    else if user.value.role !in allowedRoles then Redirect(AccessDeniedPath)
    else Outlet
  }

  /** The role guard lets through only what the private guard lets through,
      and differs from it only by denying a role; with no allowed role every
      signed-in user is denied. */
  lemma {:induction false} RoleRouteRefinesPrivate(loading: bool, user: Option<CurrentUser>, allowedRoles: seq<string>)
    ensures Guard(loading, user, allowedRoles) == Outlet ==> PrivateRoute.Guard(loading, user) == Outlet
    ensures Guard(loading, user, allowedRoles) != PrivateRoute.Guard(loading, user) ==>
              Guard(loading, user, allowedRoles) == Redirect(AccessDeniedPath) &&
              user.Some? && user.value.role !in allowedRoles
    ensures !loading && user.Some? && allowedRoles == [] ==> Guard(loading, user, allowedRoles) == Redirect(AccessDeniedPath)
  {
  }
}
