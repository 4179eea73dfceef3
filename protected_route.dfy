/**
 * The route guard (utils/ProtectedRoute.jsx): a signed-in user whose role is
 * allowed sees the guarded page; anyone else is redirected.
 */
module ProtectedRoute {
  import opened Wrappers

  /** What the guard renders: a redirect to a path, or the guarded children. */
  datatype Outcome = Redirect(to: string) | Children

  const LoginPath: string := "/login"
  const ReportsPath: string := "/reports"

  /**
   * The guard's decision. `userRole` is None when the user has no role;
   * `allowedRoles.includes(userRole)` compares it with each allowed role.
   */
  function Decide(isLoggedIn: bool, userRole: Option<string>, allowedRoles: seq<string>): (r: Outcome)
    ensures !isLoggedIn ==> r == Redirect(LoginPath)
    ensures isLoggedIn && userRole.Some? && userRole.value in allowedRoles ==> r == Children
    ensures isLoggedIn && !(userRole.Some? && userRole.value in allowedRoles) ==> r == Redirect(ReportsPath)
    ensures r == Children <==> isLoggedIn && userRole.Some? && userRole.value in allowedRoles
  {
    if !isLoggedIn then Redirect(LoginPath)
    else if !(userRole.Some? && userRole.value in allowedRoles) then Redirect(ReportsPath)
    else Children
  }

  /** With no allowed role the children are never shown. */
  lemma EmptyAllowedRolesNeverRender(isLoggedIn: bool, userRole: Option<string>)
    ensures Decide(isLoggedIn, userRole, []) != Children
  {
  }

  /** Whatever the role, a signed-out user is sent to the login page. */
  lemma SignedOutAlwaysLogin(userRole: Option<string>, allowedRoles: seq<string>)
    ensures Decide(false, userRole, allowedRoles) == Redirect(LoginPath)
  {
  }
}
