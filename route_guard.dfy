/**
 * The access decision of the protected routes (src/components/ProtectedRoute.tsx) and the
 * role lists the application's routes are wired with (src/App.tsx).
 */
module RouteGuard {
  import opened Types

  /** The signed-in user's profile; only its role matters here. */
  datatype Profile = Profile(role: string)

  /** What the guard renders. */
  datatype Outcome = ShowLoading | RedirectToLogin | RenderChildren | RedirectToHome

  /** The guard's decision from the auth state and the route's allowed roles. */
  function Decide(loading: bool, hasSession: bool, profile: Option<Profile>, allowedRoles: seq<string>): (o: Outcome)
    ensures o == ShowLoading <==> loading
    ensures o == RedirectToLogin <==> !loading && !hasSession
    ensures o == RenderChildren <==> !loading && hasSession && profile.Some? && profile.value.role in allowedRoles
    ensures o == RedirectToHome <==>
      !loading && hasSession && (profile.None? || profile.value.role !in allowedRoles)
  {
    if loading then ShowLoading
    else if !hasSession then RedirectToLogin
    else if profile.Some? && profile.value.role in allowedRoles then RenderChildren
    else RedirectToHome
  }

  /** The roles of the application's main routes: home, search, playlists, artists. */
  const AppRoles: seq<string> := ["admin", "user"]

  /** The roles of the administration route. */
  const AdminRoles: seq<string> := ["admin"]

  /** Which routes a signed-in user with a loaded profile reaches. */
  lemma {:induction false} RoleAccess(role: string)
    ensures Decide(false, true, Some(Profile(role)), AdminRoles) == RenderChildren <==> role == "admin"
    ensures Decide(false, true, Some(Profile(role)), AppRoles) == RenderChildren <==> role == "admin" || role == "user"
  {
  }

  /** Whoever may open the administration route may also open every main route. */
  lemma {:induction false} AdminRouteImpliesAppRoutes(loading: bool, hasSession: bool, profile: Option<Profile>)
    requires Decide(loading, hasSession, profile, AdminRoles) == RenderChildren
    ensures Decide(loading, hasSession, profile, AppRoles) == RenderChildren
  {
  }

  /** A longer role list never turns an admitted visitor away. */
  lemma {:induction false} MoreRolesAdmitMore(loading: bool, hasSession: bool, profile: Option<Profile>, fewer: seq<string>, more: seq<string>)
    requires forall r :: r in fewer ==> r in more
    requires Decide(loading, hasSession, profile, fewer) == RenderChildren
    ensures Decide(loading, hasSession, profile, more) == RenderChildren
  {
  }
}
