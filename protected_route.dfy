/**
 * The route gate (`ProtectedRoute`): a signed-out visitor is sent to the
 * home page; so is a signed-in user without the admin role on a route that
 * requires it; everyone else sees the route's children.
 */
module ProtectedRoute {
  import opened Wrappers
  import opened UserContext

  datatype Outcome = Redirect(to: string) | RenderChildren

  const Home: string := "/"

  /** The gate; `requireAdmin` defaults to false at the call sites that omit it. */
  function Gate(user: Option<User>, requireAdmin: bool): (o: Outcome)
    ensures !IsAuthenticated(user) ==> o == Redirect(Home)
    ensures requireAdmin && !IsAdmin(user) ==> o == Redirect(Home)
    ensures o == RenderChildren <==> IsAuthenticated(user) && (!requireAdmin || IsAdmin(user))
    ensures o.Redirect? ==> o.to == Home
  {
    if !IsAuthenticated(user) then Redirect(Home)
    else if requireAdmin && !IsAdmin(user) then Redirect(Home)
    else RenderChildren
  }

  /** An admin route opens exactly for a signed-in admin, and an admin can
      open every route. */
  lemma AdminRouteOnlyForAdmins(user: Option<User>)
    ensures Gate(user, true) == RenderChildren <==> user.Some? && user.value.role == Admin
    ensures IsAdmin(user) ==> Gate(user, false) == RenderChildren
  {
  }

  /** A route that opens with `requireAdmin` also opens without it. */
  lemma RequireAdminOnlyNarrows(user: Option<User>)
    ensures Gate(user, true) == RenderChildren ==> Gate(user, false) == RenderChildren
  {
  }

  /** After a successful sign-in with the admin pair every route opens; with
      the customer pair plain routes open and admin routes redirect; after a
      sign-out every route redirects. */
  lemma GateAfterSessionChanges()
    ensures Gate(Authenticate(AdminEmail, AdminPassword), true) == RenderChildren
    ensures Gate(Authenticate(CustomerEmail, CustomerPassword), false) == RenderChildren
    ensures Gate(Authenticate(CustomerEmail, CustomerPassword), true) == Redirect(Home)
    ensures Gate(None, false) == Redirect(Home) && Gate(None, true) == Redirect(Home)
  {
    KnownCredentials();
  }
}
