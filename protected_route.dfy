/** The client-side gate of src/components/ProtectedRoute.tsx. `router.push` is
    represented by the target it is given, and rendering by which of three
    views is shown. */
module ProtectedRoute {
  import opened Wrappers

  /** The user object the client auth hook holds (the `user` of `/api/auth/me`). */
  datatype ClientUser = ClientUser(id: string, username: string, email: string, isAdmin: bool, createdAt: string)

  datatype View = LoadingIndicator | Nothing | Children

  /** What one render of the component does: the navigation its effect
      starts, if any, and what it returns. */
  datatype RouteOutcome = RouteOutcome(push: Option<string>, shows: View)

  /** `requireAdmin = false` in the component's parameter list. */
  const DefaultRequireAdmin := false

  function Outcome(loading: bool, user: Option<ClientUser>, requireAdmin: bool): (r: RouteOutcome)
    ensures loading ==> r == RouteOutcome(None, LoadingIndicator)
    ensures !loading && user.None? ==> r == RouteOutcome(Some("/login"), Nothing)
    ensures !loading && user.Some? && requireAdmin && !user.value.isAdmin
            ==> r == RouteOutcome(Some("/unauthorized"), Nothing)
    ensures r.shows == Children <==> !loading && user.Some? && (!requireAdmin || user.value.isAdmin)
    ensures r.push.Some? ==> r.shows == Nothing && (r.push == Some("/login") <==> user.None?)
    ensures r.push.None? <==> r.shows != Nothing
  {
    var push :=
      if loading then None
      else if user.None? then Some("/login")
      else if requireAdmin && !user.value.isAdmin then Some("/unauthorized")
      else None;
    var shows :=
      if loading then LoadingIndicator
      else if user.None? || (requireAdmin && !user.value.isAdmin) then Nothing
      else Children;
    RouteOutcome(push, shows)
  }

  /** With the default `requireAdmin`, any signed-in user sees the children. */
  lemma DefaultNeedsOnlyALogin(user: ClientUser)
    ensures Outcome(false, Some(user), DefaultRequireAdmin) == RouteOutcome(None, Children)
  {
  }
}
