/** The guard of src/components/common/ProtectedRoute.js: show a spinner
    while the authentication check is pending or a request is in flight,
    otherwise send a signed-out visitor to the login page (remembering where
    they were going), otherwise render the protected page. */
module ProtectedRoute {
  import opened Values
  import opened Navigation
  import AuthStore

  datatype Decision =
    | Spinner
    | Redirect(to: string, state: NavState, replace: bool)
    | RenderChildren

  /** Lines 14-31. `initialCheckComplete` is its truthiness: `undefined`
      counts as false. */
  function Decide(initialCheckComplete: bool, loading: bool, isAuthenticated: bool, location: Location): (d: Decision)
    ensures d.Spinner? <==> !initialCheckComplete || loading
    ensures d.RenderChildren? <==> initialCheckComplete && !loading && isAuthenticated
    ensures d.Redirect? <==> initialCheckComplete && !loading && !isAuthenticated
    ensures d.Redirect? ==> d == Redirect("/login", NavState(Some(location), None), true)
  {
    if !initialCheckComplete || loading then Spinner
    else if !isAuthenticated then Redirect("/login", NavState(Some(location), None), true)
    else RenderChildren
  }

  /** The location the login page is entered with after a redirect. */
  function LoginLocation(d: Decision): Location
    requires d.Redirect?
  {
    Location(d.to, "", "", Some(d.state))
  }

  // ------------------------------------------------------------------ as wired in the app

  /** What `useAuth()` hands the guard: the reducer state spread into the
      context value (src/context/authContext.js:144-151), which has no
      `initialCheckComplete` member. Reading it yields `undefined`. */
  function ProvidedInitialCheckComplete(s: AuthStore.State): bool {
    false
  }

  /** The guard as the application wires it. */
  function DecideInApp(s: AuthStore.State, location: Location): Decision {
    Decide(ProvidedInitialCheckComplete(s), s.loading, s.isAuthenticated, location)
  }

  /** As wired, every protected page shows the spinner forever, whoever is
      signed in. */
  lemma AppNeverRendersProtectedPages(s: AuthStore.State, location: Location)
    ensures DecideInApp(s, location) == Spinner
  {
  }

  /** The evidently intended wiring: the provider also exposes a flag that
      its token check sets once it has finished. */
  function DecideWithCheckFlag(s: AuthStore.State, checkDone: bool, location: Location): Decision {
    Decide(checkDone, s.loading, s.isAuthenticated, location)
  }

  /** With the flag supplied, once the check is done and nothing is loading a
      signed-in user sees the page and a signed-out visitor is redirected to
      the login page. */
  lemma CheckFlagLetsSignedInUsersThrough(s: AuthStore.State, location: Location)
    requires !s.loading
    ensures s.isAuthenticated ==> DecideWithCheckFlag(s, true, location) == RenderChildren
    ensures !s.isAuthenticated ==> DecideWithCheckFlag(s, true, location).Redirect?
  {
  }
}
