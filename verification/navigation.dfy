/** The router locations the guarded route and the forms pass between each
    other: a location carries optional navigation state, which may name the
    location to come back to (`from`) or a path to return to (`returnTo`). */
module Navigation {
  import opened Values

  datatype Location = Location(pathname: string, search: string, hash: string, state: Option<NavState>)

  datatype NavState = NavState(from: Option<Location>, returnTo: Option<string>)

  /** `location.state?.from?.pathname`. */
  function FromPathname(location: Location): Option<string> {
    if location.state.Some? && location.state.value.from.Some?
    then Some(location.state.value.from.value.pathname)
    else None
  }

  /** `location.state?.returnTo`. */
  function ReturnTo(location: Location): Option<string> {
    if location.state.Some? then location.state.value.returnTo else None
  }

  /** `Boolean(id)` for a route parameter: present and non-empty. */
  predicate IsEditMode(routeId: Option<string>) {
    routeId.Some? && routeId.value != ""
  }
}
