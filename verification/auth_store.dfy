/** `authReducer` of src/context/authContext.js. The provider's initial
    state (read from local storage), its effects and the login / register
    action creators are not part of this model. */
module AuthStore {
  import opened Values
  import opened Entities

  datatype State = State(isAuthenticated: bool, user: Option<User>, loading: bool, error: Option<string>)

  datatype Action =
    | AuthRequest
    | LoginSuccess(user: User)
    | AuthError(message: string)
    | Logout
    | ClearError
    | RegisterSuccess
    /** An action type the reducer has no case for (its `default`). */
    | Unhandled(name: string)
  {
    /** The actions that decide who is signed in. */
    predicate IsSession() { LoginSuccess? || Logout? }
  }

  /** `authReducer` (lines 16-60). */
  function Reduce(s: State, a: Action): (r: State)
    ensures !a.IsSession() ==> r.isAuthenticated == s.isAuthenticated && r.user == s.user
    ensures a.AuthRequest? ==> r.loading && r.error == None
    ensures a.LoginSuccess? ==> r == State(true, Some(a.user), false, None)
    ensures a.AuthError? ==> !r.loading && r.error == Some(a.message)
    ensures a.Logout? ==> r == State(false, None, false, None)
    ensures a.ClearError? ==> r == s.(error := None)
    ensures a.RegisterSuccess? ==> !r.loading && r.error == None
    ensures a.Unhandled? ==> r == s
  {
    match a
    case AuthRequest => s.(loading := true, error := None)
    case LoginSuccess(user) => s.(isAuthenticated := true, user := Some(user), loading := false, error := None)
    case AuthError(message) => s.(loading := false, error := Some(message))
    case Logout => s.(isAuthenticated := false, user := None, loading := false, error := None)
    case ClearError => s.(error := None)
    case RegisterSuccess => s.(loading := false, error := None)
    case Unhandled(_) => s
  }

  /** Logging out twice is logging out once. */
  lemma LogoutIdempotent(s: State)
    ensures Reduce(Reduce(s, Logout), Logout) == Reduce(s, Logout)
  {
  }

  /** The state after dispatching `actions` in order. */
  function Run(s: State, actions: seq<Action>): State
    decreases |actions|
  {
    if |actions| == 0 then s else Reduce(Run(s, actions[..|actions| - 1]), actions[|actions| - 1])
  }

  /** The last login or logout in `actions`, if any. */
  function LastSession(actions: seq<Action>): Option<Action>
    decreases |actions|
  {
    if |actions| == 0 then None
    else if actions[|actions| - 1].IsSession() then Some(actions[|actions| - 1])
    else LastSession(actions[..|actions| - 1])
  }

  /** Whoever is signed in after a run is decided by the last login or
      logout alone: signed in as that login's user, or signed out; requests,
      errors, registrations and error clearing never change it. */
  lemma {:induction false} SessionFollowsLastLogin(s: State, actions: seq<Action>)
    ensures var r := Run(s, actions);
      match LastSession(actions)
      case Some(LoginSuccess(u)) => r.isAuthenticated && r.user == Some(u)
      case Some(_) => !r.isAuthenticated && r.user == None
      case None => r.isAuthenticated == s.isAuthenticated && r.user == s.user
    decreases |actions|
  {
    if |actions| > 0 {
      SessionFollowsLastLogin(s, actions[..|actions| - 1]);
    }
  }
}
