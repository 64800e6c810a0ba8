/**
 * The `auth` slice of the client-side store
 * (src/store/slices/authSlice.ts): who is signed in, and whether anyone is.
 */
module AuthSlice {
  import opened Wrappers

  /** The signed-in user as the API returns it. */
  datatype User = User(id: int, name: string, username: string, email: string,
                       avatarUrl: Option<string>, phone: Option<string>)

  datatype AuthState = AuthState(user: Option<User>, isAuthenticated: bool)

  /** The two action creators the slice exports. */
  datatype Action = SetCredentials(payload: User) | ClearCredentials

  const INITIAL_STATE := AuthState(None, false)

  /** A user is recorded exactly when the state says someone is signed in. */
  predicate Consistent(state: AuthState) {
    state.isAuthenticated <==> state.user.Some?
  }

  /**
   * `authSlice.reducer`. Both cases overwrite both fields, so the result is
   * consistent whatever the state was.
   */
  function Reduce(state: AuthState, action: Action): (r: AuthState)
    ensures Consistent(r)
    ensures action.SetCredentials? ==> r.user == Some(action.payload) && r.isAuthenticated
    ensures action.ClearCredentials? ==> r == INITIAL_STATE
  {
    match action
    case SetCredentials(user) => state.(user := Some(user), isAuthenticated := true)
    case ClearCredentials => state.(user := None, isAuthenticated := false)
  }

  /** The state after dispatching `actions` in order. */
  function ReduceAll(state: AuthState, actions: seq<Action>): AuthState
    decreases |actions|
  {
    if actions == [] then state else ReduceAll(Reduce(state, actions[0]), actions[1..])
  }

  lemma InitialStateConsistent()
    ensures Consistent(INITIAL_STATE)
    ensures INITIAL_STATE.user == None && !INITIAL_STATE.isAuthenticated
  {
  }

  /** Dispatching the same action twice is the same as dispatching it once. */
  lemma ReduceIdempotent(state: AuthState, action: Action)
    ensures Reduce(Reduce(state, action), action) == Reduce(state, action)
  {
  }

  /** The result of an action does not depend on the state it is applied to. */
  lemma ReduceForgetsState(state: AuthState, other: AuthState, action: Action)
    ensures Reduce(state, action) == Reduce(other, action)
  {
  }

  /** Signing in and then out returns the slice to its initial state. */
  lemma SetThenClearIsInitial(state: AuthState, user: User)
    ensures Reduce(Reduce(state, SetCredentials(user)), ClearCredentials) == INITIAL_STATE
  {
  }

  /** Every state reachable from the initial state by any sequence of actions is consistent. */
  lemma {:induction false} ReachableConsistent(state: AuthState, actions: seq<Action>)
    requires Consistent(state)
    ensures Consistent(ReduceAll(state, actions))
    decreases |actions|
  {
    if actions != [] {
      ReachableConsistent(Reduce(state, actions[0]), actions[1..]);
    }
  }

  /** After a non-empty sequence of actions only the last one matters. */
  lemma {:induction false} LastActionDecides(state: AuthState, actions: seq<Action>)
    requires actions != []
    ensures ReduceAll(state, actions) == Reduce(INITIAL_STATE, actions[|actions| - 1])
    decreases |actions|
  {
    if |actions| > 1 {
      LastActionDecides(Reduce(state, actions[0]), actions[1..]);
      assert actions[1..][|actions[1..]| - 1] == actions[|actions| - 1];
    }
  }

  /** The Immer draft the reducers assign to, field by field. */
  class AuthDraft {
    var user: Option<User>
    var isAuthenticated: bool

    function State(): AuthState
      reads this
    {
      AuthState(user, isAuthenticated)
    }

    constructor ()
      ensures State() == INITIAL_STATE
    {
      user, isAuthenticated := None, false;
    }

    /** The `setCredentials` case reducer. */
    method SetCredentials(u: User)
      modifies this
      ensures State() == Reduce(old(State()), Action.SetCredentials(u))
      ensures Consistent(State())
    {
      user := Some(u);
      isAuthenticated := true;
    }

    /** The `clearCredentials` case reducer. */
    method ClearCredentials()
      modifies this
      ensures State() == Reduce(old(State()), Action.ClearCredentials)
      ensures State() == INITIAL_STATE
    {
      user := None;
      isAuthenticated := false;
    }
  }
}
