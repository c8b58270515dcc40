/** The three-way session state (clin/clin/AuthenticationState.swift). */
module AuthenticationStates {
  import opened Wrappers
  import opened Users

  datatype AuthenticationState = Unauthenticated | Authenticating | Authenticated(user: User) {

    /** The computed property `isAuthenticated`. */
    predicate IsAuthenticated() {
      match this
      case Authenticated(_) => true
      case Unauthenticated | Authenticating => false
    }

    /** The computed property `currentUser`. */
    function CurrentUser(): Option<User> {
      match this
      case Authenticated(u) => Some(u)
      case Unauthenticated | Authenticating => None
    }

    /** The computed property `isLoading`. */
    predicate IsLoading() {
      match this
      case Authenticating => true
      case Unauthenticated | Authenticated(_) => false
    }
  }

  /** The state whose three derived flags are the given ones, if there is one. */
  function FromFlags(isAuthenticated: bool, currentUser: Option<User>, isLoading: bool): Option<AuthenticationState> {
    if isAuthenticated && !isLoading && currentUser.Some? then Some(Authenticated(currentUser.value))
    else if !isAuthenticated && isLoading && currentUser.None? then Some(Authenticating)
    else if !isAuthenticated && !isLoading && currentUser.None? then Some(Unauthenticated)
    else None
  }

  /** Each flag picks out its case, and `currentUser` is the user held by `.authenticated`. */
  lemma {:induction false} DerivedFlags(st: AuthenticationState)
    ensures st.IsAuthenticated() <==> st.Authenticated?
    ensures st.IsLoading() <==> st == Authenticating
    ensures forall u :: st.CurrentUser() == Some(u) <==> st == Authenticated(u)
    ensures st.CurrentUser() == None <==> !st.Authenticated?
  {
  }

  /** No state is both authenticated and loading, and a user is present exactly when authenticated. */
  lemma {:induction false} FlagsConsistent(st: AuthenticationState)
    ensures !(st.IsAuthenticated() && st.IsLoading())
    ensures st.CurrentUser().Some? <==> st.IsAuthenticated()
  {
  }

  /** The derived flags determine the state: FromFlags inverts them ... */
  lemma {:induction false} FromFlagsInverts(st: AuthenticationState)
    ensures FromFlags(st.IsAuthenticated(), st.CurrentUser(), st.IsLoading()) == Some(st)
  {
  }

  /** ... and whatever FromFlags returns has exactly the given flags. */
  lemma {:induction false} FromFlagsSound(isAuthenticated: bool, currentUser: Option<User>, isLoading: bool)
    ensures FromFlags(isAuthenticated, currentUser, isLoading).Some? <==>
      !(isAuthenticated && isLoading) && (currentUser.Some? <==> isAuthenticated)
    ensures match FromFlags(isAuthenticated, currentUser, isLoading)
      case Some(st) =>
        st.IsAuthenticated() == isAuthenticated && st.CurrentUser() == currentUser && st.IsLoading() == isLoading
      case None => true
  {
  }

  /** Synthesised equality: two authenticated states are equal exactly when their users are. */
  lemma {:induction false} AuthenticatedEquality(u1: User, u2: User)
    ensures Authenticated(u1) == Authenticated(u2) <==> u1 == u2
  {
  }
}
