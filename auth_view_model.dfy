/** The view model behind the login and registration screens (clin/clin/AuthViewModel.swift). */
module AuthViewModels {
  import opened Wrappers
  import opened Users
  import opened ValidationErrors
  import opened Text
  import opened EmailValidation
  import opened MockAuth
  import opened AuthenticationStates

  /** The four published properties, as one value. */
  datatype Session = Session(isAuthenticated: bool, currentUser: Option<User>, isLoading: bool, errorMessage: Option<string>)

  /** The property initialisers: signed out, idle, no error. */
  const InitialSession := Session(false, None, false, None)

  /** The message shown for an error that is not a ValidationError. */
  const UnexpectedErrorMessage := "An unexpected error occurred. Please try again."

  /** Signed out exactly when no user is held, and no operation is in progress. */
  predicate Consistent(s: Session) {
    !s.isLoading && (s.isAuthenticated <==> s.currentUser.Some?)
  }

  /** The guards of `login`, in order: a blank email, then an empty password. */
  function LoginValidation(email: string, password: string): (r: Option<ValidationError>)
    ensures r == Some(EmptyField("Email")) <==> Trim(email) == []
    ensures r == Some(EmptyField("Password")) <==> Trim(email) != [] && password == []
    ensures r.None? <==> Trim(email) != [] && password != []
  {
    if Trim(email) == [] then Some(EmptyField("Email"))
    else if password == [] then Some(EmptyField("Password"))
    else None
  }

  /**
   * The guards of `register`, in order, on the trimmed email: blank, malformed, empty
   * password, fewer than eight characters, confirmation differs.
   */
  function RegisterValidation(email: string, password: string, confirmPassword: string): (r: Option<ValidationError>)
    ensures r.None? <==> IsValidEmail(Trim(email)) && |password| >= 8 && password == confirmPassword
    ensures r.Some? ==> r.value in {EmptyField("Email"), InvalidEmail, EmptyField("Password"), WeakPassword, PasswordMismatch}
  {
    var trimmedEmail := Trim(email);
    if trimmedEmail == [] then Some(EmptyField("Email"))
    else if !IsValidEmail(trimmedEmail) then Some(InvalidEmail)
    else if password == [] then Some(EmptyField("Password"))
    else if |password| < 8 then Some(WeakPassword)
    else if password != confirmPassword then Some(PasswordMismatch)
    else None
  }

  /** The properties once the service call has returned `r` (the `do`/`catch` of both operations). */
  function Settle(r: Outcome): (s: Session)
    ensures Consistent(s)
    ensures s.isAuthenticated <==> r.Success?
    ensures r.Success? ==> s.currentUser == Some(r.value) && s.errorMessage == None
    ensures r.Failure? && r.error.Validation? ==> s.errorMessage == Some(LocalizedDescription(r.error.error))
    ensures r == Failure(DelayInterrupted) ==> s.errorMessage == Some(UnexpectedErrorMessage)
  {
    match r
    case Success(user) => Session(true, Some(user), false, None)
    case Failure(Validation(e)) => Session(false, None, false, Some(LocalizedDescription(e)))
    case Failure(DelayInterrupted) => Session(false, None, false, Some(UnexpectedErrorMessage))
  }

  /** A guard that fails sets only the message; the other properties keep their values. */
  function Rejected(s: Session, e: ValidationError): Session {
    s.(errorMessage := Some(LocalizedDescription(e)))
  }

  /** The properties after `login`, given what `authenticate` returns or throws. */
  function AfterLogin(s: Session, email: string, password: string, r: Outcome): Session {
    match LoginValidation(email, password)
    case Some(e) => Rejected(s, e)
    case None => Settle(r)
  }

  /** The properties after `register`, given what `createAccount` returns or throws. */
  function AfterRegister(s: Session, email: string, password: string, confirmPassword: string, r: Outcome): Session {
    match RegisterValidation(email, password, confirmPassword)
    case Some(e) => Rejected(s, e)
    case None => Settle(r)
  }

  /** What `createAccount` returns or throws when `register` calls it with the trimmed email. */
  function RegisterOutcome(users: map<string, Credential>, email: string, password: string,
                           id: Uuid, now: Timestamp, interrupted: bool): Outcome {
    CreateAccountOutcome(users, Trim(email), password, id, now, interrupted)
  }

  /** The accounts after `register`: no call to the store at all when a guard fails. */
  function AccountsAfterRegister(users: map<string, Credential>, email: string, password: string, confirmPassword: string,
                                 id: Uuid, now: Timestamp, interrupted: bool): map<string, Credential> {
    if RegisterValidation(email, password, confirmPassword).Some? then users
    else AccountsAfterCreate(users, Trim(email), password, RegisterOutcome(users, email, password, id, now, interrupted))
  }

  /** The properties after `logout`. */
  function AfterLogout(s: Session): (r: Session)
    ensures r == InitialSession
  {
    Session(false, None, false, None)
  }

  /** The properties after `clearError`. */
  function AfterClearError(s: Session): (r: Session)
    ensures r.errorMessage == None
    ensures r.isAuthenticated == s.isAuthenticated && r.currentUser == s.currentUser && r.isLoading == s.isLoading
  {
    s.(errorMessage := None)
  }

  // ---- login ----

  /** A blank email (empty, or only whitespace) stops `login` before the service is asked. */
  lemma {:induction false} LoginBlankEmailRejected(s: Session, email: string, password: string, r: Outcome)
    requires forall i :: 0 <= i < |email| ==> IsWhitespace(email[i])
    ensures AfterLogin(s, email, password, r) == s.(errorMessage := Some("Email is required"))
  {
    EmptyFieldMessages();
  }

  /** An empty password stops `login` once the email is not blank. */
  lemma {:induction false} LoginEmptyPasswordRejected(s: Session, email: string, r: Outcome)
    requires Trim(email) != []
    ensures AfterLogin(s, email, "", r) == s.(errorMessage := Some("Password is required"))
  {
    EmptyFieldMessages();
  }

  /**
   * The password is not trimmed: one made only of whitespace is not empty, so `login`
   * passes it on to the service, unlike an email made only of whitespace.
   */
  lemma {:induction false} LoginWhitespacePasswordReachesService(s: Session, email: string, password: string, r: Outcome)
    requires Trim(email) != [] && password != []
    requires forall i :: 0 <= i < |password| ==> IsWhitespace(password[i])
    ensures Trim(password) == []
    ensures AfterLogin(s, email, password, r) == Settle(r)
  {
  }

  /**
   * `login` against the store signs the user in exactly when its guards pass and the
   * normalized email holds that password, with the stored user; a failed credential check
   * leaves the user signed out with "Invalid email or password".
   */
  lemma {:induction false} LoginCorrect(s: Session, users: map<string, Credential>, email: string, password: string)
    ensures var after := AfterLogin(s, email, password, AuthenticateOutcome(users, email, password, false));
      var key := NormalizeEmail(email);
      && (after.isAuthenticated <==>
            (s.isAuthenticated && Trim(email) == []) || (s.isAuthenticated && password == [])
            || (Trim(email) != [] && password != [] && key in users && users[key].password == password))
      && (Trim(email) != [] && password != [] && key in users && users[key].password == password ==>
            after == Session(true, Some(users[key].user), false, None))
      && (Trim(email) != [] && password != [] && !(key in users && users[key].password == password) ==>
            after == Session(false, None, false, Some("Invalid email or password")))
  {
    FixedMessages();
  }

  /** Any error that is not a ValidationError shows the generic message and signs the user out. */
  lemma {:induction false} LoginInterruptedShowsGenericMessage(s: Session, users: map<string, Credential>, email: string, password: string)
    requires LoginValidation(email, password).None?
    ensures AfterLogin(s, email, password, AuthenticateOutcome(users, email, password, true))
      == Session(false, None, false, Some(UnexpectedErrorMessage))
  {
  }

  // ---- register ----

  /**
   * The guards of `register` in order; in particular a malformed email is reported even
   * when the password is also too short, and a short password before a mismatch.
   */
  lemma {:induction false} RegisterValidationOrder(email: string, password: string, confirmPassword: string)
    ensures Trim(email) == [] ==> RegisterValidation(email, password, confirmPassword) == Some(EmptyField("Email"))
    ensures Trim(email) != [] && !IsValidEmail(Trim(email)) ==>
      RegisterValidation(email, password, confirmPassword) == Some(InvalidEmail)
    ensures IsValidEmail(Trim(email)) && password == [] ==>
      RegisterValidation(email, password, confirmPassword) == Some(EmptyField("Password"))
    ensures IsValidEmail(Trim(email)) && 0 < |password| < 8 ==>
      RegisterValidation(email, password, confirmPassword) == Some(WeakPassword)
    ensures IsValidEmail(Trim(email)) && |password| >= 8 && password != confirmPassword ==>
      RegisterValidation(email, password, confirmPassword) == Some(PasswordMismatch)
  {
  }

  /** "user@host.c" with a three-character password is reported as a bad email, not a weak password. */
  lemma {:induction false} InvalidEmailBeforeWeakPassword()
    ensures RegisterValidation("user@host.c", "abc", "abc") == Some(InvalidEmail)
  {
    var e := "user@host.c";
    assert !IsWhitespace(e[0]) && !IsWhitespace(e[|e| - 1]);
    TrimOfTrimmed(e);
    OneLetterLabelIsInvalid();
  }

  /** A guard that fails leaves the accounts and the session, but for the message, as they were. */
  lemma {:induction false} RegisterRejectedChangesNothing(s: Session, users: map<string, Credential>, email: string, password: string,
                                       confirmPassword: string, id: Uuid, now: Timestamp, interrupted: bool, r: Outcome)
    requires RegisterValidation(email, password, confirmPassword).Some?
    ensures AccountsAfterRegister(users, email, password, confirmPassword, id, now, interrupted) == users
    ensures var after := AfterRegister(s, email, password, confirmPassword, r);
      after.isAuthenticated == s.isAuthenticated && after.currentUser == s.currentUser && after.isLoading == s.isLoading
      && after.errorMessage.Some?
  {
  }

  /** When a guard of `register` fails, the store is not called and only the message changes. */
  lemma {:induction false} RegisterRejectedEffect(s: Session, users: map<string, Credential>, email: string, password: string,
                               confirmPassword: string, id: Uuid, now: Timestamp, interrupted: bool)
    requires RegisterValidation(email, password, confirmPassword).Some?
    ensures AfterRegister(s, email, password, confirmPassword, RegisterOutcome(users, email, password, id, now, interrupted))
      == Rejected(s, RegisterValidation(email, password, confirmPassword).value)
  {
  }

  /** When the guards of `register` pass, the view model settles on what `createAccount` does with the trimmed email. */
  lemma {:induction false} RegisterAcceptedEffect(s: Session, users: map<string, Credential>, email: string, password: string,
                               confirmPassword: string, id: Uuid, now: Timestamp, interrupted: bool)
    requires RegisterValidation(email, password, confirmPassword).None?
    ensures var r := CreateAccountOutcome(users, Trim(email), password, id, now, interrupted);
      && AfterRegister(s, email, password, confirmPassword, RegisterOutcome(users, email, password, id, now, interrupted)) == Settle(r)
      && AccountsAfterRegister(users, email, password, confirmPassword, id, now, interrupted)
           == AccountsAfterCreate(users, Trim(email), password, r)
  {
  }

  /** The two cases of `register` together: the session and the accounts are AfterRegister's and AccountsAfterRegister's. */
  lemma {:induction false} RegisterEffect(s: Session, s': Session, users: map<string, Credential>, users': map<string, Credential>,
                                          email: string, password: string, confirmPassword: string,
                                          id: Uuid, now: Timestamp, interrupted: bool)
    requires var v := RegisterValidation(email, password, confirmPassword);
      v.Some? ==> s' == Rejected(s, v.value) && users' == users
    requires var r := CreateAccountOutcome(users, Trim(email), password, id, now, interrupted);
      RegisterValidation(email, password, confirmPassword).None? ==>
        s' == Settle(r) && users' == AccountsAfterCreate(users, Trim(email), password, r)
    ensures s' == AfterRegister(s, email, password, confirmPassword, RegisterOutcome(users, email, password, id, now, interrupted))
    ensures users' == AccountsAfterRegister(users, email, password, confirmPassword, id, now, interrupted)
  {
  }

  /**
   * Round trip: a `register` that passes its guards and succeeds signs in a user whose email
   * is the normalized address, and a later `login` with any spelling of the same address and
   * the same password signs in that very user; registering the address again reports the
   * existing account.
   */
  lemma {:induction false} RegisterThenLogin(s: Session, s2: Session, users: map<string, Credential>, email: string,
                                             email2: string, password: string, id: Uuid, now: Timestamp,
                                             id2: Uuid, now2: Timestamp)
    requires RegisterValidation(email, password, password).None?
    requires RegisterOutcome(users, email, password, id, now, false).Success?
    requires NormalizeEmail(email2) == NormalizeEmail(email) && Trim(email2) != []
    ensures var r := RegisterOutcome(users, email, password, id, now, false);
      var users' := AccountsAfterRegister(users, email, password, password, id, now, false);
      && AfterRegister(s, email, password, password, r) == Session(true, Some(r.value), false, None)
      && r.value == User(id, NormalizeEmail(email), now)
      && AfterLogin(s2, email2, password, AuthenticateOutcome(users', email2, password, false)) == Session(true, Some(r.value), false, None)
      && AfterRegister(s2, email, password, password, RegisterOutcome(users', email, password, id2, now2, false))
           == Session(false, None, false, Some("An account with this email already exists"))
  {
    var r := RegisterOutcome(users, email, password, id, now, false);
    RegisterStoresNormalizedUser(users, email, password, id, now);
    var users' := AccountsAfterRegister(users, email, password, password, id, now, false);
    RegisteredSettles(s, email, password, r);
    StoredAccountAuthenticates(s2, users', email2, password, r.value);
    StoredAccountExists(s2, users', email, password, id2, now2);
  }

  /** A successful `register` stores, under the normalized address, a fresh user carrying that address. */
  lemma {:induction false} RegisterStoresNormalizedUser(users: map<string, Credential>, email: string, password: string,
                                                        id: Uuid, now: Timestamp)
    requires RegisterValidation(email, password, password).None?
    requires RegisterOutcome(users, email, password, id, now, false).Success?
    ensures var r := RegisterOutcome(users, email, password, id, now, false);
      && r.value == User(id, NormalizeEmail(email), now)
      && AccountsAfterRegister(users, email, password, password, id, now, false)
           == users[NormalizeEmail(email) := Credential(password, r.value)]
  {
    NormalizeOfTrim(email);
  }

  /** A `register` whose guards pass and whose store call succeeds signs that user in. */
  lemma {:induction false} RegisteredSettles(s: Session, email: string, password: string, r: Outcome)
    requires RegisterValidation(email, password, password).None? && r.Success?
    ensures AfterRegister(s, email, password, password, r) == Session(true, Some(r.value), false, None)
  {
  }

  /** `login` with a stored address and its password signs in the stored user. */
  lemma {:induction false} StoredAccountAuthenticates(s: Session, users: map<string, Credential>, email: string, password: string, u: User)
    requires NormalizeEmail(email) in users && users[NormalizeEmail(email)] == Credential(password, u)
    requires Trim(email) != [] && password != []
    ensures AfterLogin(s, email, password, AuthenticateOutcome(users, email, password, false)) == Session(true, Some(u), false, None)
  {
  }

  /** `register` for an address whose key is already stored reports the existing account. */
  lemma {:induction false} StoredAccountExists(s: Session, users: map<string, Credential>, email: string, password: string,
                                               id: Uuid, now: Timestamp)
    requires RegisterValidation(email, password, password).None? && NormalizeEmail(email) in users
    ensures AfterRegister(s, email, password, password, RegisterOutcome(users, email, password, id, now, false))
      == Session(false, None, false, Some("An account with this email already exists"))
  {
    NormalizeOfTrim(email);
    FixedMessages();
  }

  // ---- logout, clearError, consistency ----

  /** Signing out twice is signing out once, and leaves no message behind. */
  lemma {:induction false} LogoutIdempotent(s: Session)
    ensures AfterLogout(AfterLogout(s)) == AfterLogout(s)
    ensures !AfterLogout(s).isAuthenticated && AfterLogout(s).currentUser == None && AfterLogout(s).errorMessage == None
  {
  }

  /** Every operation takes a consistent session to a consistent one. */
  lemma {:induction false} OperationsKeepConsistent(s: Session, email: string, password: string, confirmPassword: string, r: Outcome)
    requires Consistent(s)
    ensures Consistent(AfterLogin(s, email, password, r))
    ensures Consistent(AfterRegister(s, email, password, confirmPassword, r))
    ensures Consistent(AfterLogout(s)) && Consistent(AfterClearError(s))
  {
  }

  /** A consistent session is one of the two settled authentication states, signed out or signed in. */
  lemma {:induction false} ConsistentIsSettledState(s: Session)
    requires Consistent(s)
    ensures var st := FromFlags(s.isAuthenticated, s.currentUser, s.isLoading);
      && st.Some? && st.value != Authenticating
      && (st.value == Unauthenticated <==> !s.isAuthenticated)
      && (s.isAuthenticated ==> st.value == Authenticated(s.currentUser.value))
  {
  }

  // ---- the seeded store ----

  /** Registering a seeded address reports the existing account. */
  lemma {:induction false} RegisterSeededEmailReportsExisting(s: Session, users: map<string, Credential>, id: Uuid, now: Timestamp)
    requires users.Keys == PredefinedUsers.Keys
    ensures AfterRegister(s, "test@cliniq.com", "password123", "password123",
                          RegisterOutcome(users, "test@cliniq.com", "password123", id, now, false))
      == Session(false, None, false, Some("An account with this email already exists"))
  {
    SeedRegistrationPassesGuards();
    TestEmailIsNormalized();
    assert "test@cliniq.com" in PredefinedUsers;
    StoredAccountExists(s, users, "test@cliniq.com", "password123", id, now);
  }

  /** The seeded test address and its password pass every guard of `register`. */
  lemma {:induction false} SeedRegistrationPassesGuards()
    ensures RegisterValidation("test@cliniq.com", "password123", "password123").None?
  {
    var e := "test@cliniq.com";
    assert !IsWhitespace(e[0]) && !IsWhitespace(e[|e| - 1]);
    TrimOfTrimmed(e);
    SeedAddressIsValid();
  }

  /** A seeded account signs in with its password, however its address is capitalised. */
  lemma {:induction false} SeededLoginSucceeds(s: Session, users: map<string, Credential>)
    requires "test@cliniq.com" in users && users["test@cliniq.com"].password == "password123"
    ensures AfterLogin(s, "TEST@CLINIQ.com", "password123", AuthenticateOutcome(users, "TEST@CLINIQ.com", "password123", false))
      == Session(true, Some(users["test@cliniq.com"].user), false, None)
  {
    var e := "TEST@CLINIQ.com";
    assert !IsWhitespace(e[0]) && !IsWhitespace(e[|e| - 1]);
    TrimOfTrimmed(e);
    SeededLoginIgnoresCase(users);
  }

  /** The seeded demo account signs in with its password, which is shorter than `register` would allow. */
  lemma {:induction false} SeededDemoLoginSucceeds(s: Session, users: map<string, Credential>)
    requires "demo@cliniq.com" in users && users["demo@cliniq.com"].password == "demo123"
    ensures AfterLogin(s, "demo@cliniq.com", "demo123", AuthenticateOutcome(users, "demo@cliniq.com", "demo123", false))
      == Session(true, Some(users["demo@cliniq.com"].user), false, None)
  {
    var e := "demo@cliniq.com";
    assert !IsWhitespace(e[0]) && !IsWhitespace(e[|e| - 1]);
    TrimOfTrimmed(e);
    DemoEmailIsNormalized();
    StoredAccountAuthenticates(s, users, e, "demo123", users[e].user);
  }

  /** Registering the demo address anew with the demo password is refused as a weak password. */
  lemma {:induction false} DemoPasswordTooWeakToRegister()
    ensures RegisterValidation("demo@cliniq.com", "demo123", "demo123") == Some(WeakPassword)
  {
    var e := "demo@cliniq.com";
    assert !IsWhitespace(e[0]) && !IsWhitespace(e[|e| - 1]);
    TrimOfTrimmed(e);
    SeedAddressIsValid();
  }

  /**
   * The view model. `authService` is the store it talks to; the default argument
   * `MockAuthService()` is left to the caller, who builds the store and passes it in.
   */
  class AuthViewModel {
    var isAuthenticated: bool
    var currentUser: Option<User>
    var isLoading: bool
    var errorMessage: Option<string>
    const authService: MockAuthService

    function Snapshot(): Session
      reads this
    {
      Session(isAuthenticated, currentUser, isLoading, errorMessage)
    }

    ghost predicate Valid()
      reads this, authService, authService.ids
    {
      authService.Valid() && Consistent(Snapshot())
    }

    /** `init(authService:)`: the properties take their initial values. */
    constructor (authService: MockAuthService)
      requires authService.Valid()
      ensures Valid() && Snapshot() == InitialSession && this.authService == authService
    {
      isAuthenticated := false;
      currentUser := None;
      isLoading := false;
      errorMessage := None;
      this.authService := authService;
    }

    /** `login(email:password:)`: the raw email goes to the store, which normalizes it. */
    method Login(email: string, password: string, interrupted: bool)
      requires Valid()
      modifies this
      ensures Valid()
      ensures Snapshot() == AfterLogin(old(Snapshot()), email, password,
                                       AuthenticateOutcome(authService.registeredUsers, email, password, interrupted))
    {
      errorMessage := None;
      if Trim(email) == [] {
        errorMessage := Some(LocalizedDescription(EmptyField("Email")));
        return;
      }
      if password == [] {
        errorMessage := Some(LocalizedDescription(EmptyField("Password")));
        return;
      }
      isLoading := true;
      var r := authService.Authenticate(email, password, interrupted);
      Complete(r);
    }

    /**
     * `register(email:password:confirmPassword:)`: after the guards, the trimmed email goes
     * to the store; a guard that fails leaves the store untouched.
     */
    method Register(email: string, password: string, confirmPassword: string, now: Timestamp, interrupted: bool)
      requires Valid()
      modifies this, authService, authService.ids
      ensures Valid()
      ensures var r := RegisterOutcome(old(authService.registeredUsers), email, password, old(authService.ids.nextId), now, interrupted);
        Snapshot() == AfterRegister(old(Snapshot()), email, password, confirmPassword, r)
      ensures authService.registeredUsers == AccountsAfterRegister(old(authService.registeredUsers), email, password, confirmPassword,
                                                                   old(authService.ids.nextId), now, interrupted)
      ensures authService.ids.nextId == old(authService.ids.nextId) +
        if RegisterValidation(email, password, confirmPassword).None? &&
           RegisterOutcome(old(authService.registeredUsers), email, password, old(authService.ids.nextId), now, interrupted).Success?
        then 1 else 0
    {
      errorMessage := None;
      var trimmedEmail := Trim(email);
      var failure := None;
      if trimmedEmail == [] {
        failure := Some(EmptyField("Email"));
      } else if !IsValidEmail(trimmedEmail) {
        failure := Some(InvalidEmail);
      } else if password == [] {
        failure := Some(EmptyField("Password"));
      } else if |password| < 8 {
        failure := Some(WeakPassword);
      } else if password != confirmPassword {
        failure := Some(PasswordMismatch);
      }
      assert failure == RegisterValidation(email, password, confirmPassword);
      if failure.Some? {
        errorMessage := Some(LocalizedDescription(failure.value));
      } else {
        Submit(trimmedEmail, password, now, interrupted);
      }
      RegisterEffect(old(Snapshot()), Snapshot(), old(authService.registeredUsers), authService.registeredUsers,
                     email, password, confirmPassword, old(authService.ids.nextId), now, interrupted);
    }

    /** The part of `register` past its guards: loading, `createAccount` with the trimmed email, then the outcome. */
    method Submit(trimmedEmail: string, password: string, now: Timestamp, interrupted: bool)
      requires Valid()
      modifies this, authService, authService.ids
      ensures Valid()
      ensures var r := CreateAccountOutcome(old(authService.registeredUsers), trimmedEmail, password,
                                            old(authService.ids.nextId), now, interrupted);
        && Snapshot() == Settle(r)
        && authService.registeredUsers == AccountsAfterCreate(old(authService.registeredUsers), trimmedEmail, password, r)
        && authService.ids.nextId == if r.Success? then old(authService.ids.nextId) + 1 else old(authService.ids.nextId)
    {
      isLoading := true;
      var r := authService.CreateAccount(trimmedEmail, password, now, interrupted);
      Complete(r);
    }

    /** The `do`/`catch` shared by `login` and `register`, then `isLoading = false`. */
    method Complete(r: Outcome)
      modifies this
      ensures Snapshot() == Settle(r)
    {
      match r {
        case Success(user) =>
          currentUser := Some(user);
          isAuthenticated := true;
          errorMessage := None;
        case Failure(Validation(e)) =>
          errorMessage := Some(LocalizedDescription(e));
          isAuthenticated := false;
          currentUser := None;
        case Failure(DelayInterrupted) =>
          errorMessage := Some(UnexpectedErrorMessage);
          isAuthenticated := false;
          currentUser := None;
      }
      isLoading := false;
    }

    /** `logout()`: every property back to its initial value. */
    method Logout()
      requires Valid()
      modifies this
      ensures Valid()
      ensures Snapshot() == AfterLogout(old(Snapshot()))
    {
      currentUser := None;
      isAuthenticated := false;
      errorMessage := None;
      isLoading := false;
    }

    /** `clearError()`: only the message is cleared. */
    method ClearError()
      requires Valid()
      modifies this
      ensures Valid()
      ensures Snapshot() == AfterClearError(old(Snapshot()))
    {
      errorMessage := None;
    }
  }
}
