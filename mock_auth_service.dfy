/** The in-memory credential store (clin/clin/MockAuthService.swift). */
module MockAuth {
  import opened Wrappers
  import opened Users
  import opened ValidationErrors
  import opened Text

  /** One entry of `registeredUsers`: the plaintext password and the user it unlocks. */
  datatype Credential = Credential(password: string, user: User)

  /**
   * What `authenticate` and `createAccount` can throw: a ValidationError, or the error
   * with which the simulated network delay (`Task.sleep`) was interrupted.
   */
  datatype Thrown = Validation(error: ValidationError) | DelayInterrupted

  /** What a call to the store returns or throws. */
  type Outcome = Result<User, Thrown>

  /** The two test accounts every store starts with (`predefinedUsers`). */
  const PredefinedUsers: map<string, string> := map["test@cliniq.com" := "password123", "demo@cliniq.com" := "demo123"]

  /** The store's key for an email: lowercased, then trimmed of whitespace. */
  function NormalizeEmail(email: string): string {
    Trim(Lower(email))
  }

  /** The store invariant: each key is a normalized email naming its own user, and ids are unique and already issued. */
  ghost predicate WellFormed(users: map<string, Credential>, nextId: Uuid) {
    KeysNormalized(users) && UsersMatchKeys(users, nextId)
  }

  /** Every key is a normalized email (see NormalKeyIffFixed). */
  ghost predicate KeysNormalized(users: map<string, Credential>) {
    forall k :: k in users ==> IsNormalKey(k)
  }

  /** A key as `normalizedEmail` produces it: no ASCII capitals, and no whitespace at either end. */
  predicate IsNormalKey(k: string) {
    && (forall i :: 0 <= i < |k| ==> !IsAsciiUpper(k[i]))
    && (k == [] || (!IsWhitespace(k[0]) && !IsWhitespace(k[|k| - 1])))
  }

  ghost predicate UsersMatchKeys(users: map<string, Credential>, nextId: Uuid) {
    && (forall k :: k in users ==> users[k].user.email == k && users[k].user.id < nextId)
    && (forall k1, k2 :: k1 in users && k2 in users && users[k1].user.id == users[k2].user.id ==> k1 == k2)
  }

  /** What `authenticate` returns or throws, given the accounts and whether the delay was interrupted. */
  function AuthenticateOutcome(users: map<string, Credential>, email: string, password: string, interrupted: bool): Outcome {
    var key := NormalizeEmail(email);
    if interrupted then Failure(DelayInterrupted)
    else if key in users && users[key].password == password then Success(users[key].user)
    else Failure(Validation(InvalidCredentials))
  }

  /** What `createAccount` returns or throws; `id` and `now` stand for `UUID()` and `Date()`. */
  function CreateAccountOutcome(users: map<string, Credential>, email: string, password: string,
                                id: Uuid, now: Timestamp, interrupted: bool): Outcome {
    var key := NormalizeEmail(email);
    if interrupted then Failure(DelayInterrupted)
    else if key in users then Failure(Validation(UserExists))
    else Success(User(id, key, now))
  }

  /** The accounts after a `createAccount` that ended with `r`: one entry more on success, none otherwise. */
  function AccountsAfterCreate(users: map<string, Credential>, email: string, password: string, r: Outcome): map<string, Credential> {
    if r.Success? then users[NormalizeEmail(email) := Credential(password, r.value)] else users
  }

  /** Every normalized email is a normal key ... */
  lemma {:induction false} NormalizeGivesNormalKey(email: string)
    ensures IsNormalKey(NormalizeEmail(email))
  {
    LowerHasNoCapitals(email);
    TrimCharacters(Lower(email));
  }

  /** ... and a normal key is its own normalization ... */
  lemma {:induction false} NormalKeyIsFixed(k: string)
    requires IsNormalKey(k)
    ensures NormalizeEmail(k) == k
  {
    LowerOfLowercase(k);
    TrimOfTrimmed(k);
  }

  /** ... so the normal keys are exactly the emails that normalization leaves alone. */
  lemma {:induction false} NormalKeyIffFixed(k: string)
    ensures IsNormalKey(k) <==> NormalizeEmail(k) == k
  {
    NormalizeGivesNormalKey(k);
    if IsNormalKey(k) {
      NormalKeyIsFixed(k);
    }
  }

  /** Normalizing an already normalized email changes nothing. */
  lemma {:induction false} NormalizeIdempotent(email: string)
    ensures NormalizeEmail(NormalizeEmail(email)) == NormalizeEmail(email)
  {
    NormalizeGivesNormalKey(email);
    NormalKeyIsFixed(NormalizeEmail(email));
  }

  /** Trimming before normalizing changes nothing: the key for `Trim(e)` is the key for `e`. */
  lemma {:induction false} NormalizeOfTrim(email: string)
    ensures NormalizeEmail(Trim(email)) == NormalizeEmail(email)
  {
    calc {
      NormalizeEmail(Trim(email));
      Trim(Lower(Trim(email)));
      { TrimLowerCommute(email); }
      Trim(Trim(Lower(email)));
      { TrimIdempotent(Lower(email)); }
      NormalizeEmail(email);
    }
  }

  /** An email with neither ASCII capitals nor whitespace, as the seed emails are. */
  predicate PlainEmail(e: string) {
    forall i :: 0 <= i < |e| ==> !IsAsciiUpper(e[i]) && !IsWhitespace(e[i])
  }

  /** A plain email is its own lowercase and its own key. */
  lemma {:induction false} PlainEmailIsNormalized(e: string)
    requires PlainEmail(e)
    ensures Lower(e) == e && NormalizeEmail(e) == e
  {
    LowerOfLowercase(e);
    NormalKeyIsFixed(e);
  }

  /** The seed emails are plain, so each is already lowercase and trimmed. */
  lemma {:induction false} SeedEmailsPlain()
    ensures forall e :: e in PredefinedUsers ==> PlainEmail(e)
  {
    forall e | e in PredefinedUsers
      ensures PlainEmail(e)
    {
      assert e == "test@cliniq.com" || e == "demo@cliniq.com";
      assert forall i :: 0 <= i < |e| ==> !IsAsciiUpper(e[i]) && !IsWhitespace(e[i]);
    }
  }

  /** The seeded test email is its own lowercase and its own key. */
  lemma {:induction false} TestEmailIsNormalized()
    ensures Lower("test@cliniq.com") == "test@cliniq.com" && NormalizeEmail("test@cliniq.com") == "test@cliniq.com"
  {
    var e := "test@cliniq.com";
    assert forall i :: 0 <= i < |e| ==> !IsAsciiUpper(e[i]) && !IsWhitespace(e[i]);
    PlainEmailIsNormalized(e);
  }

  /** The seeded demo email is its own lowercase and its own key. */
  lemma {:induction false} DemoEmailIsNormalized()
    ensures Lower("demo@cliniq.com") == "demo@cliniq.com" && NormalizeEmail("demo@cliniq.com") == "demo@cliniq.com"
  {
    var e := "demo@cliniq.com";
    assert forall i :: 0 <= i < |e| ==> !IsAsciiUpper(e[i]) && !IsWhitespace(e[i]);
    PlainEmailIsNormalized(e);
  }

  /** `authenticate` succeeds exactly on a stored normalized email with the exact password, returning its user. */
  lemma {:induction false} AuthenticateCorrect(users: map<string, Credential>, email: string, password: string)
    ensures var r := AuthenticateOutcome(users, email, password, false);
      && (r.Success? <==> NormalizeEmail(email) in users && users[NormalizeEmail(email)].password == password)
      && (r.Success? ==> r.value == users[NormalizeEmail(email)].user)
      && (r.Failure? ==> r.error == Validation(InvalidCredentials))
  {
  }

  /** An interrupted delay makes either call fail with the non-taxonomy error, before anything else is looked at. */
  lemma {:induction false} InterruptedDelayFails(users: map<string, Credential>, email: string, password: string, id: Uuid, now: Timestamp)
    ensures AuthenticateOutcome(users, email, password, true) == Failure(DelayInterrupted)
    ensures CreateAccountOutcome(users, email, password, id, now, true) == Failure(DelayInterrupted)
    ensures AccountsAfterCreate(users, email, password, Failure(DelayInterrupted)) == users
  {
  }

  /** `createAccount` keeps the store invariant. */
  lemma {:induction false} CreateAccountKeepsWellFormed(users: map<string, Credential>, email: string, password: string,
                                                         nextId: Uuid, now: Timestamp, interrupted: bool)
    requires WellFormed(users, nextId)
    ensures var r := CreateAccountOutcome(users, email, password, nextId, now, interrupted);
      WellFormed(AccountsAfterCreate(users, email, password, r), if r.Success? then nextId + 1 else nextId)
  {
    var r := CreateAccountOutcome(users, email, password, nextId, now, interrupted);
    if r.Success? {
      var key := NormalizeEmail(email);
      NormalizedKeyInserted(users, email, Credential(password, r.value));
      FreshUserInserted(users, nextId, key, Credential(password, User(nextId, key, now)));
    }
  }

  /** Inserting under a normalized email keeps every key normal. */
  lemma {:induction false} NormalizedKeyInserted(users: map<string, Credential>, email: string, c: Credential)
    requires KeysNormalized(users)
    ensures KeysNormalized(users[NormalizeEmail(email) := c])
  {
    NormalizeGivesNormalKey(email);
  }

  /** Inserting a fresh user under its own email, at a new key, keeps keys and ids matched. */
  lemma {:induction false} FreshUserInserted(users: map<string, Credential>, nextId: Uuid, key: string, c: Credential)
    requires UsersMatchKeys(users, nextId) && key !in users
    requires c.user.email == key && c.user.id == nextId
    ensures UsersMatchKeys(users[key := c], nextId + 1)
  {
  }

  /**
   * Round trip: after a successful `createAccount(e, p)`, `authenticate` with any email of
   * the same key and `p` returns that very user, and a second `createAccount` for the
   * key throws `userExists` and adds nothing.
   */
  lemma {:induction false} CreateThenAuthenticate(users: map<string, Credential>, email: string, email2: string, password: string,
                               id: Uuid, now: Timestamp, id2: Uuid, now2: Timestamp, password2: string)
    requires CreateAccountOutcome(users, email, password, id, now, false).Success?
    requires NormalizeEmail(email2) == NormalizeEmail(email)
    ensures var r := CreateAccountOutcome(users, email, password, id, now, false);
      var after := AccountsAfterCreate(users, email, password, r);
      && AuthenticateOutcome(after, email2, password, false) == Success(r.value)
      && CreateAccountOutcome(after, email2, password2, id2, now2, false) == Failure(Validation(UserExists))
  {
  }

  /**
   * The accounts seeded so far: exactly the emails in `done`, each with its predefined
   * password and a user created at `now` whose id was fresh when seeding began.
   */
  ghost predicate Seeded(users: map<string, Credential>, accounts: map<string, string>, done: set<string>,
                         now: Timestamp, firstId: Uuid) {
    && users.Keys == done
    && forall e :: e in users ==>
      && e in accounts && users[e].password == accounts[e]
      && users[e].user.createdAt == now && firstId <= users[e].user.id
  }

  /** A seeded account logs in whatever the case of the email, e.g. "TEST@CLINIQ.com". */
  lemma {:induction false} SeededLoginIgnoresCase(users: map<string, Credential>)
    requires "test@cliniq.com" in users && users["test@cliniq.com"].password == "password123"
    ensures AuthenticateOutcome(users, "TEST@CLINIQ.com", "password123", false) == Success(users["test@cliniq.com"].user)
  {
    CapitalisedTestEmailNormalizes();
  }

  /** The capitalised test email normalizes to the seeded key. */
  lemma {:induction false} CapitalisedTestEmailNormalizes()
    ensures NormalizeEmail("TEST@CLINIQ.com") == "test@cliniq.com"
  {
    var raw, key := "TEST@CLINIQ.com", "test@cliniq.com";
    assert forall i :: 0 <= i < |raw| ==> LowerChar(raw[i]) == key[i];
    assert Lower(raw) == key;
    TestEmailIsNormalized();
  }

  /**
   * The credential store. `ids` stands for the process-wide `UUID()` generator and is
   * shared with whoever else creates users.
   */
  class MockAuthService {
    var registeredUsers: map<string, Credential>
    const predefinedUsers: map<string, string>
    const ids: UserFactory

    ghost predicate Valid()
      reads this, ids
    {
      predefinedUsers == PredefinedUsers && WellFormed(registeredUsers, ids.nextId)
    }

    /** `init()`: every predefined account is registered under its lowercased email, with a fresh user. */
    constructor (ids: UserFactory, now: Timestamp)
      modifies ids
      ensures Valid() && this.ids == ids
      ensures Seeded(registeredUsers, PredefinedUsers, PredefinedUsers.Keys, now, old(ids.nextId))
      ensures ids.nextId >= old(ids.nextId)
    {
      this.ids := ids;
      predefinedUsers := PredefinedUsers;
      registeredUsers := map[];
      new;
      SeedEmailsPlain();
      RegisterAll(predefinedUsers, now);
    }

    /**
     * The loop of `init()`: registers each of `accounts`, in no particular order (a Swift
     * dictionary's), under its lowercased email with a user made from that email.
     */
    method RegisterAll(accounts: map<string, string>, now: Timestamp)
      requires forall e :: e in accounts ==> PlainEmail(e)
      requires registeredUsers == map[]
      modifies this`registeredUsers, ids
      ensures KeysNormalized(registeredUsers) && UsersMatchKeys(registeredUsers, ids.nextId)
      ensures Seeded(registeredUsers, accounts, accounts.Keys, now, old(ids.nextId))
      ensures old(ids.nextId) <= ids.nextId
    {
      var pending := accounts.Keys;
      while pending != {}
        invariant pending <= accounts.Keys
        invariant Seeded(registeredUsers, accounts, accounts.Keys - pending, now, old(ids.nextId))
        invariant UsersMatchKeys(registeredUsers, ids.nextId)
        invariant old(ids.nextId) <= ids.nextId
        decreases pending
      {
        var email :| email in pending;
        var user := ids.NewUser(email, now);
        var entry := Credential(accounts[email], user);
        LowerOfLowercase(email);
        var key := Lower(email);
        FreshUserInserted(registeredUsers, user.id, key, entry);
        registeredUsers := registeredUsers[key := entry];
        pending := pending - {email};
      }
    }

    /**
     * `authenticate(email:password:)`: reads the accounts only. After the delay, it returns
     * the stored user when the normalized email is a key whose password equals `password`
     * exactly, and throws `invalidCredentials` otherwise.
     */
    method Authenticate(email: string, password: string, interrupted: bool) returns (r: Outcome)
      ensures r == AuthenticateOutcome(registeredUsers, email, password, interrupted)
      ensures interrupted ==> r == Failure(DelayInterrupted)
      ensures !interrupted ==>
        (r.Success? <==> NormalizeEmail(email) in registeredUsers && registeredUsers[NormalizeEmail(email)].password == password)
      ensures r.Success? ==> r.value == registeredUsers[NormalizeEmail(email)].user
      ensures !interrupted && r.Failure? ==> r.error == Validation(InvalidCredentials)
    {
      if interrupted {
        return Failure(DelayInterrupted);
      }
      var normalizedEmail := NormalizeEmail(email);
      if normalizedEmail in registeredUsers && registeredUsers[normalizedEmail].password == password {
        r := Success(registeredUsers[normalizedEmail].user);
      } else {
        r := Failure(Validation(InvalidCredentials));
      }
    }

    /**
     * `createAccount(email:password:)`: after the delay, throws `userExists` when the
     * normalized email is taken; otherwise registers a fresh user under it and returns it.
     * Nothing changes unless the call succeeds.
     */
    method CreateAccount(email: string, password: string, now: Timestamp, interrupted: bool) returns (r: Outcome)
      requires Valid()
      modifies this, ids
      ensures Valid()
      ensures r == CreateAccountOutcome(old(registeredUsers), email, password, old(ids.nextId), now, interrupted)
      ensures registeredUsers == AccountsAfterCreate(old(registeredUsers), email, password, r)
      ensures ids.nextId == if r.Success? then old(ids.nextId) + 1 else old(ids.nextId)
    {
      if interrupted {
        return Failure(DelayInterrupted);
      }
      var normalizedEmail := NormalizeEmail(email);
      if normalizedEmail in registeredUsers {
        return Failure(Validation(UserExists));
      }
      var newUser := ids.NewUser(normalizedEmail, now);
      registeredUsers := registeredUsers[normalizedEmail := Credential(password, newUser)];
      r := Success(newUser);
      assert registeredUsers == AccountsAfterCreate(old(registeredUsers), email, password, r);
      CreateAccountKeepsWellFormed(old(registeredUsers), email, password, old(ids.nextId), now, interrupted);
    }
  }
}
