/** The error taxonomy (clin/clin/ValidationError.swift). */
module ValidationErrors {
  import opened Wrappers

  datatype ValidationError =
    | InvalidEmail
    | WeakPassword
    | PasswordMismatch
    | UserExists
    | InvalidCredentials
    | EmptyField(fieldName: string)
    | Custom(message: string)

  /** The fallback of `localizedDescription`, used only if `errorDescription` were nil. */
  const UnknownErrorMessage := "An unknown error occurred"

  /** `errorDescription`: declared optional, but every case has a message. */
  function ErrorDescription(e: ValidationError): (r: Option<string>)
    ensures r.Some?
  {
    match e
    case InvalidEmail => Some("Please enter a valid email address")
    case WeakPassword => Some("Password must be at least 8 characters long")
    case PasswordMismatch => Some("Passwords do not match")
    case UserExists => Some("An account with this email already exists")
    case InvalidCredentials => Some("Invalid email or password")
    case EmptyField(fieldName) => Some(fieldName + " is required")
    case Custom(message) => Some(message)
  }

  /** `localizedDescription`: the description, or the fallback when there is none. */
  function LocalizedDescription(e: ValidationError): (r: string)
    ensures r == ErrorDescription(e).value
  {
    match ErrorDescription(e)
    case Some(m) => m
    case None => UnknownErrorMessage
  }

  /** The five parameterless cases each have their fixed message, and no two share one. */
  lemma {:induction false} FixedMessages()
    ensures LocalizedDescription(InvalidEmail) == "Please enter a valid email address"
    ensures LocalizedDescription(WeakPassword) == "Password must be at least 8 characters long"
    ensures LocalizedDescription(PasswordMismatch) == "Passwords do not match"
    ensures LocalizedDescription(UserExists) == "An account with this email already exists"
    ensures LocalizedDescription(InvalidCredentials) == "Invalid email or password"
    ensures forall e1, e2 :: IsFixed(e1) && IsFixed(e2) && e1 != e2 ==>
      LocalizedDescription(e1) != LocalizedDescription(e2)
  {
  }

  predicate IsFixed(e: ValidationError) {
    !e.EmptyField? && !e.Custom?
  }

  /** `emptyField(f)` reads "f is required", and `custom(m)` reads m verbatim. */
  lemma {:induction false} ParameterisedMessages(f: string, m: string)
    ensures LocalizedDescription(EmptyField(f)) == f + " is required"
    ensures LocalizedDescription(Custom(m)) == m
  {
  }

  /** The two `emptyField` messages the view model shows. */
  lemma {:induction false} EmptyFieldMessages()
    ensures LocalizedDescription(EmptyField("Email")) == "Email is required"
    ensures LocalizedDescription(EmptyField("Password")) == "Password is required"
  {
    assert "Email" + " is required" == "Email is required";
    assert "Password" + " is required" == "Password is required";
  }

  /** Two `emptyField` messages agree exactly when the field names do. */
  lemma {:induction false} EmptyFieldMessageInjective(a: string, b: string)
    ensures LocalizedDescription(EmptyField(a)) == LocalizedDescription(EmptyField(b)) <==> a == b
  {
    var ma, mb := LocalizedDescription(EmptyField(a)), LocalizedDescription(EmptyField(b));
    if ma == mb {
      assert |a| == |b|;
      assert a == ma[..|a|] == mb[..|b|] == b;
    }
  }

  /**
   * The fallback is never produced as a fallback: the only error whose message equals it
   * is the `custom` error that carries that very text.
   */
  lemma {:induction false} UnknownMessageUnreachable(e: ValidationError)
    ensures LocalizedDescription(e) == UnknownErrorMessage ==> e == Custom(UnknownErrorMessage)
  {
    if e.EmptyField? {
      var m := e.fieldName + " is required";
      if |m| == |UnknownErrorMessage| {
        assert m[|m| - 4] == 'i' != UnknownErrorMessage[|m| - 4];
      }
    }
  }
}
