/** `onSignup` of the sign-up screen: a fixed chain of input guards, each of
    which ends the handler with its own message, then the call to the
    provider's `signup` and the translation of the error it throws into the
    message the screen shows. */
module SignUpScreen {
  import opened AuthContext
  import opened EmailPattern
  import opened Strings

  const FillAllFields: string := "Please fill all fields."
  const PasswordTooShort: string := "Password must be at least 6 characters."
  const AccountExists: string := "An account with that email already exists."
  const SignupFailed: string := "Signup failed."
  const MinPasswordLength: nat := 6

  /** What the guards decide: show a message, or call `signup` with these fields. */
  datatype Decision = Reject(message: string) | Submit(name: string, email: string, password: string)

  /** The guards of `onSignup`, in order: all fields filled, e-mail matches the
      pattern, password at least six UTF-16 code units long. Only the first failing
      guard speaks. */
  function Guards(name: string, email: string, password: string): (d: Decision)
    ensures name == "" || email == "" || password == "" ==> d == Reject(FillAllFields)
    ensures name != "" && email != "" && password != "" && !Matches(email) ==>
              d == Reject(InvalidEmailFormat)
    ensures name != "" && password != "" && Matches(email) && Utf16Length(password) < MinPasswordLength ==>
              d == Reject(PasswordTooShort)
    // signup is called exactly when every guard passes, with the fields as typed
    ensures d.Submit? <==> name != "" && Matches(email) && Utf16Length(password) >= MinPasswordLength
    ensures d.Submit? ==> d == Submit(name, email, password)
  {
    IsEmailMatchesPattern(email);
    if name == "" || email == "" || password == "" then Reject(FillAllFields)
    else if !IsEmail(email) then Reject(InvalidEmailFormat)
    else if Utf16Length(password) < MinPasswordLength then Reject(PasswordTooShort)
    else Submit(name, email, password)
  }

  /** The `catch` of `onSignup`: USER_EXISTS has its own message; any other
      error shows its message, or a generic one when that is empty. */
  function ErrorMessage(e: Error): (m: string)
    ensures m != ""
    ensures e.code == Some(USER_EXISTS) ==> m == AccountExists
    ensures e.code != Some(USER_EXISTS) && e.message != "" ==> m == e.message
    ensures e.code != Some(USER_EXISTS) && e.message == "" ==> m == SignupFailed
  {
    if e.code == Some(USER_EXISTS) then AccountExists
    else if e.message != "" then e.message
    else SignupFailed
  }

  /** How a refused or failed sign-up reads on the screen: a taken e-mail
      gives the USER_EXISTS message, an unreadable account list its parse
      message (or the generic one), a rejected store call its own message. */
  lemma SignupFailureMessages(s: Snapshot, name: string, email: string, password: string, newId: string, fault: StoreFault)
    requires SignupEffect(s, name, email, password, newId, fault).outcome.Err?
    ensures var m := ErrorMessage(SignupEffect(s, name, email, password, newId, fault).outcome.error);
            (FaultAt(fault, 0).None? && !EmailFree(Listed(s.users), Lower(email)) ==> m == AccountExists) &&
            (FaultAt(fault, 0).None? && s.users.Garbled? ==>
               m == if s.users.reason != "" then s.users.reason else SignupFailed)
  {
  }

  /** The screen's `error` state. */
  class Screen {
    var error: string
    /** Every value handed to `setError`, in order. */
    ghost var shown: seq<string>

    constructor ()
      ensures error == "" && shown == []
    {
      error := "";
      shown := [];
    }

    /** `onSignup` over the typed fields; `newId` and `fault` are passed on to
        the provider's `signup`. */
    method OnSignup(auth: AuthProvider, name: string, email: string, password: string, newId: string, fault: StoreFault)
      modifies this, auth
      // the error is cleared before any guard runs, and what is shown last stays shown
      ensures |shown| > |old(shown)| && shown[..|old(shown)| + 1] == old(shown) + [""]
      ensures error == shown[|shown| - 1]
      ensures match Guards(name, email, password)
        case Reject(m) => unchanged(auth) && shown == old(shown) + ["", m]
        case Submit(n, e, p) =>
          var t := SignupEffect(old(auth.State()), n, e, p, newId, fault);
          auth.State() == t.after &&
          shown == old(shown) + [""] + (if t.outcome.Ok? then [] else [ErrorMessage(t.outcome.error)])
    {
      error := "";
      shown := shown + [""];
      if name == "" || email == "" || password == "" {
        error := FillAllFields;
        shown := shown + [error];
        return;
      }
      if !IsEmail(email) {
        error := InvalidEmailFormat;
        shown := shown + [error];
        return;
      }
      if Utf16Length(password) < MinPasswordLength {
        error := PasswordTooShort;
        shown := shown + [error];
        return;
      }
      var r := auth.Signup(name, email, password, newId, fault);
      if r.Err? {
        error := ErrorMessage(r.error);
        shown := shown + [error];
      }
    }
  }
}
