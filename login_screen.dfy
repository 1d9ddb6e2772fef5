/** `onLogin` of the login screen: two input guards (both fields filled, the
    e-mail matches the pattern), then the call to the provider's `login` and
    the translation of the error it throws into the message shown. There is
    no password-length guard on this screen. */
module LoginScreen {
  import opened AuthContext
  import opened EmailPattern
  import opened Strings

  const EnterEmailAndPassword: string := "Please enter email and password."
  const IncorrectCredentials: string := "Incorrect email or password."
  const LoginFailed: string := "Login failed."

  /** What the guards decide: show a message, or call `login` with these fields. */
  datatype Decision = Reject(message: string) | Submit(email: string, password: string)

  /** The guards of `onLogin`, in order; only the first failing one speaks. */
  function Guards(email: string, password: string): (d: Decision)
    ensures email == "" || password == "" ==> d == Reject(EnterEmailAndPassword)
    ensures email != "" && password != "" && !Matches(email) ==> d == Reject(InvalidEmailFormat)
    // login is called exactly when both fields are filled and the e-mail matches,
    // whatever the password's length, with the fields as typed
    ensures d.Submit? <==> password != "" && Matches(email)
    ensures d.Submit? ==> d == Submit(email, password)
  {
    IsEmailMatchesPattern(email);
    if email == "" || password == "" then Reject(EnterEmailAndPassword)
    else if !IsEmail(email) then Reject(InvalidEmailFormat)
    else Submit(email, password)
  }

  /** The `catch` of `onLogin`: INVALID_CREDENTIALS has its own message; any
      other error shows its message, or a generic one when that is empty. */
  function ErrorMessage(e: Error): (m: string)
    ensures m != ""
    ensures e.code == Some(INVALID_CREDENTIALS) ==> m == IncorrectCredentials
    ensures e.code != Some(INVALID_CREDENTIALS) && e.message != "" ==> m == e.message
    ensures e.code != Some(INVALID_CREDENTIALS) && e.message == "" ==> m == LoginFailed
  {
    if e.code == Some(INVALID_CREDENTIALS) then IncorrectCredentials
    else if e.message != "" then e.message
    else LoginFailed
  }

  /** A login that finds no matching account reads "Incorrect email or
      password." whether the e-mail is unknown or the password wrong. */
  lemma UnmatchedLoginMessage(s: Snapshot, email: string, password: string, fault: StoreFault)
    requires FaultAt(fault, 0).None? && !s.users.Garbled?
    requires forall i :: 0 <= i < |Listed(s.users)| ==>
               !Satisfies(Listed(s.users)[i], ByCredentials(Lower(email), password))
    ensures LoginEffect(s, email, password, fault).outcome.Err?
    ensures ErrorMessage(LoginEffect(s, email, password, fault).outcome.error) == IncorrectCredentials
  {
  }

  /** The screen's `error` state. */
  class Screen {
    var error: string
    /** Every value handed to `setError`, in order. */
    ghost var shown: seq<string>

    constructor ()
      ensures error == "" && shown == []
    {
      error := "";
      shown := [];
    }

    /** `onLogin` over the typed fields; `fault` is passed on to the provider's `login`. */
    method OnLogin(auth: AuthProvider, email: string, password: string, fault: StoreFault)
      modifies this, auth
      // the error is cleared before any guard runs, and what is shown last stays shown
      ensures |shown| > |old(shown)| && shown[..|old(shown)| + 1] == old(shown) + [""]
      ensures error == shown[|shown| - 1]
      ensures match Guards(email, password)
        case Reject(m) => unchanged(auth) && shown == old(shown) + ["", m]
        case Submit(e, p) =>
          var t := LoginEffect(old(auth.State()), e, p, fault);
          auth.State() == t.after &&
          shown == old(shown) + [""] + (if t.outcome.Ok? then [] else [ErrorMessage(t.outcome.error)])
    {
      error := "";
      shown := shown + [""];
      if email == "" || password == "" {
        error := EnterEmailAndPassword;
        shown := shown + [error];
        return;
      }
      if !IsEmail(email) {
        error := InvalidEmailFormat;
        shown := shown + [error];
        return;
      }
      var r := auth.Login(email, password, fault);
      if r.Err? {
        error := ErrorMessage(r.error);
        shown := shown + [error];
      }
    }
  }
}
