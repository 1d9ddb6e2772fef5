/** The session and credential store of `AuthProvider`: two persisted records
    (the account list under the key "users" and the redacted session under
    "currentUser") and two in-memory fields (`user`, `loading`).

    Each operation is given twice: as a function from the state before the
    call to the state after it and the call's outcome (`SignupEffect`,
    `LoginEffect`, `LogoutEffect`, `RestoreEffect`), whose contracts state
    what the operation promises, and as a method of the class
    `AuthProvider` that performs the same steps in place and is proved equal
    to its function. */
module AuthContext {
  import opened Strings

  datatype Option<T> = None | Some(value: T)

  /** The session record: an account without its password. */
  datatype User = User(id: string, name: string, email: string)

  /** One element of the "users" list. */
  datatype Account = Account(id: string, name: string, email: string, password: string)

  /** The session projection of an account. */
  function Project(a: Account): (u: User)
    // the session keeps the id, name and e-mail, and nothing of the password
    ensures u.id == a.id && u.name == a.name && u.email == a.email
  {
    User(a.id, a.name, a.email)
  }

  /** What reading and `JSON.parse`-ing a persisted key yields: `Nothing` when
      the key is absent or holds the empty string (both falsy), `Garbled` when
      the text is there but parsing it (or using the parsed value as the
      expected shape) throws, with the thrown message, and `Holds` otherwise. */
  datatype Slot<T> = Nothing | Garbled(reason: string) | Holds(value: T)

  /** A thrown error: its `code` property, if any, and its `message`. */
  datatype Error = Error(code: Option<string>, message: string)

  const USER_EXISTS: string := "USER_EXISTS"
  const INVALID_CREDENTIALS: string := "INVALID_CREDENTIALS"
  const UserExistsError: Error := Error(Some(USER_EXISTS), "User exists")
  const InvalidCredentialsError: Error := Error(Some(INVALID_CREDENTIALS), "Invalid credentials")

  /** The settled value of a promise that resolves to a `T` or rejects. */
  datatype Result<T> = Ok(value: T) | Err(error: Error)

  /** The settled value of a `Promise<void>`. */
  datatype Status = Done | Rejected(error: Error)

  /** Which store call of an operation rejects, if any: `FailAt(k, m)` makes
      the operation's k-th AsyncStorage call (counting from 0) reject with
      message `m`; a rejected write writes nothing. */
  datatype StoreFault = NoFault | FailAt(call: nat, message: string)

  function FaultAt(f: StoreFault, k: nat): Option<Error> {
    if f.FailAt? && f.call == k then Some(Error(None, f.message)) else None
  }

  /** The four fields the provider keeps: the two persisted records and the
      two in-memory state fields. */
  datatype Snapshot = Snapshot(users: Slot<seq<Account>>, stored: Slot<User>, user: Option<User>, loading: bool)

  /** The state and the outcome an operation leaves behind. */
  datatype Transition<T> = Transition(after: Snapshot, outcome: T)

  /** The provider as mounted: the store as found, no user, still loading. */
  function Mounted(users: Slot<seq<Account>>, stored: Slot<User>): (s: Snapshot)
    ensures s.user == None && s.loading
    ensures s.users == users && s.stored == stored
  {
    Snapshot(users, stored, None, true)
  }

  /** `usersJson ? JSON.parse(usersJson) : []` */
  function ReadUsers(slot: Slot<seq<Account>>): (r: Result<seq<Account>>)
    // an absent or empty record reads as no accounts; only unparsable text throws, with its message
    ensures r.Ok? <==> !slot.Garbled?
    ensures slot.Holds? ==> r == Ok(slot.value)
    ensures slot.Nothing? ==> r == Ok([])
    ensures r.Err? ==> r.error.code == None && r.error.message == slot.reason
  {
    match slot
    case Nothing => Ok([])
    case Garbled(reason) => Err(Error(None, reason))
    case Holds(us) => Ok(us)
  }

  /** The accounts the "users" record lists when it reads: none when it is
      absent or empty, and none either, for use in contracts, when it is
      unparsable (the operations then fail before they look). */
  function Listed(slot: Slot<seq<Account>>): (us: seq<Account>)
    ensures slot.Holds? ==> us == slot.value
    ensures !slot.Holds? ==> us == []
  {
    match ReadUsers(slot)
    case Ok(us) => us
    case Err(_) => []
  }

  /** The predicate handed to `users.find`: by e-mail alone in `signup`, by
      e-mail and password in `login`. */
  datatype Query = ByEmail(email: string) | ByCredentials(email: string, password: string)

  predicate Satisfies(a: Account, q: Query) {
    match q
    case ByEmail(e) => a.email == e
    case ByCredentials(e, p) => a.email == e && a.password == p
  }

  /** `i` is the first index, in list order, whose account satisfies `q`. */
  predicate IsFirst(us: seq<Account>, i: int, q: Query) {
    0 <= i < |us| && Satisfies(us[i], q) && forall j :: 0 <= j < i ==> !Satisfies(us[j], q)
  }

  /** `Array.prototype.find`, returning the index of the element found. */
  function Find(us: seq<Account>, q: Query): (r: Option<nat>)
    ensures r.None? <==> forall i :: 0 <= i < |us| ==> !Satisfies(us[i], q)
    ensures r.Some? ==> IsFirst(us, r.value, q)
  {
    if us == [] then None
    else if Satisfies(us[0], q) then Some(0)
    else match Find(us[1..], q)
      case None => None
      case Some(k) => Some(k + 1)
  }

  /** No account with the normalised e-mail `e` is listed. */
  predicate EmailFree(us: seq<Account>, e: string) {
    forall i :: 0 <= i < |us| ==> us[i].email != e
  }

  /** The store invariant `signup` keeps: every listed e-mail is lower-case and
      no two listed accounts share one. */
  ghost predicate WellFormedUsers(us: seq<Account>) {
    (forall i :: 0 <= i < |us| ==> IsLower(us[i].email)) &&
    (forall i, j :: 0 <= i < j < |us| ==> us[i].email != us[j].email)
  }

  /** The invariant on the persisted record: whenever it parses, it is well formed. */
  ghost predicate UsersInvariant(slot: Slot<seq<Account>>) {
    slot.Holds? ==> WellFormedUsers(slot.value)
  }

  /** `signup({name, email, password})` with `newId` for `Date.now().toString()`.
      Store calls: 0 reads "users", 1 writes "users", 2 writes "currentUser". */
  function SignupEffect(s: Snapshot, name: string, email: string, password: string, newId: string, fault: StoreFault)
    : (t: Transition<Result<User>>)
    // it never touches the loading flag
    ensures t.after.loading == s.loading
    // an e-mail already listed, once lower-cased, is refused with USER_EXISTS and nothing changes
    ensures FaultAt(fault, 0).None? && !EmailFree(Listed(s.users), Lower(email)) ==>
              t == Transition(s, Err(UserExistsError))
    // it succeeds exactly when every store call succeeds, the record parses and the e-mail is free
    ensures t.outcome.Ok? <==>
              FaultAt(fault, 0).None? && FaultAt(fault, 1).None? && FaultAt(fault, 2).None? &&
              !s.users.Garbled? && EmailFree(Listed(s.users), Lower(email))
    // success appends exactly the new account, and the session (stored and in memory) is its projection
    ensures t.outcome.Ok? ==>
              var created := User(newId, name, Lower(email));
              t.outcome.value == created &&
              t.after == s.(users := Holds(Listed(s.users) + [Account(newId, name, Lower(email), password)]),
                            stored := Holds(created), user := Some(created))
    // USER_EXISTS is reported exactly when the read succeeds, the record parses and the e-mail is taken
    ensures t.outcome == Err(UserExistsError) <==>
              FaultAt(fault, 0).None? && !s.users.Garbled? && !EmailFree(Listed(s.users), Lower(email))
    // a rejected read fails with the store's error, an unparsable record with the parse error; nothing changes
    ensures FaultAt(fault, 0).Some? ==> t == Transition(s, Err(FaultAt(fault, 0).value))
    ensures FaultAt(fault, 0).None? && s.users.Garbled? ==> t == Transition(s, Err(Error(None, s.users.reason)))
    // a rejected write of the account list fails with the store's error and changes nothing
    ensures FaultAt(fault, 0).None? && FaultAt(fault, 1).Some? &&
            !s.users.Garbled? && EmailFree(Listed(s.users), Lower(email)) ==>
              t == Transition(s, Err(FaultAt(fault, 1).value))
    // a rejected session write, after the account list was written, leaves the new account stored
    // and the session as it was
    ensures FaultAt(fault, 0).None? && FaultAt(fault, 1).None? && FaultAt(fault, 2).Some? &&
            !s.users.Garbled? && EmailFree(Listed(s.users), Lower(email)) ==>
              t == Transition(s.(users := Holds(Listed(s.users) + [Account(newId, name, Lower(email), password)])),
                              Err(FaultAt(fault, 2).value))
    // that is the only failure that changes anything
    ensures t.outcome.Err? ==>
              t.after == s ||
              (FaultAt(fault, 0).None? && FaultAt(fault, 1).None? && FaultAt(fault, 2).Some? &&
               !s.users.Garbled? && EmailFree(Listed(s.users), Lower(email)) &&
               t.after == s.(users := Holds(Listed(s.users) + [Account(newId, name, Lower(email), password)])))
  {
    if FaultAt(fault, 0).Some? then Transition(s, Err(FaultAt(fault, 0).value))
    else match ReadUsers(s.users)
      case Err(e) => Transition(s, Err(e))
      case Ok(us) =>
        var key := Lower(email);
        if Find(us, ByEmail(key)).Some? then Transition(s, Err(UserExistsError))
        else
          var account := Account(newId, name, key, password);
          var short := Project(account);
          if FaultAt(fault, 1).Some? then Transition(s, Err(FaultAt(fault, 1).value))
          else
            var written := s.(users := Holds(us + [account]));
            if FaultAt(fault, 2).Some? then Transition(written, Err(FaultAt(fault, 2).value))
            else Transition(written.(stored := Holds(short), user := Some(short)), Ok(short))
  }

  /** `login({email, password})`. Store calls: 0 reads "users", 1 writes "currentUser". */
  function LoginEffect(s: Snapshot, email: string, password: string, fault: StoreFault)
    : (t: Transition<Result<User>>)
    // the account list and the loading flag are never touched
    ensures t.after.users == s.users && t.after.loading == s.loading
    // it succeeds exactly when both store calls succeed, the record parses and some account matches
    ensures t.outcome.Ok? <==>
              FaultAt(fault, 0).None? && FaultAt(fault, 1).None? && !s.users.Garbled? &&
              exists i :: 0 <= i < |Listed(s.users)| && Satisfies(Listed(s.users)[i], ByCredentials(Lower(email), password))
    // on success the session is the projection of the FIRST matching account
    ensures t.outcome.Ok? ==>
              forall i :: IsFirst(Listed(s.users), i, ByCredentials(Lower(email), password)) ==>
                t.outcome.value == Project(Listed(s.users)[i]) &&
                t.after == s.(stored := Holds(Project(Listed(s.users)[i])), user := Some(Project(Listed(s.users)[i])))
    // no matching account: INVALID_CREDENTIALS, and nothing changes
    ensures FaultAt(fault, 0).None? && !s.users.Garbled? &&
            (forall i :: 0 <= i < |Listed(s.users)| ==> !Satisfies(Listed(s.users)[i], ByCredentials(Lower(email), password))) ==>
              t == Transition(s, Err(InvalidCredentialsError))
    // and INVALID_CREDENTIALS is reported only then
    ensures t.outcome == Err(InvalidCredentialsError) ==>
              FaultAt(fault, 0).None? && !s.users.Garbled? &&
              forall i :: 0 <= i < |Listed(s.users)| ==> !Satisfies(Listed(s.users)[i], ByCredentials(Lower(email), password))
    // a rejected read fails with the store's error, an unparsable record with the parse error
    ensures FaultAt(fault, 0).Some? ==> t == Transition(s, Err(FaultAt(fault, 0).value))
    ensures FaultAt(fault, 0).None? && s.users.Garbled? ==> t == Transition(s, Err(Error(None, s.users.reason)))
    // a rejected session write, after a match was found, fails with the store's error
    ensures FaultAt(fault, 0).None? && FaultAt(fault, 1).Some? && !s.users.Garbled? &&
            (exists i :: 0 <= i < |Listed(s.users)| && Satisfies(Listed(s.users)[i], ByCredentials(Lower(email), password))) ==>
              t == Transition(s, Err(FaultAt(fault, 1).value))
    // every failure leaves the state as it was
    ensures t.outcome.Err? ==> t.after == s
  {
    if FaultAt(fault, 0).Some? then Transition(s, Err(FaultAt(fault, 0).value))
    else match ReadUsers(s.users)
      case Err(e) => Transition(s, Err(e))
      case Ok(us) =>
        assert Listed(s.users) == us;
        match Find(us, ByCredentials(Lower(email), password))
        case None => Transition(s, Err(InvalidCredentialsError))
        case Some(i) =>
          assert IsFirst(us, i, ByCredentials(Lower(email), password));
          var short := Project(us[i]);
          if FaultAt(fault, 1).Some? then Transition(s, Err(FaultAt(fault, 1).value))
          else Transition(s.(stored := Holds(short), user := Some(short)), Ok(short))
  }

  /** `logout()`. Store call 0 removes "currentUser". */
  function LogoutEffect(s: Snapshot, fault: StoreFault): (t: Transition<Status>)
    // once the removal succeeds, no session is stored and none is held in memory
    ensures t.outcome == Done <==> FaultAt(fault, 0).None?
    ensures t.outcome == Done ==> t.after.stored == Nothing && t.after.user == None
    // the account list and the loading flag are untouched; a failed removal changes nothing
    ensures t.after.users == s.users && t.after.loading == s.loading
    ensures t.outcome.Rejected? ==> t.after == s
  {
    if FaultAt(fault, 0).Some? then Transition(s, Rejected(FaultAt(fault, 0).value))
    else Transition(s.(stored := Nothing, user := None), Done)
  }

  /** `restoreUser()`, run once when the provider mounts. Store call 0 reads
      "currentUser". There is a `finally` but no `catch`: a failed read or
      parse still clears `loading`, and the promise rejects with that error. */
  function RestoreEffect(s: Snapshot, fault: StoreFault): (t: Transition<Status>)
    // loading is false afterwards, on every path
    ensures !t.after.loading
    // the user is replaced only by a stored session that reads and parses
    ensures t.after.user != s.user ==>
              FaultAt(fault, 0).None? && s.stored.Holds? && t.after.user == Some(s.stored.value)
    ensures FaultAt(fault, 0).None? && s.stored.Holds? ==> t.after.user == Some(s.stored.value)
    // the store is only read
    ensures t.after.users == s.users && t.after.stored == s.stored
    // the promise rejects exactly when the read or the parse throws
    ensures t.outcome.Rejected? <==> FaultAt(fault, 0).Some? || s.stored.Garbled?
  {
    var done := s.(loading := false);
    if FaultAt(fault, 0).Some? then Transition(done, Rejected(FaultAt(fault, 0).value))
    else match s.stored
      case Nothing => Transition(done, Done)
      case Garbled(reason) => Transition(done, Rejected(Error(None, reason)))
      case Holds(u) => Transition(done.(user := Some(u)), Done)
  }

  /** The provider: the two AsyncStorage keys as the fields `users` and
      `stored`, and the React state `user` and `loading`. */
  class AuthProvider {
    var users: Slot<seq<Account>>
    var stored: Slot<User>
    var user: Option<User>
    var loading: bool

    function State(): Snapshot
      reads this
    {
      Snapshot(users, stored, user, loading)
    }

    /** The store invariant, on the persisted account list. */
    ghost predicate Valid()
      reads this
    {
      UsersInvariant(users)
    }

    /** Mounting the provider over a store that holds `users` and `stored`. */
    constructor (users: Slot<seq<Account>>, stored: Slot<User>)
      ensures State() == Mounted(users, stored)
    {
      this.users := users;
      this.stored := stored;
      user := None;
      loading := true;
    }

    method RestoreUser(fault: StoreFault) returns (r: Status)
      modifies this
      ensures var t := RestoreEffect(old(State()), fault); State() == t.after && r == t.outcome
      ensures Valid() == old(Valid())
    {
      var read := FaultAt(fault, 0);
      if read.Some? {
        r := Rejected(read.value);
      } else if stored.Garbled? {
        r := Rejected(Error(None, stored.reason));
      } else {
        if stored.Holds? {
          user := Some(stored.value);
        }
        r := Done;
      }
      loading := false;
    }

    method Signup(name: string, email: string, password: string, newId: string, fault: StoreFault)
      returns (r: Result<User>)
      modifies this
      ensures var t := SignupEffect(old(State()), name, email, password, newId, fault); State() == t.after && r == t.outcome
      ensures old(Valid()) ==> Valid()
    {
      ghost var before := State();
      var read := FaultAt(fault, 0);
      if read.Some? {
        return Err(read.value);
      }
      var parsed := ReadUsers(users);
      if parsed.Err? {
        return Err(parsed.error);
      }
      var list := parsed.value;
      var key := Lower(email);
      if Find(list, ByEmail(key)).Some? {
        return Err(UserExistsError);
      }
      var account := Account(newId, name, key, password);
      list := list + [account];
      var write := FaultAt(fault, 1);
      if write.Some? {
        return Err(write.value);
      }
      users := Holds(list);
      if UsersInvariant(before.users) {
        SignupKeepsInvariant(before, name, email, password, newId, fault);
      }
      var short := Project(account);
      write := FaultAt(fault, 2);
      if write.Some? {
        return Err(write.value);
      }
      stored := Holds(short);
      user := Some(short);
      r := Ok(short);
    }

    method Login(email: string, password: string, fault: StoreFault) returns (r: Result<User>)
      modifies this
      ensures var t := LoginEffect(old(State()), email, password, fault); State() == t.after && r == t.outcome
      ensures Valid() == old(Valid())
    {
      var read := FaultAt(fault, 0);
      if read.Some? {
        return Err(read.value);
      }
      var parsed := ReadUsers(users);
      if parsed.Err? {
        return Err(parsed.error);
      }
      var list := parsed.value;
      var found := Find(list, ByCredentials(Lower(email), password));
      if found.None? {
        return Err(InvalidCredentialsError);
      }
      var short := Project(list[found.value]);
      var write := FaultAt(fault, 1);
      if write.Some? {
        return Err(write.value);
      }
      stored := Holds(short);
      user := Some(short);
      r := Ok(short);
    }

    method Logout(fault: StoreFault) returns (r: Status)
      modifies this
      ensures var t := LogoutEffect(old(State()), fault); State() == t.after && r == t.outcome
      ensures Valid() == old(Valid())
    {
      var remove := FaultAt(fault, 0);
      if remove.Some? {
        return Rejected(remove.value);
      }
      stored := Nothing;
      user := None;
      r := Done;
    }
  }

  /** `signup` keeps the store invariant: lower-case, pairwise distinct e-mails. */
  lemma SignupKeepsInvariant(s: Snapshot, name: string, email: string, password: string, newId: string, fault: StoreFault)
    requires UsersInvariant(s.users)
    ensures UsersInvariant(SignupEffect(s, name, email, password, newId, fault).after.users)
  {
    var t := SignupEffect(s, name, email, password, newId, fault);
    if t.after.users != s.users {
      var us := Listed(s.users);
      var grown := us + [Account(newId, name, Lower(email), password)];
      assert t.after.users == Holds(grown);
      assert EmailFree(us, Lower(email));
      LowerIsLower(email);
      forall i, j | 0 <= i < j < |grown| ensures grown[i].email != grown[j].email {
        if j == |us| {
          assert grown[i] == us[i];
        }
      }
    }
  }

  /** Signing up and then logging in with the same password and any spelling of
      the e-mail that lower-cases to the same string yields the session the
      sign-up returned. */
  lemma {:induction false} SignupThenLogin(s: Snapshot, name: string, email: string, password: string, newId: string, email': string)
    requires Lower(email') == Lower(email)
    requires SignupEffect(s, name, email, password, newId, NoFault).outcome.Ok?
    ensures var t := SignupEffect(s, name, email, password, newId, NoFault);
            LoginEffect(t.after, email', password, NoFault).outcome == t.outcome
  {
    var t := SignupEffect(s, name, email, password, newId, NoFault);
    var us := Listed(s.users);
    var grown := us + [Account(newId, name, Lower(email), password)];
    var q := ByCredentials(Lower(email'), password);
    assert Listed(t.after.users) == grown;
    forall j | 0 <= j < |us| ensures !Satisfies(grown[j], q) {
      assert grown[j] == us[j];
    }
    assert IsFirst(grown, |us|, q);
  }

  /** Signing up twice with the same normalised e-mail: the second call is
      refused with USER_EXISTS, and the list keeps exactly one account with it. */
  lemma {:induction false} SignupTwice(s: Snapshot, name: string, email: string, password: string, newId: string,
                                       name': string, email': string, password': string, newId': string)
    requires Lower(email') == Lower(email)
    requires SignupEffect(s, name, email, password, newId, NoFault).outcome.Ok?
    ensures var t := SignupEffect(s, name, email, password, newId, NoFault);
            var t' := SignupEffect(t.after, name', email', password', newId', NoFault);
            t'.outcome == Err(UserExistsError) && t'.after == t.after &&
            forall i :: 0 <= i < |Listed(t'.after.users)| && Listed(t'.after.users)[i].email == Lower(email) ==>
              i == |Listed(t'.after.users)| - 1
  {
    var t := SignupEffect(s, name, email, password, newId, NoFault);
    var us := Listed(s.users);
    var grown := us + [Account(newId, name, Lower(email), password)];
    assert Listed(t.after.users) == grown;
    assert grown[|us|].email == Lower(email');
    forall i | 0 <= i < |grown| - 1 ensures grown[i].email != Lower(email) {
      assert grown[i] == us[i];
    }
  }

  /** `login` against an absent, empty-text or empty "users" record always fails
      with INVALID_CREDENTIALS (unless the read itself rejects). */
  lemma LoginWithoutAccounts(s: Snapshot, email: string, password: string, fault: StoreFault)
    requires s.users == Nothing || s.users == Holds([])
    requires FaultAt(fault, 0).None?
    ensures LoginEffect(s, email, password, fault) == Transition(s, Err(InvalidCredentialsError))
  {
  }

  /** With the store invariant in force, a wrong password for a registered
      e-mail is refused with INVALID_CREDENTIALS and changes nothing. */
  lemma WrongPassword(s: Snapshot, email: string, password: string, fault: StoreFault, k: nat)
    requires UsersInvariant(s.users) && FaultAt(fault, 0).None? && !s.users.Garbled?
    requires k < |Listed(s.users)| && Listed(s.users)[k].email == Lower(email)
    requires Listed(s.users)[k].password != password
    ensures LoginEffect(s, email, password, fault) == Transition(s, Err(InvalidCredentialsError))
  {
    var us := Listed(s.users);
    forall i | 0 <= i < |us| ensures !Satisfies(us[i], ByCredentials(Lower(email), password)) {
      if i < k {
        assert us[i].email != us[k].email;
      } else if k < i {
        assert us[k].email != us[i].email;
      }
    }
  }

  /** Logging out twice leaves the same state as logging out once. */
  lemma LogoutIdempotent(s: Snapshot)
    ensures var once := LogoutEffect(s, NoFault);
            LogoutEffect(once.after, NoFault) == once
  {
  }

  /** After a logout, a freshly mounted provider restores no session. */
  lemma RestartAfterLogout(s: Snapshot, fault: StoreFault)
    ensures var out := LogoutEffect(s, NoFault).after;
            var t := RestoreEffect(Mounted(out.users, out.stored), fault);
            t.after.user == None && !t.after.loading
  {
  }

  /** A whole session from an empty store: sign up, sign up again with the same
      e-mail, log in with another spelling of it and the right password, log in
      with a wrong password, log out. */
  lemma {:induction false} Walkthrough(name: string, email: string, password: string, newId: string,
                                       name': string, password': string, newId': string,
                                       spelling: string, wrong: string)
    requires Lower(spelling) == Lower(email) && wrong != password
    ensures var s0 := RestoreEffect(Mounted(Nothing, Nothing), NoFault).after;
            var session := User(newId, name, Lower(email));
            var t1 := SignupEffect(s0, name, email, password, newId, NoFault);
            var t2 := SignupEffect(t1.after, name', spelling, password', newId', NoFault);
            var t3 := LoginEffect(t2.after, spelling, password, NoFault);
            var t4 := LoginEffect(t3.after, email, wrong, NoFault);
            var t5 := LogoutEffect(t4.after, NoFault);
            s0.user == None && !s0.loading &&
            t1.outcome == Ok(session) && t1.after.user == Some(session) &&
            t2.outcome == Err(UserExistsError) && t2.after == t1.after &&
            t3.outcome == Ok(session) &&
            t4.outcome == Err(InvalidCredentialsError) && t4.after == t3.after &&
            t5.after.user == None && t5.after.stored == Nothing &&
            t5.after.users == Holds([Account(newId, name, Lower(email), password)])
  {
    var s0 := RestoreEffect(Mounted(Nothing, Nothing), NoFault).after;
    var t1 := SignupEffect(s0, name, email, password, newId, NoFault);
    assert t1.outcome.Ok?;
    assert Listed(s0.users) + [Account(newId, name, Lower(email), password)] == [Account(newId, name, Lower(email), password)];
    SignupTwice(s0, name, email, password, newId, name', spelling, password', newId');
    SignupThenLogin(s0, name, email, password, newId, spelling);
    var t3 := LoginEffect(t1.after, spelling, password, NoFault);
    SignupKeepsInvariant(s0, name, email, password, newId, NoFault);
    WrongPassword(t3.after, email, wrong, NoFault, 0);
  }
}
