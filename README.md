# UserAuthApp session store, modelled in Dafny

UserAuthApp is a React Native app whose only logic is a client-side
credential store and session manager, `AuthProvider`. It keeps two records in
AsyncStorage: `users`, the ordered list of accounts `{id, name, email,
password}`, and `currentUser`, the session `{id, name, email}` without the
password. It also keeps two pieces of React state, `user` and `loading`. It
offers `restoreUser` (run once when it mounts), `signup`, `login` and
`logout`. The sign-up and login screens check the form's input before they
call the provider. They also turn the provider's error codes (`USER_EXISTS`,
`INVALID_CREDENTIALS`) into the messages the user sees.

Files:

- `strings.dfy` (module `Strings`): `toLowerCase`, restricted to ASCII, and
  the ECMAScript whitespace class `\s`.
- `email_pattern.dfy` (module `EmailPattern`): the pattern
  `^[^\s@]+@[^\s@]+\.[^\s@]+$`, given twice. `Matches` reads the pattern
  literally. `IsEmail` is the form the screens evaluate: exactly one '@',
  no whitespace, a non-empty local part, and a domain with an inner '.'. A
  lemma proves the two accept the same strings.
- `auth_context.dfy` (module `AuthContext`): the records and the class
  `AuthProvider`. Its fields are the two storage keys (`users`, `stored`)
  and the React state (`user`, `loading`). Each operation is also a pure
  function from the state before the call to the state after it and the
  settled promise (`SignupEffect`, `LoginEffect`, `LogoutEffect`,
  `RestoreEffect`). The contracts of these functions state what the
  operation promises. Each method performs the steps in place and is proved
  to equal its function. Lemmas cover sequences of calls.
- `signup_screen.dfy`, `login_screen.dfy` (modules `SignUpScreen`,
  `LoginScreen`): each screen's guard chain and error-to-message mapping as
  pure functions, and a class `Screen` holding the `error` state. Its ghost
  `shown` log records every `setError` call in order. `OnSignup` and
  `OnLogin` call the provider's methods.

Modelling choices:

- A stored key is a `Slot`:
  - `Nothing` means the key is absent or holds `""`. Both are falsy, so the
    source treats them alike.
  - `Garbled(reason)` means the text is there, but `JSON.parse`, or using
    the parsed value as a list, throws with message `reason`.
  - `Holds(value)` means the key holds a parsed value.
- A rejected AsyncStorage call is modelled by `StoreFault`. `FailAt(k, m)`
  makes the operation's k-th store call reject with message `m`.
  - In `signup`: call 0 reads `users`, call 1 writes `users`, call 2 writes
    `currentUser`.
  - In `login`: call 0 reads `users`, call 1 writes `currentUser`.
  - `logout` and `restoreUser` each make a single call, call 0.
  - A rejected write writes nothing.
  - This captures the partial write in `signup`: if the session write
    fails, the new account is stored and the session is left as it was.
- The fresh id `Date.now().toString()` is the parameter `newId`. No
  uniqueness of ids is claimed, because the code does not guarantee it.
- Thrown errors are `Error(code, message)`: `USER_EXISTS` with message
  "User exists", `INVALID_CREDENTIALS` with message "Invalid credentials",
  and errors with no code for store and parse failures.

Behaviour of the code that the model keeps as it is:

- `restoreUser` has `try/finally` with no `catch`
  (src/context/AuthContext.tsx:29-34). A failed read or parse still clears
  `loading`, and the promise then rejects with that error. `RestoreEffect`
  returns `Rejected` in that case. The effect that calls `restoreUser`
  discards the promise.
- In `signup` and `login`, an unparsable `users` record is not read as an
  empty list. `JSON.parse` throws, and the call fails with that error and
  changes nothing.
- The lookups compare the stored `email` as it is with the lower-cased
  input. A stored e-mail that is not lower-case never matches.
  `WellFormedUsers` is the invariant that `signup` keeps so that this does
  not arise.
- The sign-up screen's `password.length` counts UTF-16 code units, so a
  character outside the Basic Multilingual Plane counts twice
  (`Utf16Length`).

## Model

| member | source | states |
|---|---|---|
| Strings.Lower | src/context/AuthContext.tsx:45 | lower-casing keeps the length and lowers each character at its own position |
| Strings.Utf16Length | src/screens/SignUpScreen.tsx:31 | `password.length` counts UTF-16 code units: at least the number of characters and at most twice it, zero only for the empty string, equal to the number of characters when all of them lie in the Basic Multilingual Plane, and twice it when all lie above it (a surrogate pair each) |
| Strings.Utf16LengthConcat | src/screens/SignUpScreen.tsx:31 | code units add up over concatenation, so with the one-character cases every string's `length` is fixed: one unit per BMP character, two per character above it |
| Strings.IsSpace | src/screens/SignUpScreen.tsx:9 | the class `\s` of the pattern contains space, tab, line feed and carriage return, and contains neither '@' nor '.' |
| Strings.LowerIsLower | src/context/AuthContext.tsx:45 | a lower-cased e-mail is lower-case, and lower-casing it again changes nothing |
| EmailPattern.IndexOf | src/screens/SignUpScreen.tsx:9 | the index found is the first '@' of the address, or the length when there is none |
| EmailPattern.Matches | src/screens/LoginScreen.tsx:9 | `emailRegex.test` read literally: a string it accepts has at least five characters and does not start with '@' or whitespace |
| EmailPattern.IsEmail | src/screens/LoginScreen.tsx:24 | a string the screens accept contains exactly one '@' |
| EmailPattern.IsEmailMatchesPattern | src/screens/SignUpScreen.tsx:9 | "exactly one '@', no whitespace, non-empty local part, domain with an inner '.'" accepts exactly the strings `^[^\s@]+@[^\s@]+\.[^\s@]+$` matches (the same pattern is at src/screens/LoginScreen.tsx:9) |
| AuthContext.Mounted | src/context/AuthContext.tsx:20-22 | a freshly mounted provider has no user, is loading, and sees the store as it was |
| AuthContext.Project | src/context/AuthContext.tsx:48 | the session `shortUser` keeps the account's id, name and e-mail, and has no password |
| AuthContext.ReadUsers | src/context/AuthContext.tsx:39 | `usersJson ? JSON.parse(usersJson) : []`: an absent or empty-text record reads as the empty list, a parsed record as exactly its stored list, and the read fails exactly when the text is unparsable; unparsable text throws its own message, with no code (the same expression is at src/context/AuthContext.tsx:56) |
| AuthContext.Find | src/context/AuthContext.tsx:57 | `find` returns nothing exactly when no account satisfies the query, and otherwise the first one in list order that does |
| AuthContext.SignupEffect | src/context/AuthContext.tsx:37-52 | USER_EXISTS is reported exactly when the read succeeds, the list parses and the lower-cased e-mail is taken, and then nothing changes; a rejected read fails with the store's message and an unparsable list with the parse message, changing nothing; success happens exactly when every store call succeeds, the list parses and the e-mail is free; success appends exactly `{id, name, lower(email), password}` after the earlier accounts, and the returned, stored and in-memory sessions are all `{id, name, lower(email)}`; a rejected write of the list fails with its message and changes nothing; a rejected session write, after the list was written, leaves the new account stored, the session as it was and the write's message; no other failure changes anything; `loading` is untouched |
| AuthContext.LoginEffect | src/context/AuthContext.tsx:54-67 | success happens exactly when both store calls succeed, the list parses and some account has the lower-cased e-mail and the exact password; the session returned, stored and held in memory is the projection of the first such account; INVALID_CREDENTIALS is reported exactly when the read succeeds, the list parses and no account matches; a rejected read fails with the store's message, an unparsable list with the parse message, and a rejected session write after a match with the write's message; no failure changes anything, and the account list is never touched |
| AuthContext.LogoutEffect | src/context/AuthContext.tsx:69-72 | once the key removal succeeds, no session is stored and `user` is null; a failed removal changes nothing; the accounts and `loading` are untouched |
| AuthContext.RestoreEffect | src/context/AuthContext.tsx:28-35 | `loading` is false afterwards on every path; `user` changes only when the read succeeds and the stored session parses, and then becomes that session; the promise rejects exactly when the read or the parse throws; the store is only read |
| AuthContext.AuthProvider.constructor | src/context/AuthContext.tsx:20-22 | the provider starts with `user` null and `loading` true over the store as found |
| AuthContext.AuthProvider.RestoreUser | src/context/AuthContext.tsx:28-35 | the in-place steps leave exactly the state and promise outcome of `RestoreEffect` |
| AuthContext.AuthProvider.Signup | src/context/AuthContext.tsx:37-52 | the in-place steps (read, search, push, two writes, `setUser`) leave exactly the state and result of `SignupEffect`, and keep the store invariant |
| AuthContext.AuthProvider.Login | src/context/AuthContext.tsx:54-67 | the in-place steps leave exactly the state and result of `LoginEffect` |
| AuthContext.AuthProvider.Logout | src/context/AuthContext.tsx:69-72 | the in-place steps leave exactly the state and outcome of `LogoutEffect` |
| AuthContext.SignupKeepsInvariant | src/context/AuthContext.tsx:40-47 | if every stored e-mail is lower-case and no two are equal before `signup`, the same holds after it, whatever the outcome |
| AuthContext.SignupThenLogin | src/context/AuthContext.tsx:45-63 | after a successful `signup`, `login` with the same password and any e-mail with the same lower-case form returns the same id, name and e-mail |
| AuthContext.SignupTwice | src/context/AuthContext.tsx:40-47 | a second `signup` with the same lower-cased e-mail fails with USER_EXISTS, changes nothing, and the list keeps exactly one account with that e-mail |
| AuthContext.LoginWithoutAccounts | src/context/AuthContext.tsx:55-62 | `login` against an absent, empty-text or empty `users` record fails with INVALID_CREDENTIALS and changes nothing |
| AuthContext.WrongPassword | src/context/AuthContext.tsx:57-62 | under the store invariant, a registered e-mail with a wrong password fails with INVALID_CREDENTIALS and changes nothing |
| AuthContext.LogoutIdempotent | src/context/AuthContext.tsx:69-72 | logging out twice gives the same state and outcome as logging out once |
| AuthContext.RestartAfterLogout | src/context/AuthContext.tsx:28-35 | after a logout, a freshly mounted provider restores no session and stops loading |
| AuthContext.Walkthrough | src/context/AuthContext.tsx:28-72 | from an empty store: sign-up succeeds; signing up again with the same e-mail fails with USER_EXISTS; login with another spelling of the e-mail returns the same session; a wrong password fails with INVALID_CREDENTIALS; logout leaves no session and the one account |
| SignUpScreen.Guards | src/screens/SignUpScreen.tsx:23-34 | an empty field gives "Please fill all fields."; then a non-matching e-mail gives "Invalid email format."; then a password under 6 UTF-16 code units gives "Password must be at least 6 characters."; only the first failing guard speaks; `signup` is called exactly when all three pass, with the fields unchanged |
| SignUpScreen.ErrorMessage | src/screens/SignUpScreen.tsx:38-41 | USER_EXISTS shows "An account with that email already exists."; any other error shows its own message, or "Signup failed." when that is empty; the message is never empty |
| SignUpScreen.SignupFailureMessages | src/screens/SignUpScreen.tsx:36-41 | a sign-up refused for a taken e-mail shows the USER_EXISTS message; an unparsable account list shows its parse message or "Signup failed." |
| SignUpScreen.Screen.constructor | src/screens/SignUpScreen.tsx:18 | the screen starts with no error shown |
| SignUpScreen.Screen.OnSignup | src/screens/SignUpScreen.tsx:21-42 | the error is first cleared to `''`; a failing guard shows its message and leaves the provider untouched; otherwise the provider ends in `SignupEffect`'s state, and the error stays `''` on success or becomes the mapped message on failure |
| LoginScreen.Guards | src/screens/LoginScreen.tsx:20-27 | an empty e-mail or password gives "Please enter email and password."; then a non-matching e-mail gives "Invalid email format."; `login` is called exactly when both are filled and the e-mail matches, whatever the password's length, with the fields unchanged |
| LoginScreen.ErrorMessage | src/screens/LoginScreen.tsx:30-33 | INVALID_CREDENTIALS shows "Incorrect email or password."; any other error shows its own message, or "Login failed." when that is empty; the message is never empty |
| LoginScreen.UnmatchedLoginMessage | src/screens/LoginScreen.tsx:28-33 | a login with no matching account shows "Incorrect email or password.", the same whether the e-mail is unknown or the password is wrong |
| LoginScreen.Screen.constructor | src/screens/LoginScreen.tsx:16 | the screen starts with no error shown |
| LoginScreen.Screen.OnLogin | src/screens/LoginScreen.tsx:18-34 | the error is first cleared to `''`; a failing guard shows its message and leaves the provider untouched; otherwise the provider ends in `LoginEffect`'s state, and the error stays `''` on success or becomes the mapped message on failure |

## Left out

- RestoreEffect: when the `currentUser` text parses to something other than a session record, the source stores that value in `user`. Examples are `null` and a number. The model has no such values and treats the text as unparsable. It then rejects and leaves `user` as it was.
- A `users` text that parses to an array of other values is not modelled. For example, elements without `email` match nothing, and `null` elements make `find` throw. The model has either a list of accounts or an unparsable record.
- `toLowerCase` is modelled for ASCII letters only. Full Unicode case mapping is not modelled.
- AsyncStorage's asynchrony is not modelled. Each operation runs to completion before the next one starts. So the lost-update race between concurrent `signup` calls, and a `signup` that overlaps `restoreUser`, are not modelled.
- JSON text is not modelled. Serialisation and parsing are the `Slot` abstraction.
- Rendering is not modelled: the views, `StyleSheet` objects, images, the show/hide-password toggle and navigation. `HomeScreen` and `LoadingScreen` only render and are not modelled.
- The form fields' `useState` setters (`setName`, `setEmail`, `setPassword`) are not modelled. The current field values are parameters of `OnSignup` and `OnLogin`.
- Thrown values without a string `message` are not modelled. Every error has a message, possibly empty.
