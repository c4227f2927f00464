# Credential store and session model of the team-management app's authentication context

This project models the authentication provider of a small team-management
web application. The provider holds two pieces of state: the logged-in
user's session, which may be absent, and an in-memory list of credential
records. Each record holds a username, a plain-text password, a role
("admin" or "user"), a default-password flag and an optional team-member
link.

Each operation the provider exposes becomes a pure transition on that state:

- login and logout;
- the session predicates (is-admin, is-authenticated, is-self);
- password change and the administrator's password reset;
- the administrator's credential listing, account creation and role change;
- the wholesale replacement of the collection (`saveCredentials`).

The four account mutations share one shape: password change, password
reset, account creation and role change. Each first authorises the caller.
Then it checks the username. Most use a lookup of the first record with
that name; account creation only asks whether the name is present. On
success it replaces the collection with a copy in which one record changed
or one record was appended. On failure the state stays as it was. A role
change also updates the live session when the session belongs to its
target.

The other operations have different shapes. Login authorises nothing: on
success it sets the session and leaves the collection alone. Logout does
no lookup and changes only the session. Saving replaces the whole
collection.

Modules:

- `Wrappers`: `Option`, which stands in for TypeScript's optional fields and `undefined`.
- `Credentials`: the record type, the default password `"Hallo123"`, and the lookups.
  `find`, `findIndex` (with its `-1` for "absent") and `some` are each
  modelled on an exact username match. The module also holds the
  unique-usernames predicate.
- `Auth`: `Session`, `State`, the error kinds, and one function per operation.
  An operation that changes state returns a `Step`, which pairs an outcome
  with the next state. The outcome is `Ok` or `Err(kind)`, with one kind per
  error message the provider shows on that path. The source itself returns
  only `true`/`false`, or nothing at all in the case of account creation.
- `Invariants`: the two invariants and their preservation, one lemma per operation.
  The first invariant is that usernames stay unique. The second is session
  consistency: an open session carries the username, role and member link of
  the first record with its username.
- `Trace`: an `Op` datatype covering the state-changing calls, and `Run` over a
  history of them. Inductive lemmas lift the per-operation facts to whole
  histories.
- `Properties`: laws that relate operations to each other. Examples are
  reset-then-login and change-then-login, the indistinguishable login
  failures, and what a role change does to the live session.
- `Scenarios`: concrete histories on literal data.

Some of the provider's behaviour differs from what one might expect of it; the model follows the code:

- The role change checks for an administrator session *before* it checks
  for the protected `"admin"` username. A non-administrator who targets
  `"admin"` is therefore refused as `NotAuthorized`, not `ProtectedAccount`.
  Either way the call fails and changes nothing
  (`Auth.UpdateUserRole`).
- One might expect the default-password flag to mean that the password
  equals the reset value. Account creation breaks this: it sets the flag
  for whatever password the administrator typed
  (`Scenarios.AddedAccountFlaggedDefault`).
- "Every stored record can log in with its own password" holds only when
  usernames are unique, because the lookup stops at the first match
  (`Properties.LoginEveryRecord`, `Scenarios.DuplicateShadowsLaterRecord`).
- A failed login leaves an existing session open. The code never clears
  it on failure (`Auth.Login`).

## Model

| member | source | states |
|---|---|---|
| Credentials.FindIndex | src/context/AuthContext.tsx:128-132 | `findIndex` by username yields -1 exactly when no record has the name, and otherwise the position of the first record that has it |
| Credentials.Find | src/context/AuthContext.tsx:77-82 | `find` by username yields a record exactly when the name is present, and that record is the first one with the name |
| Credentials.Present | src/context/AuthContext.tsx:192 | `some` by username holds exactly when some record carries the name, and then a first such record exists for the position-based lookups |
| Credentials.AppendFreshKeepsUnique | src/context/AuthContext.tsx:192-205 | appending a record whose username is not yet present keeps all usernames unique |
| Auth.Mount | src/context/AuthContext.tsx:53-63 | the provider starts with no session, holding the loaded collection, or an empty one when loading fails |
| Auth.SaveCredentials | src/context/AuthContext.tsx:66-73 | saving replaces the whole collection with the given one and leaves the session alone |
| Auth.Login | src/context/AuthContext.tsx:75-107 | login succeeds iff the first record with the username has exactly that password. On success the collection is kept and the session becomes that record's username, role and member link. Every failure is `InvalidCredentials` and leaves the state, including any open session, unchanged |
| Auth.Logout | src/context/AuthContext.tsx:109-112 | logout always leaves no session and the collection untouched |
| Auth.IsAdmin | src/context/AuthContext.tsx:114-116 | false without a session; with one, true exactly when the session's role is admin; being admin implies being authenticated |
| Auth.IsAuthenticated | src/context/AuthContext.tsx:118-120 | true exactly when a session is open, that is, exactly when logging out would change the state |
| Auth.IsSelf | src/context/AuthContext.tsx:175-177 | false without a session and false for a session with no member link; otherwise true exactly when the linked member id equals the argument; implies being authenticated |
| Auth.ChangePassword | src/context/AuthContext.tsx:122-149 | no session means `NotAuthenticated`, a session user missing from the collection means `UserNotFound`, and a current password that does not match means `WrongPassword`. The change succeeds iff there is a session and its first record has the current password. On failure the state is unchanged. On success only that record changes: it gets the new password and loses the default flag. Name, role, member link, length, order and session are all kept |
| Auth.ResetUserPassword | src/context/AuthContext.tsx:151-173 | a non-administrator gets `NotAuthorized` and an absent user `UserNotFound`, both with no change. The reset succeeds iff the caller is an administrator and the user exists. On success only the first record of the user changes: its password becomes "Hallo123" and its default flag is set. Its role and member link are kept |
| Auth.GetUserCredentials | src/context/AuthContext.tsx:179-184 | the listing is the empty sequence for anyone but an administrator, and exactly the current collection for an administrator |
| Auth.AddUserCredentials | src/context/AuthContext.tsx:186-207 | a non-administrator or an existing username is refused with the state unchanged. Otherwise the collection becomes the old one with one record appended at the end, holding the given fields and the default flag set |
| Auth.UpdateUserRole | src/context/AuthContext.tsx:209-243 | the call always fails for username "admin". It also fails for a non-administrator caller or a missing user, and every failure leaves the state unchanged. On success only the first record of the user changes, and only in its role. The live session takes the new role iff it belongs to that username; otherwise it is unchanged |
| Invariants.MountValid | src/context/AuthContext.tsx:53-63 | the start state satisfies the invariants iff the loaded collection has unique usernames; a failed load always does |
| Invariants.SaveCredentialsValid | src/context/AuthContext.tsx:66-73 | a wholesale replacement keeps the invariants iff the new collection has unique usernames and, when a session is open, its first record with the session's username carries the session's username, role and member link (its password and flag may differ) |
| Invariants.LoginPreservesValid | src/context/AuthContext.tsx:91-95 | login keeps usernames unique and opens only sessions that mirror their record |
| Invariants.LogoutPreservesValid | src/context/AuthContext.tsx:109-112 | logout keeps the invariants |
| Invariants.ChangePasswordPreservesValid | src/context/AuthContext.tsx:139-146 | changing a password keeps usernames unique and the session consistent |
| Invariants.ResetUserPasswordPreservesValid | src/context/AuthContext.tsx:163-170 | a password reset keeps usernames unique and the session consistent |
| Invariants.AddUserCredentialsPreservesValid | src/context/AuthContext.tsx:192-205 | account creation keeps usernames unique, thanks to its duplicate check, and keeps the session consistent |
| Invariants.UpdateUserRolePreservesValid | src/context/AuthContext.tsx:226-240 | a role change keeps usernames unique and keeps the session equal to its record, including when users change their own role |
| Trace.ApplyPreservesValid | src/context/AuthContext.tsx:75-243 | every state-changing operation keeps both invariants |
| Trace.ApplyKeepsUnique | src/context/AuthContext.tsx:192-205 | from any collection with unique usernames, whether or not the session matches it, every operation leaves usernames unique: only account creation adds a name, and it refuses a name already present |
| Trace.RunKeepsUnique | src/context/AuthContext.tsx:192-205 | over any history, a collection with unique usernames stays unique, even from a state reached by a direct save |
| Trace.ApplyFrame | src/context/AuthContext.tsx:75-243 | no operation renames, moves or removes a record, and none changes the role of the "admin" account. Only a password change clears a default-password flag |
| Trace.RunPreservesValid | src/context/AuthContext.tsx:75-243 | any history of operations from a valid state ends in a valid state |
| Trace.RunFrame | src/context/AuthContext.tsx:215-218 | over any history, records keep their positions and usernames, and the "admin" account keeps its role |
| Trace.RunKeepsDefaultFlags | src/context/AuthContext.tsx:140-143 | a history without password changes leaves every default-password flag set |
| Trace.RunFromMountValid | src/context/AuthContext.tsx:58-63 | from a failed load, or a load with unique usernames, every history keeps usernames unique and the session consistent |
| Trace.ProtectedAdminSurvives | src/context/AuthContext.tsx:215-218 | over any history, a record named "admin" with the administrator role keeps its position, its name and that role |
| Trace.ProtectedAdminReachable | src/context/AuthContext.tsx:215-218 | with unique usernames, that "admin" record also stays the first match for "admin" with the administrator role, so a login of "admin" keeps reaching an administrator account |
| Properties.LoginFailuresIndistinguishable | src/context/AuthContext.tsx:79-88 | an unknown username and a wrong password produce the identical refusal and the identical state |
| Properties.LoginEveryRecord | src/context/AuthContext.tsx:77-95 | with unique usernames, every stored record logs in with its own password, and the session then mirrors the record |
| Properties.LoginEstablishesPredicates | src/context/AuthContext.tsx:91-95 | after a successful login the user is authenticated. Is-admin holds iff the record's role is admin, and is-self holds for exactly the record's member link |
| Properties.SessionPredicates | src/context/AuthContext.tsx:114-120 | without a session is-admin, is-authenticated and is-self are all false, and is-admin or is-self imply is-authenticated |
| Properties.LogoutClosesSession | src/context/AuthContext.tsx:109-120 | after logout every session predicate is false and the credential listing is empty, while the collection is kept |
| Properties.ResetThenLogin | src/context/AuthContext.tsx:163-168 | after an administrator resets a user's password, that user logs in with "Hallo123" and is flagged as using the default password |
| Properties.ChangePasswordThenLogin | src/context/AuthContext.tsx:139-146 | after a password change the user logs in with the new password and no longer with a different old one, and the default flag is cleared |
| Properties.AddThenLogin | src/context/AuthContext.tsx:197-205 | a new account appears in the administrator's listing right after the old records, and its login with the given password succeeds at once and opens a session with its name, role and member link |
| Properties.UpdateOwnRoleTakesEffect | src/context/AuthContext.tsx:235-240 | changing one's own role changes the live session at once: is-admin holds afterwards iff the new role is admin |
| Properties.UpdateOtherRoleThenLogin | src/context/AuthContext.tsx:226-240 | changing another user's role leaves the live session alone, and that user's next login carries the new role |
| Scenarios.AdminAddsAndResetsBob | src/context/AuthContext.tsx:75-205 | a worked history: the administrator logs in, adds "bob", bob's wrong-password login is refused, and the administrator resets bob to the default password |
| Scenarios.DuplicateShadowsLaterRecord | src/context/AuthContext.tsx:77 | with two records of the same name, the second can never log in |
| Scenarios.AddedAccountFlaggedDefault | src/context/AuthContext.tsx:197-203 | a created account is flagged as using the default password even when its password is not "Hallo123" |

## Left out

- The initial `fetch` of the collection is network I/O. `Auth.Mount` takes its result as a parameter: the loaded collection, or none on failure.
- The HTTP `POST` inside `saveCredentials` is network I/O and is not modelled. Saving is a synchronous replacement of the in-memory collection, so a failed write and the divergence it would cause are not represented.
- Toast notifications carry no state and are left out. This includes the "please change your default password" warning after logging in with a flagged record. The error kinds only name which message each failure path shows.
- React plumbing is left out because it is framework machinery: `createContext`, `useAuth`, `useState`, asynchronous state updates and stale closures. Every operation is an atomic, sequential transition on the state it is given.
- `Trace.Op` has no direct `saveCredentials` call. The provider exposes that function for a save button, and it accepts an arbitrary collection, so it can break either invariant. `Invariants.SaveCredentialsValid` states exactly when it does not.
- Auth.GetUserCredentials: the listing and the session are modelled as values. In the source the listing is the provider's own array of record objects, and the exposed `user` is the live session object, so a caller that mutates either in place changes the provider state without passing any guard. Such callers are not represented, and the frame lemmas (for example `Trace.ProtectedAdminSurvives`) do not cover them.
- The credential HTTP server and its JSON file storage are not modelled. They pass data through and contain no logic of their own.
- The work-location widget is not part of this model. It is UI and depends on the clock, timers and a team context.
