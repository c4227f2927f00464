/** The invariants the provider keeps: usernames stay unique, and an open
    session always mirrors the record it was opened from (same username, role
    and member link as the first record with that username). */
module Invariants {
  import opened Wrappers
  import opened Credentials
  import opened Auth

  /** The session, when present, agrees with the first record of its user. */
  ghost predicate SessionConsistent(s: State) {
    s.session.Some? ==>
      exists i :: FirstMatch(s.credentials, s.session.value.username, i)
                  && SessionOf(s.credentials[i]) == s.session.value
  }

  ghost predicate Valid(s: State) {
    UniqueUsernames(s.credentials) && SessionConsistent(s)
  }

  /** The start state is valid exactly when the loaded collection has unique
      usernames; a failed load always gives a valid (empty) state. */
  lemma MountValid(loaded: Option<Collection>)
    ensures Valid(Mount(loaded)) <==> loaded.None? || UniqueUsernames(loaded.value)
    ensures loaded.None? ==> Valid(Mount(loaded))
  {
  }

  /** A wholesale replacement keeps the state valid exactly when the new
      collection is itself unique and, when a session is open, its first record
      with the session's username carries the session's username, role and
      member link (its password and flag may differ). */
  lemma SaveCredentialsValid(s: State, newCreds: Collection)
    ensures Valid(SaveCredentials(s, newCreds)) <==>
      && UniqueUsernames(newCreds)
      && (s.session.Some? ==>
            exists i :: FirstMatch(newCreds, s.session.value.username, i)
                        && SessionOf(newCreds[i]) == s.session.value)
  {
  }

  lemma LoginPreservesValid(s: State, username: string, password: string)
    requires Valid(s)
    ensures Valid(Login(s, username, password).state)
  {
  }

  lemma LogoutPreservesValid(s: State)
    requires Valid(s)
    ensures Valid(Logout(s))
  {
  }

  lemma ChangePasswordPreservesValid(s: State, currentPassword: string, newPassword: string)
    requires Valid(s)
    ensures Valid(ChangePassword(s, currentPassword, newPassword).state)
  {
  }

  lemma ResetUserPasswordPreservesValid(s: State, username: string)
    requires Valid(s)
    ensures Valid(ResetUserPassword(s, username).state)
  {
  }

  lemma AddUserCredentialsPreservesValid(s: State, username: string, password: string,
                                         role: Role, memberId: Option<string>)
    requires Valid(s)
    ensures Valid(AddUserCredentials(s, username, password, role, memberId).state)
  {
  }

  lemma UpdateUserRolePreservesValid(s: State, username: string, role: Role)
    requires Valid(s)
    ensures Valid(UpdateUserRole(s, username, role).state)
  {
  }
}
