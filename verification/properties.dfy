/** Properties that relate several provider operations to one another: what a
    login after a reset, a password change, an account creation or a role
    change observes, and what the session predicates report. */
module Properties {
  import opened Wrappers
  import opened Credentials
  import opened Auth

  /** An unknown username and a known one with the wrong password are refused
      identically: same error, same (untouched) state. */
  lemma LoginFailuresIndistinguishable(s: State, unknown: string, p1: string, known: string, p2: string)
    requires !Present(s.credentials, unknown)
    requires Find(s.credentials, known).Some? && Find(s.credentials, known).value.password != p2
    ensures Login(s, unknown, p1) == Login(s, known, p2) == Step(Err(InvalidCredentials), s)
  {
  }

  /** With unique usernames every stored record can log in with its own
      password, and the session then mirrors that record. */
  lemma LoginEveryRecord(s: State, i: int)
    requires UniqueUsernames(s.credentials)
    requires 0 <= i < |s.credentials|
    ensures Login(s, s.credentials[i].username, s.credentials[i].password)
            == Step(Ok, State(Some(SessionOf(s.credentials[i])), s.credentials))
  {
  }

  /** After a successful login the session predicates describe the record that
      was logged into. */
  lemma LoginEstablishesPredicates(s: State, username: string, password: string)
    requires Login(s, username, password).outcome.Ok?
    ensures Find(s.credentials, username).Some?
    ensures IsAuthenticated(Login(s, username, password).state)
    ensures IsAdmin(Login(s, username, password).state) <==> Find(s.credentials, username).value.role == Admin
    ensures forall m :: IsSelf(Login(s, username, password).state, m) <==>
                        Find(s.credentials, username).value.memberId == Some(m)
  {
  }

  /** Without a session nobody is an administrator, authenticated, or the
      owner of any team member; being an administrator or a team member's
      owner implies being authenticated. */
  lemma SessionPredicates(s: State, memberId: string)
    ensures !IsAuthenticated(s) ==> !IsAdmin(s) && !IsSelf(s, memberId)
    ensures IsAdmin(s) ==> IsAuthenticated(s)
    ensures IsSelf(s, memberId) ==> IsAuthenticated(s)
  {
  }

  /** Logging out always closes the session: afterwards every predicate is
      false and the credential listing is denied, while the collection itself
      is kept. */
  lemma LogoutClosesSession(s: State, memberId: string)
    ensures !IsAuthenticated(Logout(s)) && !IsAdmin(Logout(s)) && !IsSelf(Logout(s), memberId)
    ensures GetUserCredentials(Logout(s)) == []
    ensures Logout(s).credentials == s.credentials
  {
  }

  /** After an administrator resets a user's password, that user can log in
      with the default password and their record is flagged as using it. */
  lemma ResetThenLogin(s: State, username: string)
    requires IsAdmin(s)
    requires Present(s.credentials, username)
    ensures ResetUserPassword(s, username).outcome.Ok?
    ensures Login(ResetUserPassword(s, username).state, username, DefaultPassword).outcome.Ok?
    ensures Find(ResetUserPassword(s, username).state.credentials, username).value.isDefaultPassword
  {
  }

  /** A successful password change takes effect at once: the user logs in
      with the new password, no longer with a different old one, and the
      record is no longer flagged as using the default password. */
  lemma ChangePasswordThenLogin(s: State, currentPassword: string, newPassword: string)
    requires ChangePassword(s, currentPassword, newPassword).outcome.Ok?
    ensures Login(ChangePassword(s, currentPassword, newPassword).state,
                  s.session.value.username, newPassword).outcome.Ok?
    ensures currentPassword != newPassword ==>
              Login(ChangePassword(s, currentPassword, newPassword).state,
                    s.session.value.username, currentPassword).outcome.Err?
    ensures !Find(ChangePassword(s, currentPassword, newPassword).state.credentials,
                  s.session.value.username).value.isDefaultPassword
  {
  }

  /** A freshly added account is listed for the administrator right after the
      existing ones, and can log in at once with the password it was given,
      flagged as a default password. */
  lemma AddThenLogin(s: State, username: string, password: string, role: Role, memberId: Option<string>)
    requires AddUserCredentials(s, username, password, role, memberId).outcome.Ok?
    ensures GetUserCredentials(AddUserCredentials(s, username, password, role, memberId).state)
            == GetUserCredentials(s) + [Credential(username, password, role, true, memberId)]
    ensures Login(AddUserCredentials(s, username, password, role, memberId).state, username, password)
            .outcome.Ok?
    ensures Login(AddUserCredentials(s, username, password, role, memberId).state, username, password)
            .state.session == Some(Session(username, role, memberId))
  {
  }

  /** A role change of the logged-in user's own account takes effect in the
      live session: an administrator who demotes themselves loses the
      administrator predicate immediately. */
  lemma UpdateOwnRoleTakesEffect(s: State, role: Role)
    requires s.session.Some?
    requires UpdateUserRole(s, s.session.value.username, role).outcome.Ok?
    ensures IsAdmin(UpdateUserRole(s, s.session.value.username, role).state) <==> role == Admin
    ensures IsAuthenticated(UpdateUserRole(s, s.session.value.username, role).state)
  {
  }

  /** A role change of another account is invisible to the live session, but
      the next login of that account carries the new role. */
  lemma UpdateOtherRoleThenLogin(s: State, username: string, role: Role, password: string)
    requires UpdateUserRole(s, username, role).outcome.Ok?
    requires s.session.value.username != username
    requires Login(s, username, password).outcome.Ok?
    ensures UpdateUserRole(s, username, role).state.session == s.session
    ensures Login(UpdateUserRole(s, username, role).state, username, password).outcome.Ok?
    ensures Login(UpdateUserRole(s, username, role).state, username, password).state.session.value.role == role
  {
  }
}
