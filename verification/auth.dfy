/** The authentication provider as a transition system: a state of an optional
    session and the credential collection, and one pure function per
    operation the context exposes. The four account mutations (password
    change, password reset, account creation, role change) authorise, check
    the username (a first-match lookup, or a presence scan for creation), and
    then either leave the state as it was or replace the collection with a
    copy in which one record changed or one record was appended; a role
    change also updates a session that belongs to its target. Login and
    logout change only the session, and saving replaces the whole
    collection. */
module Auth {
  import opened Wrappers
  import opened Credentials

  /** The logged-in user (the source's `User`): username, role and the
      optional link to a team member. */
  datatype Session = Session(username: string, role: Role, memberId: Option<string>)

  /** Provider state: the current session (absent when nobody is logged in)
      and the in-memory credential collection. */
  datatype State = State(session: Option<Session>, credentials: Collection)

  /** Why an operation was refused; one kind per error message the provider
      shows on that path. */
  datatype AuthError =
    | InvalidCredentials
    | NotAuthenticated
    | NotAuthorized
    | UserNotFound
    | WrongPassword
    | DuplicateUsername
    | ProtectedAccount

  datatype Outcome = Ok | Err(error: AuthError)

  /** The result of a state-changing operation and the state after it. */
  datatype Step = Step(outcome: Outcome, state: State)

  /** The account whose role can never be changed. */
  const ProtectedUsername: string := "admin"

  /** The session a successful login opens for a record. */
  function SessionOf(rec: Credential): Session {
    Session(rec.username, rec.role, rec.memberId)
  }

  /** `rec` is where `d` differs from `c`: same length and order, and every
      other record is untouched. */
  predicate OnlyChangedAt(c: Collection, d: Collection, i: int) {
    && |d| == |c|
    && 0 <= i < |c|
    && forall j :: 0 <= j < |c| && j != i ==> d[j] == c[j]
  }

  /** The state on mount: no session, and the collection the store returned,
      or the empty collection when loading failed. */
  function Mount(loaded: Option<Collection>): (s: State)
    ensures s.session.None?
    ensures loaded.Some? ==> s.credentials == loaded.value
    ensures loaded.None? ==> |s.credentials| == 0
  {
    State(None, if loaded.Some? then loaded.value else [])
  }

  /** `saveCredentials` without its network write: the collection is replaced
      wholesale and the session is left alone. */
  function SaveCredentials(s: State, newCreds: Collection): (r: State)
    ensures r.session == s.session
    ensures r.credentials == newCreds
  {
    s.(credentials := newCreds)
  }

  function Login(s: State, username: string, password: string): (r: Step)
    ensures r.outcome.Ok? <==>
      exists i :: FirstMatch(s.credentials, username, i) && s.credentials[i].password == password
    ensures r.outcome.Ok? ==> r.state.credentials == s.credentials
    ensures r.outcome.Ok? ==>
      exists i :: FirstMatch(s.credentials, username, i) && r.state.session == Some(SessionOf(s.credentials[i]))
    ensures r.outcome.Err? ==> r == Step(Err(InvalidCredentials), s)
  {
    match Find(s.credentials, username)
    case None => Step(Err(InvalidCredentials), s)
    case Some(rec) =>
      if rec.password != password then Step(Err(InvalidCredentials), s)
      else Step(Ok, s.(session := Some(SessionOf(rec))))
  }

  function Logout(s: State): (r: State)
    ensures r.session.None?
    ensures r.credentials == s.credentials
  {
    s.(session := None)
  }

  /** `user?.role === "admin"`: never without a session, and with one
      exactly when the session carries the administrator role. */
  function IsAdmin(s: State): (r: bool)
    ensures s.session.None? ==> !r
    ensures s.session.Some? ==> (r <==> s.session.value.role == Admin)
    ensures r ==> IsAuthenticated(s)
  {
    s.session.Some? && s.session.value.role == Admin
  }

  /** `user !== null`: exactly the states a logout would change. */
  function IsAuthenticated(s: State): (r: bool)
    ensures r <==> s != Logout(s)
  {
    s.session.Some?
  }

  /** `user?.memberId === memberId`: false without a session, false for a
      session not linked to a team member, and otherwise an exact match of
      the linked member id. */
  function IsSelf(s: State, memberId: string): (r: bool)
    ensures s.session.None? ==> !r
    ensures s.session.Some? && s.session.value.memberId.None? ==> !r
    ensures s.session.Some? && s.session.value.memberId.Some? ==>
              (r <==> s.session.value.memberId.value == memberId)
    ensures r ==> IsAuthenticated(s)
  {
    s.session.Some? && s.session.value.memberId == Some(memberId)
  }

  function ChangePassword(s: State, currentPassword: string, newPassword: string): (r: Step)
    ensures s.session.None? ==> r == Step(Err(NotAuthenticated), s)
    ensures s.session.Some? && !Present(s.credentials, s.session.value.username) ==>
      r == Step(Err(UserNotFound), s)
    ensures s.session.Some? && Present(s.credentials, s.session.value.username)
            && Find(s.credentials, s.session.value.username).value.password != currentPassword ==>
      r == Step(Err(WrongPassword), s)
    ensures r.outcome.Ok? <==>
      && s.session.Some?
      && exists i :: FirstMatch(s.credentials, s.session.value.username, i)
                     && s.credentials[i].password == currentPassword
    ensures r.outcome.Err? ==> r.state == s
    ensures r.outcome.Ok? ==> r.state.session == s.session
    ensures r.outcome.Ok? ==>
      exists i :: && FirstMatch(s.credentials, s.session.value.username, i)
                  && OnlyChangedAt(s.credentials, r.state.credentials, i)
                  && r.state.credentials[i].password == newPassword
                  && !r.state.credentials[i].isDefaultPassword
                  && r.state.credentials[i].username == s.credentials[i].username
                  && r.state.credentials[i].role == s.credentials[i].role
                  && r.state.credentials[i].memberId == s.credentials[i].memberId
  {
    if s.session.None? then Step(Err(NotAuthenticated), s)
    else
      var c := s.credentials;
      var i := FindIndex(c, s.session.value.username);
      if i == -1 then Step(Err(UserNotFound), s)
      else if c[i].password != currentPassword then Step(Err(WrongPassword), s)
      else
        var updated := c[i := c[i].(password := newPassword, isDefaultPassword := false)];
        Step(Ok, SaveCredentials(s, updated))
  }

  function ResetUserPassword(s: State, username: string): (r: Step)
    ensures !IsAdmin(s) ==> r == Step(Err(NotAuthorized), s)
    ensures IsAdmin(s) && !Present(s.credentials, username) ==> r == Step(Err(UserNotFound), s)
    ensures r.outcome.Ok? <==> IsAdmin(s) && Present(s.credentials, username)
    ensures r.outcome.Err? ==> r.state == s
    ensures r.outcome.Ok? ==> r.state.session == s.session
    ensures r.outcome.Ok? ==>
      exists i :: && FirstMatch(s.credentials, username, i)
                  && OnlyChangedAt(s.credentials, r.state.credentials, i)
                  && r.state.credentials[i].password == DefaultPassword
                  && r.state.credentials[i].isDefaultPassword
                  && r.state.credentials[i].username == username
                  && r.state.credentials[i].role == s.credentials[i].role
                  && r.state.credentials[i].memberId == s.credentials[i].memberId
  {
    if !IsAdmin(s) then Step(Err(NotAuthorized), s)
    else
      var c := s.credentials;
      var i := FindIndex(c, username);
      if i == -1 then Step(Err(UserNotFound), s)
      else
        var updated := c[i := c[i].(password := DefaultPassword, isDefaultPassword := true)];
        Step(Ok, SaveCredentials(s, updated))
  }

  /** The collection as the user-management screen sees it: everything for
      an administrator, nothing (a silent denial) for anyone else. */
  function GetUserCredentials(s: State): (r: Collection)
    ensures !IsAdmin(s) ==> r == []
    ensures IsAdmin(s) ==> r == s.credentials
  {
    if !IsAdmin(s) then [] else s.credentials
  }

  function AddUserCredentials(s: State, username: string, password: string, role: Role,
                              memberId: Option<string>): (r: Step)
    ensures !IsAdmin(s) ==> r == Step(Err(NotAuthorized), s)
    ensures IsAdmin(s) && Present(s.credentials, username) ==> r == Step(Err(DuplicateUsername), s)
    ensures r.outcome.Ok? <==> IsAdmin(s) && !Present(s.credentials, username)
    ensures r.outcome.Ok? ==> r.state.session == s.session
    ensures r.outcome.Ok? ==>
      && |r.state.credentials| == |s.credentials| + 1
      && r.state.credentials[..|s.credentials|] == s.credentials
      && r.state.credentials[|s.credentials|] == Credential(username, password, role, true, memberId)
  {
    if !IsAdmin(s) then Step(Err(NotAuthorized), s)
    else if Present(s.credentials, username) then Step(Err(DuplicateUsername), s)
    else
      var rec := Credential(username, password, role, true, memberId);
      Step(Ok, SaveCredentials(s, s.credentials + [rec]))
  }

  function UpdateUserRole(s: State, username: string, role: Role): (r: Step)
    ensures !IsAdmin(s) ==> r == Step(Err(NotAuthorized), s)
    ensures IsAdmin(s) && username == ProtectedUsername ==> r == Step(Err(ProtectedAccount), s)
    ensures username == ProtectedUsername ==> r.outcome.Err? && r.state == s
    ensures IsAdmin(s) && username != ProtectedUsername && !Present(s.credentials, username) ==>
      r == Step(Err(UserNotFound), s)
    ensures r.outcome.Ok? <==>
      IsAdmin(s) && username != ProtectedUsername && Present(s.credentials, username)
    ensures r.outcome.Err? ==> r.state == s
    ensures r.outcome.Ok? ==>
      exists i :: && FirstMatch(s.credentials, username, i)
                  && OnlyChangedAt(s.credentials, r.state.credentials, i)
                  && r.state.credentials[i] == s.credentials[i].(role := role)
    ensures r.outcome.Ok? && s.session.value.username == username ==>
      r.state.session == Some(Session(username, role, s.session.value.memberId))
    ensures r.outcome.Ok? && s.session.value.username != username ==>
      r.state.session == s.session
  {
    if !IsAdmin(s) then Step(Err(NotAuthorized), s)
    else if username == ProtectedUsername then Step(Err(ProtectedAccount), s)
    else
      var c := s.credentials;
      var i := FindIndex(c, username);
      if i == -1 then Step(Err(UserNotFound), s)
      else
        var saved := SaveCredentials(s, c[i := c[i].(role := role)]);
        var user := s.session.value;
        if user.username == username then Step(Ok, saved.(session := Some(user.(role := role))))
        else Step(Ok, saved)
  }
}
