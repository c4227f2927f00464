/** Sequences of provider operations. Every state-changing call of the context
    is one `Op`; `Run` applies them in order, as the single-writer provider
    does. The lemmas lift the per-operation facts to whole histories. */
module Trace {
  import opened Wrappers
  import opened Credentials
  import Auth
  import opened Invariants

  datatype Op =
    | Login(username: string, password: string)
    | Logout
    | ChangePassword(currentPassword: string, newPassword: string)
    | ResetUserPassword(username: string)
    | AddUserCredentials(username: string, password: string, role: Role, memberId: Option<string>)
    | UpdateUserRole(username: string, role: Role)

  function Apply(s: Auth.State, op: Op): Auth.Step {
    match op
    case Login(u, p) => Auth.Login(s, u, p)
    case Logout => Auth.Step(Auth.Ok, Auth.Logout(s))
    case ChangePassword(cur, next) => Auth.ChangePassword(s, cur, next)
    case ResetUserPassword(u) => Auth.ResetUserPassword(s, u)
    case AddUserCredentials(u, p, role, m) => Auth.AddUserCredentials(s, u, p, role, m)
    case UpdateUserRole(u, role) => Auth.UpdateUserRole(s, u, role)
  }

  function Run(s: Auth.State, ops: seq<Op>): Auth.State
    decreases |ops|
  {
    if |ops| == 0 then s else Run(Apply(s, ops[0]).state, ops[1..])
  }

  /** `d` keeps every record of `c` at its position under the same username,
      possibly with more records after them. */
  predicate KeepsUsernames(c: Collection, d: Collection) {
    && |c| <= |d|
    && forall i :: 0 <= i < |c| ==> d[i].username == c[i].username
  }

  /** No record named "admin" has had its role changed. */
  predicate KeepsProtectedRoles(c: Collection, d: Collection) {
    && |c| <= |d|
    && forall i :: 0 <= i < |c| && c[i].username == Auth.ProtectedUsername ==> d[i].role == c[i].role
  }

  /** No record has lost its default-password flag. */
  predicate KeepsDefaultFlags(c: Collection, d: Collection) {
    && |c| <= |d|
    && forall i :: 0 <= i < |c| && c[i].isDefaultPassword ==> d[i].isDefaultPassword
  }

  lemma ApplyPreservesValid(s: Auth.State, op: Op)
    requires Valid(s)
    ensures Valid(Apply(s, op).state)
  {
  }

  /** Unique usernames stay unique under every operation, whether or not the
      session is consistent (for instance after a direct save): only account
      creation adds a name, and it refuses a name already present. */
  lemma ApplyKeepsUnique(s: Auth.State, op: Op)
    requires UniqueUsernames(s.credentials)
    ensures UniqueUsernames(Apply(s, op).state.credentials)
  {
    if op.AddUserCredentials? && Apply(s, op).outcome.Ok? {
      AppendFreshKeepsUnique(s.credentials, Credential(op.username, op.password, op.role, true, op.memberId));
    }
  }

  /** Over any history, unique usernames stay unique. */
  lemma {:induction false} RunKeepsUnique(s: Auth.State, ops: seq<Op>)
    requires UniqueUsernames(s.credentials)
    ensures UniqueUsernames(Run(s, ops).credentials)
    decreases |ops|
  {
    if |ops| > 0 {
      ApplyKeepsUnique(s, ops[0]);
      RunKeepsUnique(Apply(s, ops[0]).state, ops[1..]);
    }
  }

  /** One operation never renames or removes a record, never changes the role
      of the "admin" account, and only a password change clears a
      default-password flag. */
  lemma ApplyFrame(s: Auth.State, op: Op)
    ensures KeepsUsernames(s.credentials, Apply(s, op).state.credentials)
    ensures KeepsProtectedRoles(s.credentials, Apply(s, op).state.credentials)
    ensures !op.ChangePassword? ==> KeepsDefaultFlags(s.credentials, Apply(s, op).state.credentials)
  {
  }

  /** The invariants hold after any history that starts from a valid state. */
  lemma {:induction false} RunPreservesValid(s: Auth.State, ops: seq<Op>)
    requires Valid(s)
    ensures Valid(Run(s, ops))
    decreases |ops|
  {
    if |ops| > 0 {
      ApplyPreservesValid(s, ops[0]);
      RunPreservesValid(Apply(s, ops[0]).state, ops[1..]);
    }
  }

  /** Over any history, records keep their positions and usernames, and the
      "admin" account keeps its role. */
  lemma {:induction false} RunFrame(s: Auth.State, ops: seq<Op>)
    ensures KeepsUsernames(s.credentials, Run(s, ops).credentials)
    ensures KeepsProtectedRoles(s.credentials, Run(s, ops).credentials)
    decreases |ops|
  {
    if |ops| > 0 {
      var t := Apply(s, ops[0]).state;
      ApplyFrame(s, ops[0]);
      RunFrame(t, ops[1..]);
    }
  }

  /** A history without password changes clears no default-password flag. */
  lemma {:induction false} RunKeepsDefaultFlags(s: Auth.State, ops: seq<Op>)
    requires forall k :: 0 <= k < |ops| ==> !ops[k].ChangePassword?
    ensures KeepsDefaultFlags(s.credentials, Run(s, ops).credentials)
    decreases |ops|
  {
    if |ops| > 0 {
      var t := Apply(s, ops[0]).state;
      ApplyFrame(s, ops[0]);
      RunKeepsDefaultFlags(t, ops[1..]);
    }
  }

  /** Starting from whatever the store returned (or nothing), usernames stay
      unique and the session stays consistent whenever the loaded collection
      had unique usernames. */
  lemma RunFromMountValid(loaded: Option<Collection>, ops: seq<Op>)
    requires loaded.Some? ==> UniqueUsernames(loaded.value)
    ensures Valid(Run(Auth.Mount(loaded), ops))
  {
    MountValid(loaded);
    RunPreservesValid(Auth.Mount(loaded), ops);
  }

  /** A record named "admin" with the administrator role keeps its position,
      name and role forever. Whether logins of "admin" reach it is stated by
      `ProtectedAdminReachable`. */
  lemma ProtectedAdminSurvives(s: Auth.State, ops: seq<Op>, i: int)
    requires 0 <= i < |s.credentials|
    requires s.credentials[i].username == Auth.ProtectedUsername
    requires s.credentials[i].role == Admin
    ensures i < |Run(s, ops).credentials|
    ensures Run(s, ops).credentials[i].username == Auth.ProtectedUsername
    ensures Run(s, ops).credentials[i].role == Admin
  {
    RunFrame(s, ops);
  }

  /** With unique usernames, that "admin" record also stays the one the
      lookups find for "admin", so it remains the account a login of "admin"
      opens: the application keeps a reachable administrator forever. */
  lemma ProtectedAdminReachable(s: Auth.State, ops: seq<Op>, i: int)
    requires UniqueUsernames(s.credentials)
    requires 0 <= i < |s.credentials|
    requires s.credentials[i].username == Auth.ProtectedUsername
    requires s.credentials[i].role == Admin
    ensures FirstMatch(Run(s, ops).credentials, Auth.ProtectedUsername, i)
    ensures Run(s, ops).credentials[i].role == Admin
  {
    RunFrame(s, ops);
    RunKeepsUnique(s, ops);
  }
}
