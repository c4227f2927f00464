/** The credential record of the authentication context and the lookups the
    provider performs on the credential collection: `find`, `findIndex` and
    `some`, each keyed on an exact username match. */
module Credentials {
  import opened Wrappers

  /** The two roles of the `UserRole` union, "admin" and "user". */
  datatype Role = Admin | User

  /** One stored account. Passwords are stored and compared as plain text. */
  datatype Credential = Credential(
    username: string,
    password: string,
    role: Role,
    isDefaultPassword: bool,
    memberId: Option<string>)

  /** The whole ordered credential list, the unit the store persists. */
  type Collection = seq<Credential>

  /** The password an administrator's reset assigns. */
  const DefaultPassword: string := "Hallo123"

  /** `i` is the position of the first record whose username is `u`. */
  predicate FirstMatch(c: Collection, u: string, i: int) {
    && 0 <= i < |c|
    && c[i].username == u
    && forall j :: 0 <= j < i ==> c[j].username != u
  }

  /** `credentials.some` on an exact username match: a scan that answers
      whether any record carries username `u`. When one does, there is a
      first such record for the position-based lookups to find. */
  function Present(c: Collection, u: string): (r: bool)
    ensures r <==> exists i | 0 <= i < |c| :: c[i].username == u
    ensures r ==> exists i :: FirstMatch(c, u, i)
    decreases |c|
  {
    if |c| == 0 then false
    else if c[0].username == u then
      assert FirstMatch(c, u, 0);
      true
    else
      var rest := Present(c[1..], u);
      assert forall i | 1 <= i < |c| :: c[i] == c[1..][i - 1];
      if rest then
        var k :| FirstMatch(c[1..], u, k);
        assert FirstMatch(c, u, k + 1);
        true
      else false
  }

  /** `findIndex` on an exact username match: the position of the first
      matching record, or -1 when there is none. */
  function FindIndex(c: Collection, u: string): (r: int)
    ensures -1 <= r < |c|
    ensures r == -1 <==> !Present(c, u)
    ensures r != -1 ==> FirstMatch(c, u, r)
    decreases |c|
  {
    if |c| == 0 then -1
    else if c[0].username == u then 0
    else
      var k := FindIndex(c[1..], u);
      if k == -1 then
        assert forall i | 1 <= i < |c| :: c[i] == c[1..][i - 1];
        -1
      else
        assert c[k + 1] == c[1..][k];
        k + 1
  }

  /** `find` on an exact username match: the first matching record, if any. */
  function Find(c: Collection, u: string): (r: Option<Credential>)
    ensures r.Some? <==> Present(c, u)
    ensures r.Some? ==> exists i :: FirstMatch(c, u, i) && r.value == c[i]
  {
    var i := FindIndex(c, u);
    if i == -1 then None else Some(c[i])
  }

  /** There is at most one first match. */
  lemma FirstMatchUnique(c: Collection, u: string, i: int, j: int)
    requires FirstMatch(c, u, i) && FirstMatch(c, u, j)
    ensures i == j
  {
  }

  /** No two records share a username. */
  predicate UniqueUsernames(c: Collection) {
    forall i, j :: 0 <= i < j < |c| ==> c[i].username != c[j].username
  }

  /** Appending a record whose name is new keeps usernames unique. */
  lemma AppendFreshKeepsUnique(c: Collection, rec: Credential)
    requires UniqueUsernames(c)
    requires !Present(c, rec.username)
    ensures UniqueUsernames(c + [rec])
  {
  }
}
