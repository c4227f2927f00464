/** Concrete histories of the provider, worked through on literal data. */
module Scenarios {
  import opened Wrappers
  import opened Credentials
  import opened Auth

  /** An administrator logs in with the default password, adds "bob", bob's
      login with a wrong password is refused, and the administrator resets
      bob's password to the default. */
  lemma AdminAddsAndResetsBob()
    ensures
      var s0 := State(None, [Credential("admin", "Hallo123", Admin, true, None)]);
      var r1 := Login(s0, "admin", "Hallo123");
      var r2 := AddUserCredentials(r1.state, "bob", "pw1", User, None);
      var r3 := Login(r2.state, "bob", "wrong");
      var r4 := ResetUserPassword(r3.state, "bob");
      && r1.outcome.Ok? && r1.state.session == Some(Session("admin", Admin, None))
      && r2.outcome.Ok? && |r2.state.credentials| == 2
      && r2.state.credentials[1] == Credential("bob", "pw1", User, true, None)
      && r3 == Step(Err(InvalidCredentials), r2.state)
      && r4.outcome.Ok?
      && r4.state.credentials[1] == Credential("bob", DefaultPassword, User, true, None)
  {
  }

  /** Why unique usernames matter: with two records named "bob", the second
      one can never log in, because the lookup stops at the first. */
  lemma DuplicateShadowsLaterRecord()
    ensures
      var c := [Credential("bob", "first", User, false, None),
                Credential("bob", "second", Admin, false, None)];
      && !UniqueUsernames(c)
      && Login(State(None, c), "bob", "second").outcome.Err?
  {
    var c := [Credential("bob", "first", User, false, None),
              Credential("bob", "second", Admin, false, None)];
    assert c[0].username == c[1].username;
    assert FirstMatch(c, "bob", 0);
    forall i | FirstMatch(c, "bob", i)
      ensures i == 0
    {
      FirstMatchUnique(c, "bob", 0, i);
    }
    assert "first" != "second";
  }

  /** An account created by an administrator is flagged as having the default
      password even when the password it was given is a different one. */
  lemma AddedAccountFlaggedDefault()
    ensures
      var s := State(Some(Session("admin", Admin, None)), []);
      var r := AddUserCredentials(s, "bob", "pw1", User, None);
      && r.outcome.Ok?
      && r.state.credentials[0].isDefaultPassword
      && r.state.credentials[0].password != DefaultPassword
  {
  }
}
