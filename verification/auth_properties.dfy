/** Properties of the local flow that relate several requests. */
module AuthProperties {
  import opened Wrappers
  import opened Schema
  import opened Storage
  import opened Uniqueness
  import opened Password
  import opened Tokens
  import opened Http
  import opened Auth

  /** After a new user is added, looking up its (previously unused) username
      finds exactly that user. */
  lemma LookupAddedUser(before: Store, after: Store, u: User)
    requires Valid(before) && Valid(after)
    requires AddedOne(before, after, u)
    requires GetUserByUsername(before, u.username).None?
    ensures GetUserByUsername(after, u.username) == Some(u)
  {
    var r := GetUserByUsername(after, u.username);
    assert after.users[u.id].username == u.username;
    assert r.value.id !in before.users;
  }

  /** Logging in with the credentials just registered succeeds, as the user
      registration created. */
  lemma RegisterThenLogin(st: State, username: string, password: string, salt: seq<byte>, kdf: Kdf)
    requires Valid(st.store) && |salt| == SaltLength
    requires username != "" && password != ""
    requires GetUserByUsername(st.store, username).None?
    ensures var reg := Register(st, Some(username), Some(password), salt, kdf);
            var login := Login(reg.state, Some(username), Some(password), kdf);
            && StatusOf(reg.response) == 201
            && StatusOf(login.response) == 200
            && login.response.user == reg.response.user
            && login.response.token == reg.response.token
  {
    var reg := Register(st, Some(username), Some(password), salt, kdf);
    var u := reg.state.store.users[st.store.nextId];
    LookupAddedUser(st.store, reg.state.store, u);
    HashThenCompare(password, salt, kdf);
  }

  /** Registering a username a second time is refused with "Username already
      exists" and creates no record, whatever the second password. */
  lemma RegisterTwice(st: State, username: string, p1: string, p2: string, s1: seq<byte>, s2: seq<byte>, kdf: Kdf)
    requires Valid(st.store) && |s1| == SaltLength && |s2| == SaltLength
    requires username != "" && p1 != "" && p2 != ""
    ensures var first := Register(st, Some(username), Some(p1), s1, kdf);
            var second := Register(first.state, Some(username), Some(p2), s2, kdf);
            && second.response == Message(400, MsgUsernameTaken)
            && second.state == first.state
  {
    var first := Register(st, Some(username), Some(p1), s1, kdf);
    if StatusOf(first.response) == 201 {
      var u := first.state.store.users[st.store.nextId];
      assert u.username == username;
      assert GetUserByUsername(first.state.store, username).Some?;
    }
  }

  /** Registration keeps every uniqueness constraint of the table: it checks
      the username itself, and a local user has no email or scalekit_id. */
  lemma RegisterKeepsUnique(st: State, username: Option<string>, password: Option<string>,
                            salt: seq<byte>, kdf: Kdf)
    requires Valid(st.store) && Unique(st.store.users) && |salt| == SaltLength
    ensures Unique(Register(st, username, password, salt, kdf).state.store.users)
  {
    if Truthy(username) && Truthy(password) && GetUserByUsername(st.store, username.value).None? {
      CreateUserKeepsUnique(st.store, InsertUser(username.value, HashPassword(password.value, salt, kdf)));
    }
  }

  /** An unknown username and a wrong password get the same 401 reply and
      leave the state as it was, so the answer does not reveal which it was. */
  lemma LoginFailuresLookAlike(st: State, unknown: string, known: string, wrong: string, anyPassword: string, kdf: Kdf)
    requires Valid(st.store)
    requires unknown != "" && known != "" && wrong != "" && anyPassword != ""
    requires GetUserByUsername(st.store, unknown).None?
    requires GetUserByUsername(st.store, known).Some?
    requires ComparePasswords(wrong, GetUserByUsername(st.store, known).value.password, kdf) == Success(false)
    ensures Login(st, Some(unknown), Some(anyPassword), kdf) == Login(st, Some(known), Some(wrong), kdf)
    ensures Login(st, Some(unknown), Some(anyPassword), kdf) == Reply(Message(401, MsgInvalidCredentials), st)
  {
  }

  /** Logging in to an account created by the SSO flow (found first under
      its username) is an error (500), whatever password is given: the
      synthesized `scalekit_...` password cannot be compared. */
  lemma LoginToScalekitAccount(st: State, username: string, password: string, kdf: Kdf)
    requires Valid(st.store)
    requires username != "" && password != ""
    requires forall p, s :: |kdf(p, s)| == KeyLength
    requires GetUserByUsername(st.store, username).Some?
    requires IsScalekitPassword(GetUserByUsername(st.store, username).value.password)
    ensures Login(st, Some(username), Some(password), kdf) == Reply(ServerError, st)
  {
    var stored := GetUserByUsername(st.store, username).value.password;
    assert stored[0] == 's';
    NonHexStoredFormFails(password, stored, kdf);
  }

  /** Every local-flow handler leaves a session whose user id, if any, is a
      stored key, so `/api/user` answers 401 exactly when nobody is logged in. */
  lemma LocalHandlersKeepSessionResolved(st: State, username: Option<string>, password: Option<string>,
                                         salt: seq<byte>, kdf: Kdf)
    requires Valid(st.store) && SessionResolves(st) && |salt| == SaltLength
    ensures SessionResolves(Register(st, username, password, salt, kdf).state)
    ensures SessionResolves(Login(st, username, password, kdf).state)
    ensures SessionResolves(Logout(st).state)
    ensures WhoAmI(st).response == Message(401, MsgUnauthorized) <==> st.session.userId.None?
  {
    var reg := Register(st, username, password, salt, kdf);
    if StatusOf(reg.response) == 201 {
      assert reg.state.session.userId == Some(st.store.nextId);
    }
  }

  /** After logout, `/api/user` answers 401. */
  lemma LogoutThenWhoAmI(st: State)
    requires Valid(st.store)
    ensures WhoAmI(Logout(st).state).response == Message(401, MsgUnauthorized)
  {
  }

  /** After a successful login, `/api/user` returns the same user and an
      equal token. */
  lemma LoginThenWhoAmI(st: State, username: Option<string>, password: Option<string>, kdf: Kdf)
    requires Valid(st.store)
    requires StatusOf(Login(st, username, password, kdf).response) == 200
    ensures var login := Login(st, username, password, kdf);
            WhoAmI(login.state).response == login.response
  {
  }

  /** The walk-through of the local flow: register alice, log in with a wrong
      password (401), log in with the right one (200), log out, and
      `/api/user` then answers 401. The KDF only needs to give the wrong
      password a different key of the same length under the stored salt. */
  lemma AliceScenario(st: State, salt: seq<byte>, kdf: Kdf)
    requires Valid(st.store) && |salt| == SaltLength
    requires GetUserByUsername(st.store, "alice").None?
    requires |kdf("wrong", Hex(salt))| == |kdf("secret1", Hex(salt))|
    requires kdf("wrong", Hex(salt)) != kdf("secret1", Hex(salt))
    ensures var reg := Register(st, Some("alice"), Some("secret1"), salt, kdf);
            var bad := Login(reg.state, Some("alice"), Some("wrong"), kdf);
            var good := Login(bad.state, Some("alice"), Some("secret1"), kdf);
            var out := Logout(good.state);
            && reg.response.UserAndToken? && StatusOf(reg.response) == 201
            && reg.response.token.claims.username == "alice"
            && bad.response == Message(401, MsgInvalidCredentials)
            && StatusOf(good.response) == 200 && good.response.token.claims.username == "alice"
            && WhoAmI(out.state).response == Message(401, MsgUnauthorized)
  {
    var reg := Register(st, Some("alice"), Some("secret1"), salt, kdf);
    var u := reg.state.store.users[st.store.nextId];
    LookupAddedUser(st.store, reg.state.store, u);
    CompareOtherPassword("secret1", "wrong", salt, kdf);
    HashThenCompare("secret1", salt, kdf);
  }
}
