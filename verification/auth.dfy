/** The local authentication flow: `/api/register`, `/api/login` (the
    passport local strategy), `/api/logout` and `/api/user`, each a function
    from the request's inputs and state to the response and the new state.
    The random salt and the KDF of the password hasher are parameters. */
module Auth {
  import opened Wrappers
  import opened Schema
  import opened Storage
  import opened Password
  import opened Tokens
  import opened Http

  const MsgFieldsRequired: string := "Username and password are required"
  const MsgUsernameTaken: string := "Username already exists"
  const MsgInvalidCredentials: string := "Invalid username or password"
  const MsgUnauthorized: string := "Unauthorized"

  /** `POST /api/register`. Missing or empty fields give 400; a taken
      username gives 400; otherwise the hashed password is stored in a new
      user, the session logs that user in, and 201 carries its `{id,
      username}` and token. */
  function Register(st: State, username: Option<string>, password: Option<string>,
                    salt: seq<byte>, kdf: Kdf): (r: Reply)
    requires Valid(st.store)
    requires |salt| == SaltLength
    ensures Valid(r.state.store)
    ensures StatusOf(r.response) == 201 <==>
              Truthy(username) && Truthy(password) && GetUserByUsername(st.store, username.value).None?
    ensures !Truthy(username) || !Truthy(password) ==> r == Reply(Message(400, MsgFieldsRequired), st)
    ensures Truthy(username) && Truthy(password) && GetUserByUsername(st.store, username.value).Some? ==>
              r == Reply(Message(400, MsgUsernameTaken), st)
    ensures StatusOf(r.response) == 201 ==> st.store.nextId in r.state.store.users
    ensures StatusOf(r.response) == 201 ==>
              var u := r.state.store.users[st.store.nextId];
              && AddedOne(st.store, r.state.store, u)
              && u.username == username.value
              && u.password == HashPassword(password.value, salt, kdf)
              && u.email.None? && u.scalekitId.None?
              && r.state.session == LogIn(st.session, u)
              && r.response == UserAndToken(201, Public(u), GenerateToken(u))
  {
    if !Truthy(username) || !Truthy(password) then
      Reply(Message(400, MsgFieldsRequired), st)
    else if GetUserByUsername(st.store, username.value).Some? then
      Reply(Message(400, MsgUsernameTaken), st)
    else
      var hashed := HashPassword(password.value, salt, kdf);
      var created := CreateUser(st.store, InsertUser(username.value, hashed));
      var u := created.user;
      Reply(UserAndToken(201, Public(u), GenerateToken(u)), State(created.store, LogIn(st.session, u)))
  }

  /** The local strategy's verdict: the user, no user (`done(null, false)`),
      or an error thrown while comparing (`done(error)`). */
  datatype Verdict = Accepted(user: User) | Rejected | Errored

  /** The local strategy. passport-local rejects a missing or empty field
      before calling it; an unknown username and a wrong password are both
      rejected; a stored form that cannot be compared is an error. */
  function Authenticate(s: Store, username: Option<string>, password: Option<string>, kdf: Kdf): (v: Verdict)
    requires Valid(s)
    ensures v.Accepted? ==>
              && Truthy(username) && Truthy(password)
              && GetUserByUsername(s, username.value) == Some(v.user)
              && ComparePasswords(password.value, v.user.password, kdf) == Success(true)
    ensures v.Errored? <==>
              && Truthy(username) && Truthy(password)
              && GetUserByUsername(s, username.value).Some?
              && ComparePasswords(password.value, GetUserByUsername(s, username.value).value.password, kdf).Failure?
    ensures Truthy(username) && Truthy(password) && GetUserByUsername(s, username.value).Some?
            && ComparePasswords(password.value, GetUserByUsername(s, username.value).value.password, kdf) == Success(true)
            ==> v == Accepted(GetUserByUsername(s, username.value).value)
  {
    if !Truthy(username) || !Truthy(password) then Rejected
    else
      match GetUserByUsername(s, username.value)
      case None => Rejected
      case Some(u) =>
        match ComparePasswords(password.value, u.password, kdf)
        case Failure(_) => Errored
        case Success(ok) => if ok then Accepted(u) else Rejected
  }

  /** `POST /api/login`. Never changes the store. A rejected login is one
      401 whatever the reason, with the session untouched; an accepted one
      logs the user in and answers 200 with `{id, username}` and a token. */
  function Login(st: State, username: Option<string>, password: Option<string>, kdf: Kdf): (r: Reply)
    requires Valid(st.store)
    ensures r.state.store == st.store
    ensures StatusOf(r.response) != 200 ==> r.state == st
    ensures Authenticate(st.store, username, password, kdf).Rejected? <==>
              r == Reply(Message(401, MsgInvalidCredentials), st)
    ensures Authenticate(st.store, username, password, kdf).Errored? <==> r.response == ServerError
    ensures StatusOf(r.response) == 200 <==> Authenticate(st.store, username, password, kdf).Accepted?
    ensures StatusOf(r.response) == 200 ==>
              var u := Authenticate(st.store, username, password, kdf).user;
              && u.username == username.value
              && r.response == UserAndToken(200, Public(u), GenerateToken(u))
              && r.state.session == LogIn(st.session, u)
  {
    match Authenticate(st.store, username, password, kdf)
    case Rejected => Reply(Message(401, MsgInvalidCredentials), st)
    case Errored => Reply(ServerError, st)
    case Accepted(u) => Reply(UserAndToken(200, Public(u), GenerateToken(u)), st.(session := LogIn(st.session, u)))
  }

  /** `POST /api/logout`: the session no longer identifies a user. */
  function Logout(st: State): (r: Reply)
    ensures r.response == StatusOnly(200)
    ensures r.state.store == st.store
    ensures r.state.session.userId.None?
    ensures r.state.session.scalekitState == st.session.scalekitState
  {
    Reply(StatusOnly(200), st.(session := st.session.(userId := None)))
  }

  /** `GET /api/user`: 401 without a session user; otherwise that user's
      `{id, username}` and a freshly generated token. Changes nothing. */
  function WhoAmI(st: State): (r: Reply)
    requires Valid(st.store)
    ensures r.state == st
    ensures CurrentUser(st).None? <==> r.response == Message(401, MsgUnauthorized)
    ensures CurrentUser(st).Some? ==>
              r.response == UserAndToken(200, Public(CurrentUser(st).value), GenerateToken(CurrentUser(st).value))
  {
    match CurrentUser(st)
    case None => Reply(Message(401, MsgUnauthorized), st)
    case Some(u) => Reply(UserAndToken(200, Public(u), GenerateToken(u)), st)
  }
}
