/** The request/response state shared by the local and SSO flows: the
    server-held session of one client, the responses the handlers send, and
    passport's session serialization of a user by id. */
module Http {
  import opened Wrappers
  import opened Schema
  import opened Storage
  import opened Tokens

  /** The session: the serialized user id (passport) and the pending SSO
      CSRF state (`scalekitState`). */
  datatype Session = Session(userId: Option<nat>, scalekitState: Option<string>)

  /** The `{id, username}` view of a user sent to clients. */
  datatype PublicUser = PublicUser(id: nat, username: string)

  datatype Response =
    | UserAndToken(status: nat, user: PublicUser, token: Token) // JSON `{user, token}`
    | Message(status: nat, message: string)                     // JSON `{message}`
    | StatusOnly(status: nat)                                   // `sendStatus`
    | AuthUrl(url: string)                                      // JSON `{url}`, status 200
    | TokenRedirect(token: Token)                               // 302 to "/?token=" + signed token
    | ServerError                                               // error passed to `next`: 500

  /** The state a request sees and leaves behind: the store and its session. */
  datatype State = State(store: Store, session: Session)

  datatype Reply = Reply(response: Response, state: State)

  const RedirectTokenPrefix: string := "/?token="

  function StatusOf(r: Response): nat
  {
    match r
    case UserAndToken(status, _, _) => status
    case Message(status, _) => status
    case StatusOnly(status) => status
    case AuthUrl(_) => 200
    case TokenRedirect(_) => 302
    case ServerError => 500
  }

  function Public(u: User): (p: PublicUser)
    ensures p.id == u.id && p.username == u.username
  {
    PublicUser(u.id, u.username)
  }

  /** `serializeUser`: only the id is kept in the session. */
  function SerializeUser(u: User): nat
  {
    u.id
  }

  /** `deserializeUser`: the stored record for the session's id. */
  function DeserializeUser(s: Store, id: nat): (r: Option<User>)
    requires Valid(s)
    ensures r.Some? <==> id in s.users
    ensures r.Some? ==> r.value == s.users[id] && r.value.id == id
  {
    GetUser(s, id)
  }

  /** Serializing a stored record and deserializing it gives the record back,
      in the same store. */
  lemma DeserializeSerialized(s: Store, u: User)
    requires Valid(s) && u.id in s.users && s.users[u.id] == u
    ensures DeserializeUser(s, SerializeUser(u)) == Some(u)
  {
  }

  /** `req.login(user)`: the session now identifies `u` by its id. */
  function LogIn(session: Session, u: User): (r: Session)
    ensures r.userId == Some(u.id) && r.scalekitState == session.scalekitState
  {
    session.(userId := Some(SerializeUser(u)))
  }

  /** The session's user id, when there is one, is a key of the store: the
      case where passport's deserializer finds nothing does not arise. */
  ghost predicate SessionResolves(st: State)
  {
    st.session.userId.Some? ==> st.session.userId.value in st.store.users
  }

  /** `req.user`: the user the session identifies, when it still exists. */
  function CurrentUser(st: State): (r: Option<User>)
    requires Valid(st.store)
    ensures r.Some? <==> st.session.userId.Some? && st.session.userId.value in st.store.users
    ensures r.Some? ==> r.value == st.store.users[st.session.userId.value]
  {
    match st.session.userId
    case None => None
    case Some(id) => DeserializeUser(st.store, id)
  }
}
