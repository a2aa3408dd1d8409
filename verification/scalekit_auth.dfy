/** The SSO flow: `/api/auth/scalekit` stores a fresh CSRF state in the
    session and answers with the provider's authorization URL;
    `/api/auth/callback` checks and consumes that state, exchanges the code,
    fetches the profile and reconciles it with the store. The provider's
    answers (token response, profile), the random state bytes, the random
    password suffix and the clock are inputs. */
module ScalekitAuth {
  import opened Wrappers
  import opened Schema
  import opened Storage
  import opened Password
  import opened Tokens
  import opened Http
  import opened Scalekit

  const MsgInvalidState: string := "Invalid state parameter"
  const MsgCodeMissing: string := "Authorization code missing"
  const StateBytes: nat := 16
  const GeneratedUsernamePrefix: string := "user_"

  /** `GET /api/auth/scalekit`: the hex text of the random bytes becomes the
      session's state before the URL is built, so a configuration error
      (500) still leaves the new state stored. */
  function Initiate(st: State, cfg: Config, random: seq<byte>): (r: Reply)
    requires |random| == StateBytes
    ensures r.state.store == st.store
    ensures r.state.session.userId == st.session.userId
    ensures r.state.session.scalekitState == Some(Hex(random))
    ensures Truthy(r.state.session.scalekitState)
    ensures r.response.AuthUrl? <==> Truthy(cfg.environmentUrl) && Truthy(cfg.clientId)
    ensures !r.response.AuthUrl? ==> r.response == ServerError
    ensures r.response.AuthUrl? ==>
              r.response.url == cfg.environmentUrl.value + AuthorizePath + "?"
                                + QueryString(AuthorizationParams(cfg, Hex(random)).value)
  {
    var state := Hex(random);
    var session := st.session.(scalekitState := Some(state));
    match GetAuthorizationUrl(cfg, state)
    case Failure(_) => Reply(ServerError, State(st.store, session))
    case Success(url) => Reply(AuthUrl(url), State(st.store, session))
  }

  /** The callback's CSRF check: a present, non-empty query state equal to
      the state stored in the session. */
  predicate StateMatches(query: Option<string>, session: Session)
  {
    Truthy(query) && query == session.scalekitState
  }

  /** `Math.floor(now / 1000) + expires_in`: the expiry in epoch seconds for
      a clock reading in milliseconds. */
  function ExpiresAt(nowMs: int, expiresIn: int): (t: int)
    ensures (t - expiresIn) * 1000 <= nowMs < (t - expiresIn + 1) * 1000
  {
    nowMs / 1000 + expiresIn
  }

  /** The username of a new SSO user: the profile's username, else its email,
      else "user_" followed by the subject id (empty strings fall through). */
  function SsoUsername(p: Profile): (name: string)
    ensures Truthy(p.username) ==> name == p.username.value
    ensures !Truthy(p.username) && Truthy(p.email) ==> name == p.email.value
    ensures !Truthy(p.username) && !Truthy(p.email) ==> name == GeneratedUsernamePrefix + p.id
    ensures name != ""
  {
    if Truthy(p.username) then p.username.value
    else if Truthy(p.email) then p.email.value
    else GeneratedUsernamePrefix + p.id
  }

  /** The insert shape built for a new SSO user. */
  function NewUserData(p: Profile, t: TokenResponse, expiresAt: int): InsertScalekitUser
  {
    InsertScalekitUser(
      SsoUsername(p),
      if Truthy(p.email) then Present(p.email.value) else Null,
      Present(p.id),
      if Truthy(p.firstName) then Present(p.firstName.value) else Null,
      if Truthy(p.lastName) then Present(p.lastName.value) else Null,
      Present(t.accessToken), Present(t.refreshToken), Present(t.idToken),
      Present(expiresAt))
  }

  /** Which reconciliation branch a profile takes against a store. */
  datatype Branch = BySubject | ByEmail | NewUser

  function BranchOf(s: Store, p: Profile): Branch
    requires Valid(s)
  {
    if GetUserByScalekitId(s, p.id).Some? then BySubject
    else if Truthy(p.email) && GetUserByEmail(s, p.email.value).Some? then ByEmail
    else NewUser
  }

  /** The account reconciliation. A user already linked to the subject id
      gets fresh tokens; else a user with the profile's (non-empty) email gets
      fresh tokens, and its scalekit_id is left as it was; else one new user
      is created from the profile. The update cannot fail here: it is only
      called with the id of a record just found. */
  function Reconcile(s: Store, p: Profile, t: TokenResponse, nowMs: int, randomSuffix: string): (r: Result<Stored, StoreError>)
    requires Valid(s)
    ensures r.Success? && Valid(r.value.store)
    ensures BranchOf(s, p) == BySubject ==>
              && r.value.user.id == GetUserByScalekitId(s, p.id).value.id
              && TokensReplaced(s, r.value.store, r.value.user.id, r.value.user)
    ensures BranchOf(s, p) == ByEmail ==>
              && r.value.user.id == GetUserByEmail(s, p.email.value).value.id
              && TokensReplaced(s, r.value.store, r.value.user.id, r.value.user)
              && r.value.user.scalekitId == GetUserByEmail(s, p.email.value).value.scalekitId
    ensures BranchOf(s, p) != NewUser ==>
              && r.value.user.accessToken == Some(t.accessToken)
              && r.value.user.refreshToken == Some(t.refreshToken)
              && r.value.user.idToken == Some(t.idToken)
              && r.value.user.tokenExpiresAt == Some(ExpiresAt(nowMs, t.expiresIn))
    ensures BranchOf(s, p) == NewUser ==>
              && AddedOne(s, r.value.store, r.value.user)
              && r.value.user.username == SsoUsername(p)
              && r.value.user.scalekitId == Some(p.id)
              && r.value.user.email == OrNullIfEmpty(p.email)
              && r.value.user.firstName == OrNullIfEmpty(p.firstName)
              && r.value.user.lastName == OrNullIfEmpty(p.lastName)
              && r.value.user.accessToken == Some(t.accessToken)
              && r.value.user.refreshToken == Some(t.refreshToken)
              && r.value.user.idToken == Some(t.idToken)
              && r.value.user.tokenExpiresAt == Some(ExpiresAt(nowMs, t.expiresIn))
              && IsScalekitPassword(r.value.user.password)
  {
    var expiresAt := ExpiresAt(nowMs, t.expiresIn);
    match GetUserByScalekitId(s, p.id)
    case Some(u) => UpdateUserTokens(s, u.id, t.accessToken, t.refreshToken, t.idToken, expiresAt)
    case None =>
      if Truthy(p.email) && GetUserByEmail(s, p.email.value).Some? then
        UpdateUserTokens(s, GetUserByEmail(s, p.email.value).value.id,
                         t.accessToken, t.refreshToken, t.idToken, expiresAt)
      else
        Success(CreateScalekitUser(s, NewUserData(p, t, expiresAt), randomSuffix))
  }

  /** `GET /api/auth/callback`. A missing or mismatched state is refused
      with 400 before anything changes, the stored state included. A
      matching state is deleted first; then a missing code is refused with
      400; then a configuration error or a provider failure (`tokens` or
      `profile` absent) is a 500; otherwise the reconciled user is logged in
      and the browser is redirected with that user's token. */
  function Callback(st: State, cfg: Config, code: Option<string>, state: Option<string>,
                    tokens: Option<TokenResponse>, profile: Option<Profile>,
                    nowMs: int, randomSuffix: string): (r: Reply)
    requires Valid(st.store)
    ensures Valid(r.state.store)
    ensures !StateMatches(state, st.session) ==> r == Reply(Message(400, MsgInvalidState), st)
    ensures StateMatches(state, st.session) ==>
              r.state.session.scalekitState.None? && r.response != Message(400, MsgInvalidState)
    ensures StateMatches(state, st.session) && !Truthy(code) ==>
              r == Reply(Message(400, MsgCodeMissing), st.(session := st.session.(scalekitState := None)))
    ensures r.response.TokenRedirect? <==>
              && StateMatches(state, st.session) && Truthy(code)
              && ExchangeCodeRequest(cfg, code.value).Success? && tokens.Some? && profile.Some?
    ensures !r.response.TokenRedirect? ==> r.state.store == st.store
    ensures StateMatches(state, st.session) && Truthy(code) && !r.response.TokenRedirect? ==>
              r == Reply(ServerError, st.(session := st.session.(scalekitState := None)))
    ensures r.response.TokenRedirect? ==>
              var res := Reconcile(st.store, profile.value, tokens.value, nowMs, randomSuffix).value;
              && r.state.store == res.store
              && r.state.session == Session(Some(res.user.id), None)
              && r.response.token == GenerateToken(res.user)
  {
    if !StateMatches(state, st.session) then
      Reply(Message(400, MsgInvalidState), st)
    else
      var cleared := st.(session := st.session.(scalekitState := None));
      if !Truthy(code) then
        Reply(Message(400, MsgCodeMissing), cleared)
      else if ExchangeCodeRequest(cfg, code.value).Failure? || tokens.None? then
        Reply(ServerError, cleared)
      else if UserInfoRequest(cfg, tokens.value.accessToken).Failure? || profile.None? then
        Reply(ServerError, cleared)
      else
        match Reconcile(st.store, profile.value, tokens.value, nowMs, randomSuffix)
        case Failure(_) => Reply(ServerError, cleared)
        case Success(res) =>
          Reply(TokenRedirect(GenerateToken(res.user)), State(res.store, LogIn(cleared.session, res.user)))
  }
}
