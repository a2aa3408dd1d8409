/** Properties of the SSO flow that relate several requests or states. */
module ScalekitProperties {
  import opened Wrappers
  import opened Text
  import opened Schema
  import opened Storage
  import opened Uniqueness
  import opened Password
  import opened Tokens
  import opened Http
  import opened Scalekit
  import opened ScalekitAuth

  /** The state stored by the initiate step can be read back from the query
      of the URL it returns (when the client id and redirect URI need no
      escaping, since percent-encoding is not modelled). */
  lemma InitiateUrlCarriesState(st: State, cfg: Config, random: seq<byte>)
    requires |random| == StateBytes
    requires Truthy(cfg.environmentUrl) && Truthy(cfg.clientId)
    requires PlainText(cfg.clientId.value) && PlainText(RedirectUri(cfg))
    ensures var r := Initiate(st, cfg, random);
            var prefix := cfg.environmentUrl.value + AuthorizePath + "?";
            && r.response.AuthUrl?
            && |prefix| <= |r.response.url| && r.response.url[..|prefix|] == prefix
            && Lookup(ParseQuery(r.response.url[|prefix|..]), "state") == r.state.session.scalekitState
  {
    var state := Hex(random);
    assert PlainText(state);
    AuthorizationUrlCarriesState(cfg, state);
  }

  /** A state passes the check at most once: after any callback that accepted
      it, every further callback is refused as an invalid state until a new
      initiate step stores a new one. */
  lemma StateSingleUse(st: State, cfg: Config, code: Option<string>, state: Option<string>,
                       tokens: Option<TokenResponse>, profile: Option<Profile>, nowMs: int, suffix: string,
                       code2: Option<string>, state2: Option<string>,
                       tokens2: Option<TokenResponse>, profile2: Option<Profile>, nowMs2: int, suffix2: string)
    requires Valid(st.store)
    requires StateMatches(state, st.session)
    ensures var first := Callback(st, cfg, code, state, tokens, profile, nowMs, suffix);
            Callback(first.state, cfg, code2, state2, tokens2, profile2, nowMs2, suffix2)
              == Reply(Message(400, MsgInvalidState), first.state)
  {
  }

  /** The SSO handlers also leave a session whose user id, if any, is a
      stored key: the initiate step keeps the session's user... */
  lemma InitiateKeepsSessionResolved(st: State, cfg: Config, random: seq<byte>)
    requires Valid(st.store) && SessionResolves(st) && |random| == StateBytes
    ensures SessionResolves(Initiate(st, cfg, random).state)
  {
  }

  /** ...and the callback logs in only a user it has just stored. */
  lemma CallbackKeepsSessionResolved(st: State, cfg: Config, code: Option<string>,
                                     state: Option<string>, tokens: Option<TokenResponse>,
                                     profile: Option<Profile>, nowMs: int, suffix: string)
    requires Valid(st.store) && SessionResolves(st)
    ensures SessionResolves(Callback(st, cfg, code, state, tokens, profile, nowMs, suffix).state)
  {
    var r := Callback(st, cfg, code, state, tokens, profile, nowMs, suffix);
    if r.response.TokenRedirect? {
      ReconcileStoresUser(st.store, profile.value, tokens.value, nowMs, suffix);
    }
  }

  /** The user a reconciliation returns is stored under its id. */
  lemma ReconcileStoresUser(s: Store, p: Profile, t: TokenResponse, nowMs: int, suffix: string)
    requires Valid(s)
    ensures var r := Reconcile(s, p, t, nowMs, suffix).value;
            r.user.id in r.store.users && r.store.users[r.user.id] == r.user
  {
  }

  /** A token update changes no username, email or scalekit_id, so every
      lookup finds the same record id afterwards. */
  lemma LookupsSurviveTokenUpdate(before: Store, after: Store, id: nat, u: User, p: User -> bool)
    requires Valid(before) && Valid(after)
    requires TokensReplaced(before, after, id, u)
    requires p(u) == p(before.users[id])
    ensures Find(after, p).Some? == Find(before, p).Some?
    ensures Find(after, p).Some? ==> Find(after, p).value.id == Find(before, p).value.id
  {
    assert forall k :: k in before.users ==> (p(after.users[k]) <==> p(before.users[k]));
  }

  /** The email-link branch leaves the linked user's scalekit_id as it was:
      a user that was not linked to the subject still is not, so the next
      login for the same profile takes the email branch again. */
  lemma EmailLinkLeavesSubjectUnlinked(s: Store, p: Profile, t: TokenResponse, nowMs: int, suffix: string)
    requires Valid(s)
    requires BranchOf(s, p) == ByEmail
    ensures var r := Reconcile(s, p, t, nowMs, suffix).value;
            && GetUserByScalekitId(r.store, p.id).None?
            && BranchOf(r.store, p) == ByEmail
            && GetUserByEmail(r.store, p.email.value).value.id == r.user.id
  {
    var r := Reconcile(s, p, t, nowMs, suffix).value;
    LookupsSurviveTokenUpdate(s, r.store, r.user.id, r.user, (u: User) => u.scalekitId == Some(p.id));
    LookupsSurviveTokenUpdate(s, r.store, r.user.id, r.user, (u: User) => u.email == Some(p.email.value));
  }

  /** After a reconciliation, the same profile takes an update branch and
      resolves to the same user. */
  lemma ReconcileAgainResolvesSameUser(s: Store, p: Profile, t: TokenResponse, nowMs: int, suffix: string)
    requires Valid(s)
    ensures var r := Reconcile(s, p, t, nowMs, suffix).value;
            && BranchOf(r.store, p) != NewUser
            && (BranchOf(r.store, p) == BySubject ==> GetUserByScalekitId(r.store, p.id).value.id == r.user.id)
            && (BranchOf(r.store, p) == ByEmail ==> GetUserByEmail(r.store, p.email.value).value.id == r.user.id)
  {
    var r := Reconcile(s, p, t, nowMs, suffix).value;
    match BranchOf(s, p)
    case BySubject =>
      LookupsSurviveTokenUpdate(s, r.store, r.user.id, r.user, (u: User) => u.scalekitId == Some(p.id));
    case ByEmail =>
      EmailLinkLeavesSubjectUnlinked(s, p, t, nowMs, suffix);
    case NewUser =>
      var found := GetUserByScalekitId(r.store, p.id);
      assert r.store.users[r.user.id].scalekitId == Some(p.id);
      assert found.value.id !in s.users;
  }

  /** A reconciliation adds at most one record, and none when it takes an
      update branch. */
  lemma ReconcileGrowth(s: Store, p: Profile, t: TokenResponse, nowMs: int, suffix: string)
    requires Valid(s)
    ensures var r := Reconcile(s, p, t, nowMs, suffix).value;
            && s.users.Keys <= r.store.users.Keys
            && |r.store.users| <= |s.users| + 1
            && (BranchOf(s, p) != NewUser ==> r.store.users.Keys == s.users.Keys)
  {
    var r := Reconcile(s, p, t, nowMs, suffix).value;
    if BranchOf(s, p) == NewUser {
      assert r.store.users.Keys == s.users.Keys + {r.user.id};
    } else {
      assert r.store.users.Keys == s.users.Keys;
    }
  }

  /** Reconciling the same profile twice resolves to the same user and adds
      at most one record in all: the second time takes an update branch. */
  lemma ReconcileTwice(s: Store, p: Profile, t1: TokenResponse, t2: TokenResponse,
                       now1: int, now2: int, suffix1: string, suffix2: string)
    requires Valid(s)
    ensures var r1 := Reconcile(s, p, t1, now1, suffix1).value;
            var r2 := Reconcile(r1.store, p, t2, now2, suffix2).value;
            && r2.user.id == r1.user.id
            && r2.store.users.Keys == r1.store.users.Keys
            && |r2.store.users| <= |s.users| + 1
  {
    var r1 := Reconcile(s, p, t1, now1, suffix1).value;
    ReconcileAgainResolvesSameUser(s, p, t1, now1, suffix1);
    ReconcileGrowth(s, p, t1, now1, suffix1);
    ReconcileGrowth(r1.store, p, t2, now2, suffix2);
  }

  /** A callback whose state matches, with a code, a configuration that
      yields the token request and both provider answers, logs in the
      reconciled user and leaves no pending state. */
  lemma CallbackAccepted(st: State, cfg: Config, code: string, state: Option<string>,
                         t: TokenResponse, p: Profile, nowMs: int, suffix: string)
    requires Valid(st.store)
    requires StateMatches(state, st.session) && code != ""
    requires Truthy(cfg.environmentUrl) && Truthy(cfg.clientId) && Truthy(cfg.clientSecret)
    ensures var b := Callback(st, cfg, Some(code), state, Some(t), Some(p), nowMs, suffix);
            var res := Reconcile(st.store, p, t, nowMs, suffix).value;
            && b.response == TokenRedirect(GenerateToken(res.user))
            && b.state == State(res.store, Session(Some(res.user.id), None))
  {
  }

  /** An initiate step followed by the callback that returns its state, with
      a code and the provider's answers, logs in the reconciled user and
      leaves no pending state. */
  lemma InitiateThenCallback(st: State, cfg: Config, random: seq<byte>, code: string,
                             t: TokenResponse, p: Profile, nowMs: int, suffix: string)
    requires Valid(st.store)
    requires |random| == StateBytes && code != ""
    requires Truthy(cfg.environmentUrl) && Truthy(cfg.clientId) && Truthy(cfg.clientSecret)
    ensures var a := Initiate(st, cfg, random).state;
            var b := Callback(a, cfg, Some(code), Some(Hex(random)), Some(t), Some(p), nowMs, suffix);
            var res := Reconcile(st.store, p, t, nowMs, suffix).value;
            && b.response == TokenRedirect(GenerateToken(res.user))
            && b.state == State(res.store, Session(Some(res.user.id), None))
  {
    var a := Initiate(st, cfg, random).state;
    CallbackAccepted(a, cfg, code, Some(Hex(random)), t, p, nowMs, suffix);
  }

  /** The same, one level up: a second SSO login for the same profile, after
      a fresh initiate step, logs in the user of the first and creates no
      record. */
  lemma RepeatCallbackNoDuplicate(st: State, cfg: Config, random1: seq<byte>, random2: seq<byte>,
                                  code1: string, code2: string, t1: TokenResponse, t2: TokenResponse,
                                  p: Profile, now1: int, now2: int, suffix1: string, suffix2: string)
    requires Valid(st.store)
    requires |random1| == StateBytes && |random2| == StateBytes
    requires code1 != "" && code2 != ""
    requires Truthy(cfg.environmentUrl) && Truthy(cfg.clientId) && Truthy(cfg.clientSecret)
    ensures var a := Initiate(st, cfg, random1).state;
            var b := Callback(a, cfg, Some(code1), Some(Hex(random1)), Some(t1), Some(p), now1, suffix1);
            var c := Initiate(b.state, cfg, random2).state;
            var d := Callback(c, cfg, Some(code2), Some(Hex(random2)), Some(t2), Some(p), now2, suffix2);
            && b.response.TokenRedirect? && d.response.TokenRedirect?
            && d.state.session.userId == b.state.session.userId
            && d.state.store.users.Keys == b.state.store.users.Keys
            && |d.state.store.users| <= |st.store.users| + 1
  {
    InitiateThenCallback(st, cfg, random1, code1, t1, p, now1, suffix1);
    var a := Initiate(st, cfg, random1).state;
    var b := Callback(a, cfg, Some(code1), Some(Hex(random1)), Some(t1), Some(p), now1, suffix1);
    InitiateThenCallback(b.state, cfg, random2, code2, t2, p, now2, suffix2);
    ReconcileTwice(st.store, p, t1, t2, now1, now2, suffix1, suffix2);
  }
  /** Reconciliation keeps all three uniqueness constraints when a new user
      would not reuse an existing username. Its own checks keep email and
      scalekit_id unique. */
  lemma ReconcileKeepsUnique(s: Store, p: Profile, t: TokenResponse, nowMs: int, suffix: string)
    requires Valid(s) && Unique(s.users)
    requires BranchOf(s, p) == NewUser ==> GetUserByUsername(s, SsoUsername(p)).None?
    ensures Unique(Reconcile(s, p, t, nowMs, suffix).value.store.users)
  {
    var data := NewUserData(p, t, ExpiresAt(nowMs, t.expiresIn));
    match BranchOf(s, p)
    case BySubject =>
      UpdateUserTokensKeepsUnique(s, GetUserByScalekitId(s, p.id).value.id,
                                  t.accessToken, t.refreshToken, t.idToken, ExpiresAt(nowMs, t.expiresIn));
    case ByEmail =>
      UpdateUserTokensKeepsUnique(s, GetUserByEmail(s, p.email.value).value.id,
                                  t.accessToken, t.refreshToken, t.idToken, ExpiresAt(nowMs, t.expiresIn));
    case NewUser =>
      CreateScalekitUserKeepsUnique(s, data, suffix);
  }

  /** The SSO flow does not check usernames: when the derived username is
      already taken, the created user duplicates it. */
  lemma ReconcileUsernameCollision(s: Store, p: Profile, t: TokenResponse, nowMs: int, suffix: string)
    requires Valid(s)
    requires BranchOf(s, p) == NewUser
    requires GetUserByUsername(s, SsoUsername(p)).Some?
    ensures !UniqueUsernames(Reconcile(s, p, t, nowMs, suffix).value.store.users)
  {
    var r := Reconcile(s, p, t, nowMs, suffix).value;
    var taken := GetUserByUsername(s, SsoUsername(p)).value;
    assert r.store.users[taken.id].username == r.store.users[r.user.id].username;
    assert taken.id != r.user.id;
  }

  /** A concrete case of the collision: a local user "alice" exists, and an
      SSO profile with username "alice" and an unused email logs in. */
  lemma AliceCollision(t: TokenResponse, nowMs: int, suffix: string)
    ensures var local := CreateUser(NewStore(), InsertUser("alice", "digest.salt")).store;
            var p := Profile("sub-1", Some("alice@example.com"), Some("alice"), None, None);
            && BranchOf(local, p) == NewUser
            && !UniqueUsernames(Reconcile(local, p, t, nowMs, suffix).value.store.users)
  {
    var local := CreateUser(NewStore(), InsertUser("alice", "digest.salt")).store;
    var p := Profile("sub-1", Some("alice@example.com"), Some("alice"), None, None);
    assert local.users[1].username == "alice";
    ReconcileUsernameCollision(local, p, t, nowMs, suffix);
  }
}
