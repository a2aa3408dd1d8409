/** The pure part of the identity-provider client: configuration guards and
    the parameters of the authorization request, the token request, the
    refresh request (sections 4.1.1, 4.1.3 and 6 of RFC 6749) and the
    userinfo request. The HTTP calls themselves are outside the model;
    their answers appear as `TokenResponse` and `Profile` values. */
module Scalekit {
  import opened Wrappers
  import opened Text

  /** The environment settings; `None` is an unset variable. */
  datatype Config = Config(
    environmentUrl: Option<string>,
    clientId: Option<string>,
    clientSecret: Option<string>,
    appUrl: Option<string>)

  datatype ConfigError =
    | VariablesNotSet      // "Scalekit environment variables not set"
    | EnvironmentUrlNotSet // "Scalekit environment URL not set"

  /** A form or query parameter, as a raw key/value pair. */
  type Param = (string, string)

  /** A request to the provider: its URL, its form body and its headers. */
  datatype ProviderRequest = ProviderRequest(url: string, body: seq<Param>, headers: seq<Param>)

  /** The token endpoint's answer. */
  datatype TokenResponse = TokenResponse(
    accessToken: string,
    refreshToken: string,
    idToken: string,
    tokenType: string,
    expiresIn: int)

  /** The userinfo endpoint's answer; optional members may be absent. */
  datatype Profile = Profile(
    id: string,
    email: Option<string>,
    username: Option<string>,
    firstName: Option<string>,
    lastName: Option<string>)

  const DefaultAppUrl: string := "http://localhost:5000"
  const CallbackPath: string := "/api/auth/callback"
  const AuthorizePath: string := "/oauth2/authorize"
  const TokenPath: string := "/oauth2/token"
  const UserInfoPath: string := "/userinfo"
  const Scope: string := "openid profile email"
  const FormHeaders: seq<Param> := [("Content-Type", "application/x-www-form-urlencoded")]

  /** `REDIRECT_URI`: the application URL (or the local default when unset or
      empty) followed by the callback path. */
  function RedirectUri(cfg: Config): (r: string)
    ensures |r| >= |CallbackPath| && r[|r| - |CallbackPath|..] == CallbackPath
    ensures Truthy(cfg.appUrl) ==> r[..|r| - |CallbackPath|] == cfg.appUrl.value
    ensures !Truthy(cfg.appUrl) ==> r[..|r| - |CallbackPath|] == DefaultAppUrl
  {
    (if Truthy(cfg.appUrl) then cfg.appUrl.value else DefaultAppUrl) + CallbackPath
  }

  /** The parameters of the authorization request: response type, client id,
      redirect URI, scope and state, in that order. Needs the environment URL
      and the client id. */
  function AuthorizationParams(cfg: Config, state: string): (r: Result<seq<Param>, ConfigError>)
    ensures r.Failure? <==> !Truthy(cfg.environmentUrl) || !Truthy(cfg.clientId)
    ensures r.Failure? ==> r.error == VariablesNotSet
    ensures r.Success? ==> |r.value| == 5 && Keys(r.value) == ["response_type", "client_id", "redirect_uri", "scope", "state"]
    ensures r.Success? ==> Lookup(r.value, "response_type") == Some("code")
    ensures r.Success? ==> Lookup(r.value, "client_id") == cfg.clientId
    ensures r.Success? ==> Lookup(r.value, "redirect_uri") == Some(RedirectUri(cfg))
    ensures r.Success? ==> Lookup(r.value, "scope") == Some(Scope)
    ensures r.Success? ==> Lookup(r.value, "state") == Some(state)
  {
    if !Truthy(cfg.environmentUrl) || !Truthy(cfg.clientId) then Failure(VariablesNotSet)
    else
      var ps := [("response_type", "code"), ("client_id", cfg.clientId.value),
                 ("redirect_uri", RedirectUri(cfg)), ("scope", Scope), ("state", state)];
      assert DistinctKeys(ps);
      Success(ps)
  }

  /** `getAuthorizationUrl`: the environment URL, the authorize path, "?"
      and the query text of the authorization parameters. */
  function GetAuthorizationUrl(cfg: Config, state: string): (r: Result<string, ConfigError>)
    ensures r.Failure? <==> AuthorizationParams(cfg, state).Failure?
    ensures r.Failure? ==> r.error == VariablesNotSet
    ensures r.Success? ==>
              r.value == cfg.environmentUrl.value + AuthorizePath + "?" + QueryString(AuthorizationParams(cfg, state).value)
  {
    match AuthorizationParams(cfg, state)
    case Failure(e) => Failure(e)
    case Success(ps) => Success(cfg.environmentUrl.value + AuthorizePath + "?" + QueryString(ps))
  }

  /** `exchangeCodeForTokens`: the token request for an authorization code.
      Needs the environment URL, client id and client secret. */
  function ExchangeCodeRequest(cfg: Config, code: string): (r: Result<ProviderRequest, ConfigError>)
    ensures r.Failure? <==> !Truthy(cfg.environmentUrl) || !Truthy(cfg.clientId) || !Truthy(cfg.clientSecret)
    ensures r.Failure? ==> r.error == VariablesNotSet
    ensures r.Success? ==> r.value.url == cfg.environmentUrl.value + TokenPath
    ensures r.Success? ==> Keys(r.value.body) == ["grant_type", "code", "redirect_uri", "client_id", "client_secret"]
    ensures r.Success? ==> Lookup(r.value.body, "grant_type") == Some("authorization_code")
    ensures r.Success? ==> Lookup(r.value.body, "code") == Some(code)
    ensures r.Success? ==> Lookup(r.value.body, "redirect_uri") == Some(RedirectUri(cfg))
    ensures r.Success? ==> Lookup(r.value.body, "client_id") == cfg.clientId
    ensures r.Success? ==> Lookup(r.value.body, "client_secret") == cfg.clientSecret
    ensures r.Success? ==> r.value.headers == FormHeaders
  {
    if !Truthy(cfg.environmentUrl) || !Truthy(cfg.clientId) || !Truthy(cfg.clientSecret) then
      Failure(VariablesNotSet)
    else
      var body := [("grant_type", "authorization_code"), ("code", code), ("redirect_uri", RedirectUri(cfg)),
                   ("client_id", cfg.clientId.value), ("client_secret", cfg.clientSecret.value)];
      assert DistinctKeys(body);
      Success(ProviderRequest(cfg.environmentUrl.value + TokenPath, body, FormHeaders))
  }

  /** `refreshAccessToken`: the refresh request. Same guard as the code
      exchange; it carries no redirect URI. */
  function RefreshRequest(cfg: Config, refreshToken: string): (r: Result<ProviderRequest, ConfigError>)
    ensures r.Failure? <==> !Truthy(cfg.environmentUrl) || !Truthy(cfg.clientId) || !Truthy(cfg.clientSecret)
    ensures r.Failure? ==> r.error == VariablesNotSet
    ensures r.Success? ==> r.value.url == cfg.environmentUrl.value + TokenPath
    ensures r.Success? ==> Keys(r.value.body) == ["grant_type", "refresh_token", "client_id", "client_secret"]
    ensures r.Success? ==> Lookup(r.value.body, "grant_type") == Some("refresh_token")
    ensures r.Success? ==> Lookup(r.value.body, "refresh_token") == Some(refreshToken)
    ensures r.Success? ==> Lookup(r.value.body, "redirect_uri").None?
    ensures r.Success? ==> Lookup(r.value.body, "client_id") == cfg.clientId
    ensures r.Success? ==> Lookup(r.value.body, "client_secret") == cfg.clientSecret
    ensures r.Success? ==> r.value.headers == FormHeaders
  {
    if !Truthy(cfg.environmentUrl) || !Truthy(cfg.clientId) || !Truthy(cfg.clientSecret) then
      Failure(VariablesNotSet)
    else
      var body := [("grant_type", "refresh_token"), ("refresh_token", refreshToken),
                   ("client_id", cfg.clientId.value), ("client_secret", cfg.clientSecret.value)];
      assert DistinctKeys(body);
      assert Lookup(body, "redirect_uri").None? by {
        assert forall i :: 0 <= i < |body| ==> |body[i].0| != |"redirect_uri"|;
      }
      Success(ProviderRequest(cfg.environmentUrl.value + TokenPath, body, FormHeaders))
  }

  /** `getUserInfo`: needs only the environment URL and sends the access
      token as a Bearer credential. */
  function UserInfoRequest(cfg: Config, accessToken: string): (r: Result<ProviderRequest, ConfigError>)
    ensures r.Failure? <==> !Truthy(cfg.environmentUrl)
    ensures r.Failure? ==> r.error == EnvironmentUrlNotSet
    ensures r.Success? ==> r.value.url == cfg.environmentUrl.value + UserInfoPath && r.value.body == []
    ensures r.Success? ==> Lookup(r.value.headers, "Authorization") == Some("Bearer " + accessToken)
  {
    if !Truthy(cfg.environmentUrl) then Failure(EnvironmentUrlNotSet)
    else Success(ProviderRequest(cfg.environmentUrl.value + UserInfoPath, [], [("Authorization", "Bearer " + accessToken)]))
  }

  /** The keys of a parameter list, in order. */
  function Keys(ps: seq<Param>): (ks: seq<string>)
    ensures |ks| == |ps|
    ensures forall i :: 0 <= i < |ps| ==> ks[i] == ps[i].0
  {
    if |ps| == 0 then [] else [ps[0].0] + Keys(ps[1..])
  }

  /** `URLSearchParams.get`: the value of the first pair with key `k`. */
  function Lookup(ps: seq<Param>, k: string): (r: Option<string>)
    ensures r.None? <==> forall i :: 0 <= i < |ps| ==> ps[i].0 != k
    ensures r.Some? ==> (k, r.value) in ps
    ensures forall v :: DistinctKeys(ps) && (k, v) in ps ==> r == Some(v)
  {
    if |ps| == 0 then None
    else if ps[0].0 == k then Some(ps[0].1)
    else Lookup(ps[1..], k)
  }

  /** No key occurs twice. */
  predicate DistinctKeys(ps: seq<Param>)
  {
    forall i, j :: 0 <= i < j < |ps| ==> ps[i].0 != ps[j].0
  }

  /** "key=value" for each pair. */
  function Pairs(ps: seq<Param>): (r: seq<string>)
    ensures |r| == |ps|
    ensures forall i :: 0 <= i < |ps| ==> r[i] == ps[i].0 + "=" + ps[i].1
  {
    if |ps| == 0 then [] else [ps[0].0 + "=" + ps[0].1] + Pairs(ps[1..])
  }

  /** The query text: the pairs joined with "&" (percent-encoding is not
      modelled). */
  function QueryString(ps: seq<Param>): string
  {
    if |ps| == 0 then "" else Join(Pairs(ps), '&')
  }

  /** Reads query text back into pairs, splitting on "&" and then on "=". */
  function ParseQuery(q: string): (ps: seq<Param>)
  {
    var parts := Split(q, '&');
    seq(|parts|, i requires 0 <= i < |parts| => ParsePair(parts[i]))
  }

  function ParsePair(text: string): Param
  {
    var kv := Split(text, '=');
    (kv[0], if |kv| > 1 then kv[1] else "")
  }

  /** Text with no "&" and no "=". */
  predicate PlainText(s: string)
  {
    Free(s, '&') && Free(s, '=')
  }

  /** No key or value contains "&" or "=". */
  predicate PlainParams(ps: seq<Param>)
  {
    forall i :: 0 <= i < |ps| ==> PlainText(ps[i].0) && PlainText(ps[i].1)
  }

  /** The authorization parameters are plain when the client id, the
      redirect URI and the state are. */
  lemma AuthorizationParamsArePlain(cfg: Config, state: string)
    requires Truthy(cfg.environmentUrl) && Truthy(cfg.clientId)
    requires PlainText(cfg.clientId.value) && PlainText(RedirectUri(cfg)) && PlainText(state)
    ensures PlainParams(AuthorizationParams(cfg, state).value)
  {
    var ps := AuthorizationParams(cfg, state).value;
    assert ps == [("response_type", "code"), ("client_id", cfg.clientId.value),
                  ("redirect_uri", RedirectUri(cfg)), ("scope", Scope), ("state", state)];
    PlainAuthorizationList(cfg.clientId.value, RedirectUri(cfg), state);
  }

  lemma PlainAuthorizationList(clientId: string, redirectUri: string, state: string)
    requires PlainText(clientId) && PlainText(redirectUri) && PlainText(state)
    ensures PlainParams([("response_type", "code"), ("client_id", clientId),
                         ("redirect_uri", redirectUri), ("scope", Scope), ("state", state)])
  {
  }

  /** The state given to `getAuthorizationUrl` can be read back from the
      query of the URL (for plain parameters). */
  lemma AuthorizationUrlCarriesState(cfg: Config, state: string)
    requires Truthy(cfg.environmentUrl) && Truthy(cfg.clientId)
    requires PlainText(cfg.clientId.value) && PlainText(RedirectUri(cfg)) && PlainText(state)
    ensures var prefix := cfg.environmentUrl.value + AuthorizePath + "?";
            var url := GetAuthorizationUrl(cfg, state);
            && url.Success?
            && |prefix| <= |url.value| && url.value[..|prefix|] == prefix
            && Lookup(ParseQuery(url.value[|prefix|..]), "state") == Some(state)
  {
    var ps := AuthorizationParams(cfg, state).value;
    var prefix := cfg.environmentUrl.value + AuthorizePath + "?";
    var url := GetAuthorizationUrl(cfg, state).value;
    AuthorizationParamsArePlain(cfg, state);
    ParseQueryString(ps);
    assert url == prefix + QueryString(ps);
    assert url[|prefix|..] == QueryString(ps);
  }

  /** The query text of plain, non-empty parameters parses back to them. */
  lemma ParseQueryString(ps: seq<Param>)
    requires |ps| >= 1 && PlainParams(ps)
    ensures ParseQuery(QueryString(ps)) == ps
  {
    var pairs := Pairs(ps);
    assert NoSeparator(pairs, '&') by {
      forall i | 0 <= i < |pairs| ensures Free(pairs[i], '&') {
        assert pairs[i] == ps[i].0 + "=" + ps[i].1;
      }
    }
    SplitJoin(pairs, '&');
    var parsed := ParseQuery(QueryString(ps));
    assert |parsed| == |ps|;
    forall i | 0 <= i < |ps| ensures parsed[i] == ps[i] {
      assert pairs[i] == ps[i].0 + ['='] + ps[i].1;
      SplitPair(ps[i].0, ps[i].1, '=');
    }
  }
}
