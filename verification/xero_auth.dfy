/** The OAuth 2.0 helpers of backend/auth/xero_auth.py. `XeroTokenManager`
    never reassigns the fields `__init__` sets, so it is a value here. The
    HTTP call is left out: a token request is answered by a `Reply` given
    as a parameter, and `datetime.now()` is the `now` parameter, in
    seconds. */
module XeroAuth {
  import opened Results
  import opened Strings
  import opened Seqs
  import opened JsNumbers
  import Utf8
  import Base64

  const Scope := "offline_access accounting.transactions.read"
  const TokenUrl := "https://identity.xero.com/connect/token"
  const AuthorizeHost := "https://login.xero.com"
  const AuthorizeUrl := AuthorizeHost + "/identity/connect/authorize"

  /** `f'{v}'` of an environment variable: Python writes a missing one as
      "None". */
  function Text(v: Option<string>): (r: string)
    ensures v.Some? ==> r == v.value
  {
    if v.Some? then v.value else "None"
  }

  /** A request's form fields, in insertion order. */
  type Params = seq<(string, string)>

  /** `'&'.join(f'{k}={v}' for k, v in params.items())`, with nothing
      percent-encoded. */
  function Query(params: Params): string {
    Join(Map(params, (p: (string, string)) => p.0 + "=" + p.1), "&")
  }

  /** A query field read back: the text before the first '=' and the text
      after it. */
  function ParseField(f: string): (string, string) {
    if '=' in f then var i := IndexOf(f, '='); (f[..i], f[i + 1..]) else (f, "")
  }

  function ParseQuery(q: string): (r: Params) {
    Map(Split(q, {'&'}), ParseField)
  }

  /** Keys without '=' or '&' and values without '&' come back unchanged;
      nothing is escaped, so this is all the query can carry. */
  predicate Plain(params: Params) {
    forall i :: 0 <= i < |params| ==> '=' !in params[i].0 && '&' !in params[i].0 && '&' !in params[i].1
  }

  lemma ParseFieldOf(k: string, v: string)
    requires '=' !in k
    ensures ParseField(k + "=" + v) == (k, v)
  {
    var f := k + "=" + v;
    assert f[|k|] == '=';
    assert f[..|k|] == k && f[|k| + 1..] == v;
  }

  /** A query of plain fields parses back into those fields, in order. */
  lemma ParseQueryOf(params: Params)
    requires |params| >= 1 && Plain(params)
    ensures ParseQuery(Query(params)) == params
  {
    var fields := Map(params, (p: (string, string)) => p.0 + "=" + p.1);
    forall i | 0 <= i < |fields| ensures '&' !in fields[i] {
      assert fields[i] == params[i].0 + "=" + params[i].1;
    }
    SplitJoin(fields, '&');
    forall i | 0 <= i < |params| ensures ParseField(fields[i]) == params[i] {
      ParseFieldOf(params[i].0, params[i].1);
    }
  }

  /** The configuration `__init__` reads from the environment. */
  datatype TokenManager = TokenManager(clientId: Option<string>, clientSecret: Option<string>, redirectUri: Option<string>)
  {
    /** The authorization request of section 4.1.1 of RFC 6749; `state` is
        the random CSRF token. */
    function AuthorizationParams(state: string): (r: Params)
      ensures |r| == 5 && r[0] == ("response_type", "code") && r[3] == ("scope", Scope) && r[4] == ("state", state)
    {
      [("response_type", "code"), ("client_id", Text(clientId)), ("redirect_uri", Text(redirectUri)),
       ("scope", Scope), ("state", state)]
    }

    /** `get_authorization_url()` */
    function AuthorizationUrl(state: string): string {
      AuthorizeUrl + "?" + Query(AuthorizationParams(state))
    }

    /** The token request body of section 4.1.3 of RFC 6749. `requests`
        leaves a field whose value is None out of a form body, so without a
        redirect URI only the grant type and the code are sent. */
    function ExchangeParams(code: string): (r: Params)
      ensures |r| == (if redirectUri.Some? then 3 else 2)
      ensures r[0] == ("grant_type", "authorization_code") && r[1] == ("code", code)
      ensures redirectUri.Some? ==> r[2] == ("redirect_uri", redirectUri.value)
    {
      [("grant_type", "authorization_code"), ("code", code)] +
      (if redirectUri.Some? then [("redirect_uri", redirectUri.value)] else [])
    }

    /** The refresh request body of section 6 of RFC 6749. */
    function RefreshParams(refreshToken: string): (r: Params)
      ensures |r| == 2 && r[0] == ("grant_type", "refresh_token") && r[1] == ("refresh_token", refreshToken)
    {
      [("grant_type", "refresh_token"), ("refresh_token", refreshToken)]
    }

    /** The user-pass of section 2 of RFC 7617. */
    function UserPass(): string {
      Text(clientId) + ":" + Text(clientSecret)
    }

    /** `_get_basic_auth_header()`: Base64 of the UTF-8 of the user-pass. */
    function BasicCredential(): string {
      Base64.Encode(Utf8.Encode(UserPass()))
    }

    /** The request `_make_token_request` posts. */
    function TokenRequest(data: Params): (r: Request)
      ensures r.url == TokenUrl && r.body == data
    {
      Request(TokenUrl, data, "Basic " + BasicCredential())
    }

    /** `exchange_code_for_tokens(auth_code)`, answered by `reply`. */
    function ExchangeCodeForTokens(code: string, reply: Reply, now: real): (r: Result<Tokens, AuthError>)
      ensures r.Err? ==> StartsWith(r.error.message, "Error exchanging code for tokens: ") ||
                         StartsWith(r.error.message, "Unexpected error during token exchange: ")
    {
      Wrapped(Obtain(reply, now), "Error exchanging code for tokens: ", "Unexpected error during token exchange: ")
    }

    /** `refresh_access_token(refresh_token)`, answered by `reply`. */
    function RefreshAccessToken(refreshToken: string, reply: Reply, now: real): (r: Result<Tokens, AuthError>)
      ensures r.Err? ==> StartsWith(r.error.message, "Error refreshing access token: ") ||
                         StartsWith(r.error.message, "Unexpected error during token refresh: ")
    {
      Wrapped(Obtain(reply, now), "Error refreshing access token: ", "Unexpected error during token refresh: ")
    }
  }

  /** `XeroTokenManager()`: the three variables, None when unset. */
  function FromEnvironment(env: map<string, string>): (r: TokenManager)
    ensures "XERO_CLIENT_ID" in env ==> r.clientId == Some(env["XERO_CLIENT_ID"])
    ensures "XERO_CLIENT_ID" !in env ==> r.clientId.None?
  {
    TokenManager(
      if "XERO_CLIENT_ID" in env then Some(env["XERO_CLIENT_ID"]) else None,
      if "XERO_CLIENT_SECRET" in env then Some(env["XERO_CLIENT_SECRET"]) else None,
      if "XERO_REDIRECT_URI" in env then Some(env["XERO_REDIRECT_URI"]) else None)
  }

  /** A POST to the token endpoint: its URL, form body and Authorization
      header. */
  datatype Request = Request(url: string, body: Params, authorization: string)

  /** A JSON value of the token response; an array or an object is kept
      without its contents, as Python's `list` and `dict`. */
  datatype Json = Null | Bool(b: bool) | Number(n: Num) | String(s: string) | Array | Object

  /** What answers a token request: a `requests` failure with its message,
      or a response whose body is a JSON object, or not JSON at all (the
      decoder's message). */
  datatype Reply =
    | Unreachable(reason: string)
    | Response(status: int, text: string, body: Body)

  datatype Body = Fields(fields: map<string, Json>) | NotJson(reason: string)

  /** The two kinds of exception the two `except` clauses tell apart:
      a `requests.RequestException`, or any other. */
  datatype Failure = RequestFailure(message: string) | OtherFailure(message: string)

  /** `XeroAuthenticationError`, which `str()` turns into its message. */
  datatype AuthError = AuthError(message: string)

  /** The token data: the response's fields except `expires_at`, and the
      `expires_at` datetime, in seconds. */
  datatype Tokens = Tokens(fields: map<string, Json>, expiresAt: real)

  /** The message `_make_token_request` raises for a status other than
      200. */
  function StatusMessage(status: int, text: string): string {
    "Token request failed with status " + IntToString(status) + ": " + text
  }

  /** `_make_token_request(data)`: only status 200 goes on. */
  function CheckStatus(reply: Reply): (r: Result<Body, Failure>)
    ensures r.Ok? <==> reply.Response? && reply.status == 200
  {
    match reply
    case Unreachable(reason) => Err(RequestFailure(reason))
    case Response(status, text, body) =>
      if status != 200 then Err(OtherFailure(StatusMessage(status, text))) else Ok(body)
  }

  /** `timedelta(seconds=data['expires_in'])`: a bool counts as 0 or 1, NaN
      and non-numbers are refused. */
  function Seconds(v: Json): (r: Result<real, string>)
  {
    match v
    case Number(n) => if n.Fin? then Ok(n.val) else Err("cannot convert float NaN to integer")
    case Bool(b) => Ok(if b then 1.0 else 0.0)
    case Null => Err("unsupported type for timedelta seconds component: NoneType")
    case String(_) => Err("unsupported type for timedelta seconds component: str")
    case Array => Err("unsupported type for timedelta seconds component: list")
    case Object => Err("unsupported type for timedelta seconds component: dict")
  }

  /** `_process_token_response(response)` for a 200 response, at time
      `now`. */
  function ProcessTokenResponse(body: Body, now: real): (r: Result<Tokens, Failure>)
  {
    match body
    case NotJson(reason) => Err(RequestFailure(reason))
    case Fields(data) =>
      if "expires_in" !in data then Err(OtherFailure("'expires_in'"))
      else match Seconds(data["expires_in"])
        case Err(m) => Err(OtherFailure(m))
        case Ok(s) => Ok(Tokens(data - {"expires_at"}, now + s))
  }

  /** The token request and the response processing. */
  function Obtain(reply: Reply, now: real): Result<Tokens, Failure> {
    match CheckStatus(reply)
    case Err(f) => Err(f)
    case Ok(body) => ProcessTokenResponse(body, now)
  }

  /** The two `except` clauses: a `requests` failure and any other each get
      their own prefix before the inner message. */
  function Wrapped(r: Result<Tokens, Failure>, requestPrefix: string, otherPrefix: string): (w: Result<Tokens, AuthError>)
    ensures r.Ok? ==> w == Ok(r.value)
    ensures r.Err? && r.error.RequestFailure? ==> w == Err(AuthError(requestPrefix + r.error.message))
    ensures r.Err? && r.error.OtherFailure? ==> w == Err(AuthError(otherPrefix + r.error.message))
  {
    match r
    case Ok(t) => Ok(t)
    case Err(RequestFailure(m)) => Err(AuthError(requestPrefix + m))
    case Err(OtherFailure(m)) => Err(AuthError(otherPrefix + m))
  }

  /** What `handle_xero_auth_error` returns. */
  datatype ErrorReply = ErrorReply(error: bool, message: string, statusCode: int)

  function HandleXeroAuthError(e: AuthError): (r: ErrorReply)
    ensures r.error && r.statusCode == 401 && r.message == e.message
  {
    ErrorReply(true, e.message, 401)
  }

  /** Text around the first occurrence of a mark that the part before it
      does not hold. */
  lemma AroundMark(a: string, c: char, b: string)
    requires c !in a
    ensures var t := a + [c] + b; c in t && IndexOf(t, c) == |a| && t[..|a|] == a && t[|a| + 1..] == b
  {
    var t := a + [c] + b;
    assert t[|a|] == c && t[..|a|] == a && t[|a| + 1..] == b;
  }

  /** The parameter names hold neither '=' nor '&'. */
  lemma AuthorizationKeysPlain(m: TokenManager, state: string)
    ensures forall i :: 0 <= i < 5 ==> '=' !in m.AuthorizationParams(state)[i].0 && '&' !in m.AuthorizationParams(state)[i].0
  {
    assert '=' !in "response_type" && '&' !in "response_type";
    assert '=' !in "client_id" && '&' !in "client_id";
    assert '=' !in "redirect_uri" && '&' !in "redirect_uri";
    assert '=' !in "scope" && '&' !in "scope" && '=' !in "state" && '&' !in "state";
  }

  /** The fixed scope holds no '&'. */
  lemma ScopePlain()
    ensures '&' !in Scope
  {
  }

  lemma HostPlain()
    ensures '?' !in AuthorizeHost
  {
  }

  lemma PathPlain()
    ensures '?' !in "/identity/connect/authorize"
  {
  }

  /** The endpoint holds no '?'. */
  lemma AuthorizeUrlPlain()
    ensures '?' !in AuthorizeUrl
  {
    HostPlain();
    PathPlain();
  }

  /** The authorization parameters are plain when the configured values
      and the state hold no '&'. */
  lemma AuthorizationParamsPlain(m: TokenManager, state: string)
    requires '&' !in Text(m.clientId) && '&' !in Text(m.redirectUri) && '&' !in state
    ensures Plain(m.AuthorizationParams(state))
  {
    AuthorizationKeysPlain(m, state);
    ScopePlain();
    assert '&' !in "code";
  }

  /** The authorization URL is the endpoint, a '?', and the five
      parameters in order; when the configured values hold no '&', the
      query parses back into exactly those parameters. */
  lemma AuthorizationUrlParses(m: TokenManager, state: string)
    requires '&' !in Text(m.clientId) && '&' !in Text(m.redirectUri) && '&' !in state
    ensures var url := m.AuthorizationUrl(state);
      '?' in url && url[..IndexOf(url, '?')] == AuthorizeUrl &&
      ParseQuery(url[IndexOf(url, '?') + 1..]) == m.AuthorizationParams(state)
  {
    var p := m.AuthorizationParams(state);
    AuthorizeUrlPlain();
    AroundMark(AuthorizeUrl, '?', Query(p));
    assert m.AuthorizationUrl(state) == AuthorizeUrl + ['?'] + Query(p);
    AuthorizationParamsPlain(m, state);
    ParseQueryOf(p);
  }

  /** The code exchange sends the code under the authorization_code grant,
      and the redirect URI exactly when one is configured; the refresh
      sends only the refresh token, and no redirect URI. */
  lemma RequestBodies(m: TokenManager, code: string, refreshToken: string)
    ensures var e := m.TokenRequest(m.ExchangeParams(code)).body;
      e == [("grant_type", "authorization_code"), ("code", code)] +
        (if m.redirectUri.Some? then [("redirect_uri", m.redirectUri.value)] else [])
    ensures var e := m.TokenRequest(m.ExchangeParams(code)).body;
      (exists i :: 0 <= i < |e| && e[i].0 == "redirect_uri") <==> m.redirectUri.Some?
    ensures forall i :: 0 <= i < |m.RefreshParams(refreshToken)| ==> m.RefreshParams(refreshToken)[i].0 != "redirect_uri"
  {
    var p := m.ExchangeParams(code);
    var e := m.TokenRequest(p).body;
    assert e == p;
    if m.redirectUri.Some? {
      assert e[2].0 == "redirect_uri";
    } else {
      ExchangeWithoutRedirect(m, code);
    }
    RefreshWithoutRedirect(m, refreshToken);
  }

  /** Without a redirect URI no field of the exchange body is named redirect_uri. */
  lemma ExchangeWithoutRedirect(m: TokenManager, code: string)
    requires m.redirectUri.None?
    ensures forall i :: 0 <= i < |m.ExchangeParams(code)| ==> m.ExchangeParams(code)[i].0 != "redirect_uri"
  {
    var e := m.ExchangeParams(code);
    forall i | 0 <= i < |e| ensures e[i].0 != "redirect_uri" {
      assert |e[i].0| != |"redirect_uri"|;
    }
  }

  /** No field of the refresh body is named redirect_uri. */
  lemma RefreshWithoutRedirect(m: TokenManager, refreshToken: string)
    ensures forall i :: 0 <= i < |m.RefreshParams(refreshToken)| ==> m.RefreshParams(refreshToken)[i].0 != "redirect_uri"
  {
    var q := m.RefreshParams(refreshToken);
    forall i | 0 <= i < |q| ensures q[i].0 != "redirect_uri" {
      assert |q[i].0| != |"redirect_uri"|;
    }
  }

  /** The Basic credential decodes, as Base64 and then UTF-8, to the
      user-pass; when the client id holds no ':', splitting at the first
      ':' recovers the id and the secret. */
  lemma BasicCredentialDecodes(m: TokenManager)
    ensures var b := Base64.Decode(m.BasicCredential());
      b.Some? && Utf8.Decode(b.value) == Some(m.UserPass())
    ensures ':' !in Text(m.clientId) ==>
      var u := m.UserPass(); var i := IndexOf(u, ':');
      u[..i] == Text(m.clientId) && u[i + 1..] == Text(m.clientSecret)
  {
    Base64.DecodeEncode(Utf8.Encode(m.UserPass()));
    Utf8.DecodeEncode(m.UserPass());
    var u := m.UserPass();
    var n := |Text(m.clientId)|;
    assert u[n] == ':';
    assert u[..n] == Text(m.clientId) && u[n + 1..] == Text(m.clientSecret);
  }

  /** Different client credentials give different Basic credentials. */
  lemma BasicCredentialInjective(m: TokenManager, k: TokenManager)
    requires m.BasicCredential() == k.BasicCredential()
    ensures m.UserPass() == k.UserPass()
  {
    Base64.EncodeInjective(Utf8.Encode(m.UserPass()), Utf8.Encode(k.UserPass()));
    Utf8.EncodeInjective(m.UserPass(), k.UserPass());
  }

  /** A status other than 200 fails with a message naming the status and
      holding the response text; the exchange re-wraps it under its
      "Unexpected error" prefix, so both survive. */
  lemma StatusFailure(m: TokenManager, code: string, status: int, text: string, body: Body, now: real)
    requires status != 200
    ensures CheckStatus(Response(status, text, body)) == Err(OtherFailure(StatusMessage(status, text)))
    ensures m.ExchangeCodeForTokens(code, Response(status, text, body), now) ==
      Err(AuthError("Unexpected error during token exchange: " + StatusMessage(status, text)))
  {
  }

  /** A failure inside `requests` is re-wrapped under the request prefix,
      keeping its message. */
  lemma RequestFailureWrapped(m: TokenManager, token: string, reason: string, now: real)
    ensures m.RefreshAccessToken(token, Unreachable(reason), now) ==
      Err(AuthError("Error refreshing access token: " + reason))
  {
  }

  /** A 200 response is accepted exactly when its body is a JSON object
      whose `expires_in` is a finite number or a bool; the token data then
      keeps every other field unchanged and expires `expires_in` seconds
      after the time the response was processed. */
  lemma ProcessTokenResponseSpec(data: map<string, Json>, now: real)
    ensures var r := ProcessTokenResponse(Fields(data), now);
      (r.Ok? <==> "expires_in" in data && Seconds(data["expires_in"]).Ok?) &&
      (r.Ok? ==> r.value.expiresAt == now + Seconds(data["expires_in"]).value &&
                 r.value.fields.Keys == data.Keys - {"expires_at"} &&
                 forall k :: k in r.value.fields ==> r.value.fields[k] == data[k])
  {
  }

  /** A successful exchange or refresh is exactly a 200 response that
      processes, and yields what processing it yields. */
  lemma ObtainSpec(m: TokenManager, code: string, reply: Reply, now: real)
    ensures m.ExchangeCodeForTokens(code, reply, now).Ok? <==>
      reply.Response? && reply.status == 200 && ProcessTokenResponse(reply.body, now).Ok?
    ensures m.ExchangeCodeForTokens(code, reply, now).Ok? ==>
      m.ExchangeCodeForTokens(code, reply, now).value == ProcessTokenResponse(reply.body, now).value
  {
  }

  /** The same response processed at two times expires at two times, as
      far apart as the processing. */
  lemma ExpiryAfresh(data: map<string, Json>, t1: real, t2: real)
    requires ProcessTokenResponse(Fields(data), t1).Ok?
    ensures ProcessTokenResponse(Fields(data), t2).Ok?
    ensures ProcessTokenResponse(Fields(data), t2).value.expiresAt - ProcessTokenResponse(Fields(data), t1).value.expiresAt == t2 - t1
  {
  }

  /** Every failed exchange becomes a 401 reply carrying the error's
      message. */
  lemma HandledExchange(m: TokenManager, code: string, reply: Reply, now: real)
    requires m.ExchangeCodeForTokens(code, reply, now).Err?
    ensures var e := m.ExchangeCodeForTokens(code, reply, now).error;
      HandleXeroAuthError(e) == ErrorReply(true, e.message, 401)
  {
  }
}
