/** The vendor's login: the OAuth 2.0 authorization-code grant with PKCE
    (RFC 6749 and RFC 7636), and the refresh grant. The HTTP exchanges,
    SHA-256, the scraping of the login page and URL parsing are oracles:
    the replies and the primitives are parameters, and the requests sent are
    kept in a log on the client. */
module Auth {
  import opened Wrappers
  import opened Strings

  const BaseUrl: string := "https://vlatka.vertical-life.info"
  const AuthUrl: string := BaseUrl + "/auth/realms/Vertical-Life/protocol/openid-connect/auth"
  const TokenUrl: string := BaseUrl + "/auth/realms/Vertical-Life/protocol/openid-connect/token"

  const NonceLength: nat := 32
  const StateLength: nat := 32
  const VerifierLength: nat := 32

  const BrowserUserAgentValue: string :=
    "Mozilla/5.0 (iPhone; CPU iPhone OS 16_1_1 like Mac OS X) AppleWebKit/605.1.15 (KHTML, like Gecko) Version/16.1 Mobile/15E148 Safari/604.1"
  const AppUserAgentValue: string := "Vertical%20Life%20Climbing/4 CFNetwork/1399 Darwin/22.1.0"
  const AcceptValue: string := "text/html,application/xhtml+xml,application/xml;q=0.9,*/*;q=0.8"
  const AcceptLanguageValue: string := "en-US,en;q=0.5"

  const ClientId: string := "vertical-life-ios"
  const RedirectUri: string := "vl-climbing://oauth2redirect"
  const Scope: string := "openid profile email offline_access"

  /** The token endpoint's answer. */
  datatype TokenResult = TokenResult(accessToken: string, refreshToken: string, expiresIn: nat, refreshExpiresIn: nat)

  type Headers = map<string, string>

  /** A request as the client sends it: a GET with an ordered query, or a
      POST with a form. */
  datatype HttpRequest =
    | Get(url: string, headers: Headers, query: seq<(string, string)>)
    | Post(url: string, headers: Headers, form: map<string, string>)

  // ---------------------------------------------------------------------
  // Base64url without padding (section 5 of RFC 4648)
  // ---------------------------------------------------------------------

  /** The symbols of the URL- and filename-safe alphabet: letters, digits,
      `-` and `_`. */
  predicate IsBase64UrlSymbol(c: char) {
    'A' <= c <= 'Z' || 'a' <= c <= 'z' || '0' <= c <= '9' || c == '-' || c == '_'
  }

  /** The symbol of a six-bit value (Table 2 of RFC 4648). */
  function Symbol(v: nat): (c: char)
    requires v < 64
    ensures IsBase64UrlSymbol(c)
  {
    if v < 26 then ('A' as int + v) as char
    else if v < 52 then ('a' as int + v - 26) as char
    else if v < 62 then ('0' as int + v - 52) as char
    else if v == 62 then '-'
    else '_'
  }

  /** `base64_encode`: each three bytes become four symbols of six bits; a
      final one or two bytes become two or three symbols, without padding. */
  function Base64UrlNoPad(data: seq<byte>): (s: string)
    ensures |s| == (4 * |data| + 2) / 3
    decreases |data|
  {
    if |data| == 0 then []
    else if |data| == 1 then [Symbol(data[0] / 4), Symbol(data[0] % 4 * 16)]
    else if |data| == 2 then
      [Symbol(data[0] / 4), Symbol(data[0] % 4 * 16 + data[1] / 16), Symbol(data[1] % 16 * 4)]
    else
      [Symbol(data[0] / 4), Symbol(data[0] % 4 * 16 + data[1] / 16),
       Symbol(data[1] % 16 * 4 + data[2] / 64), Symbol(data[2] % 64)]
      + Base64UrlNoPad(data[3..])
  }

  /** Every character of the encoding is a symbol of the alphabet. */
  lemma {:induction false} Base64UrlSymbols(data: seq<byte>)
    decreases |data|
    ensures forall i :: 0 <= i < |Base64UrlNoPad(data)| ==> IsBase64UrlSymbol(Base64UrlNoPad(data)[i])
  {
    if |data| >= 3 {
      Base64UrlSymbols(data[3..]);
      var s := Base64UrlNoPad(data);
      var rest := Base64UrlNoPad(data[3..]);
      assert forall i :: 4 <= i < |s| ==> s[i] == rest[i - 4];
    }
  }

  /** The unreserved characters of section 2.3 of RFC 3986, of which a PKCE
      code verifier is made (section 4.1 of RFC 7636). */
  predicate Unreserved(c: char) {
    || 'A' <= c <= 'Z' || 'a' <= c <= 'z' || '0' <= c <= '9'
    || c == '-' || c == '.' || c == '_' || c == '~'
  }

  /** A well-formed code verifier: 43 to 128 unreserved characters. */
  predicate IsCodeVerifier(v: string) {
    43 <= |v| <= 128 && forall i :: 0 <= i < |v| ==> Unreserved(v[i])
  }

  /** Encoding 32 random bytes gives 43 symbols, a well-formed code verifier. */
  lemma RandomStringIsCodeVerifier(data: seq<byte>)
    requires |data| == VerifierLength
    ensures |Base64UrlNoPad(data)| == 43
    ensures IsCodeVerifier(Base64UrlNoPad(data))
  {
    Base64UrlSymbols(data);
  }

  /** `random_bytes`: a buffer of `len` bytes filled from the random source. */
  method RandomBytes(len: nat, source: seq<byte>) returns (bytes: array<byte>)
    requires |source| >= len
    ensures fresh(bytes) && bytes[..] == source[..len]
  {
    bytes := new byte[len](_ => 0);
    for i := 0 to len
      invariant bytes[..i] == source[..i]
    {
      bytes[i] := source[i];
    }
    assert bytes[..] == bytes[..len];
  }

  /** `random_base64_string`: `len` random bytes, encoded. */
  method RandomBase64String(len: nat, source: seq<byte>) returns (s: string)
    requires |source| >= len
    ensures s == Base64UrlNoPad(source[..len])
    ensures |s| == (4 * len + 2) / 3
  {
    var bytes := RandomBytes(len, source);
    s := Base64UrlNoPad(bytes[..]);
  }

  // ---------------------------------------------------------------------
  // The requests
  // ---------------------------------------------------------------------

  /** `make_headers`: the browser-like headers every login request carries. */
  function BrowserHeaders(): (h: Headers)
    ensures h.Keys == {"user-agent", "accept", "accept-language"}
    ensures h["user-agent"] == BrowserUserAgentValue && h["accept"] == AcceptValue
    ensures h["accept-language"] == AcceptLanguageValue
  {
    map["user-agent" := BrowserUserAgentValue, "accept" := AcceptValue, "accept-language" := AcceptLanguageValue]
  }

  /** The headers of the token requests: the browser headers with the app's
      user agent in place of the browser's. */
  function AppHeaders(): (h: Headers)
    ensures h.Keys == BrowserHeaders().Keys
    ensures h["user-agent"] == AppUserAgentValue
    ensures forall k :: k in h && k != "user-agent" ==> h[k] == BrowserHeaders()[k]
  {
    BrowserHeaders()["user-agent" := AppUserAgentValue]
  }

  /** The query of the authorization request, in the order it is sent. */
  function AuthorizeQuery(challenge: string, state: string, nonce: string): seq<(string, string)> {
    [("response_type", "code"),
     ("code_challenge", challenge),
     ("code_challenge_method", "S256"),
     ("scope", Scope),
     ("redirect_uri", RedirectUri),
     ("client_id", ClientId),
     ("state", state),
     ("nonce", nonce)]
  }

  /** An authorization request of section 4.1.1 of RFC 6749 with the PKCE
      parameters of section 4.3 of RFC 7636, using the S256 method. */
  predicate IsPkceAuthorizationRequest(query: seq<(string, string)>, challenge: string, clientId: string, redirectUri: string) {
    && ("response_type", "code") in query
    && ("client_id", clientId) in query
    && ("redirect_uri", redirectUri) in query
    && ("code_challenge", challenge) in query
    && ("code_challenge_method", "S256") in query
  }

  /** The authorization query is a PKCE S256 request for the app's client and
      redirect; it asks for the `offline_access` scope (so that a refresh
      token is issued) and carries the state and the nonce. */
  lemma AuthorizeQueryIsPkceRequest(challenge: string, state: string, nonce: string)
    ensures var q := AuthorizeQuery(challenge, state, nonce);
            && IsPkceAuthorizationRequest(q, challenge, ClientId, RedirectUri)
            && ("scope", Scope) in q && ("state", state) in q && ("nonce", nonce) in q
  {
    var q := AuthorizeQuery(challenge, state, nonce);
    assert q[0] == ("response_type", "code") && q[1] == ("code_challenge", challenge);
    assert q[2] == ("code_challenge_method", "S256") && q[3] == ("scope", Scope);
    assert q[4] == ("redirect_uri", RedirectUri) && q[5] == ("client_id", ClientId);
    assert q[6] == ("state", state) && q[7] == ("nonce", nonce);
  }

  /** The scope's last word is `offline_access`. */
  lemma ScopeAsksOfflineAccess()
    ensures |Scope| > 15 && Scope[|Scope| - 15..] == " offline_access"
  {
  }

  /** The form `authenticate` posts to the login page's action URL. */
  function LoginForm(username: string, password: string): (form: map<string, string>)
    ensures form.Keys == {"username", "password", "rememberMe"}
    ensures form["username"] == username && form["password"] == password && form["rememberMe"] == "on"
  {
    map["username" := username, "password" := password, "rememberMe" := "on"]
  }

  /** The form of the token request that exchanges the code. */
  function TokenForm(codeVerifier: string, code: string): map<string, string> {
    map["client_id" := ClientId, "grant_type" := "authorization_code", "redirect_uri" := RedirectUri,
        "code_verifier" := codeVerifier, "code" := code]
  }

  /** An access token request of section 4.1.3 of RFC 6749, with the code
      verifier of section 4.5 of RFC 7636, and nothing else. */
  predicate IsCodeTokenRequest(form: map<string, string>, code: string, redirectUri: string, clientId: string, verifier: string) {
    && form.Keys == {"grant_type", "code", "redirect_uri", "client_id", "code_verifier"}
    && form["grant_type"] == "authorization_code"
    && form["code"] == code
    && form["redirect_uri"] == redirectUri
    && form["client_id"] == clientId
    && form["code_verifier"] == verifier
  }

  lemma TokenFormIsCodeTokenRequest(codeVerifier: string, code: string)
    ensures IsCodeTokenRequest(TokenForm(codeVerifier, code), code, RedirectUri, ClientId, codeVerifier)
  {
  }

  /** The form of the refresh request. */
  function RefreshForm(refreshToken: string): map<string, string> {
    map["client_id" := ClientId, "grant_type" := "refresh_token", "refresh_token" := refreshToken]
  }

  /** A refresh request of section 6 of RFC 6749 from a public client that
      names itself, and nothing else. */
  predicate IsRefreshRequest(form: map<string, string>, refreshToken: string, clientId: string) {
    && form.Keys == {"grant_type", "refresh_token", "client_id"}
    && form["grant_type"] == "refresh_token"
    && form["refresh_token"] == refreshToken
    && form["client_id"] == clientId
  }

  lemma RefreshFormIsRefreshRequest(refreshToken: string)
    ensures IsRefreshRequest(RefreshForm(refreshToken), refreshToken, ClientId)
  {
  }

  /** The request `refresh_token` sends for a refresh token. */
  function RefreshRequest(refreshToken: string): HttpRequest {
    Post(TokenUrl, AppHeaders(), RefreshForm(refreshToken))
  }

  /** `query_pairs().collect()` into a map: a later pair overrides an
      earlier one with the same key. */
  function PairsToMap(pairs: seq<(string, string)>): map<string, string>
    decreases |pairs|
  {
    if pairs == [] then map[]
    else PairsToMap(pairs[..|pairs| - 1])[pairs[|pairs| - 1].0 := pairs[|pairs| - 1].1]
  }

  /** A key is in the collected map exactly when some pair has it, and its
      value is that of the last such pair. */
  lemma {:induction false} PairsToMapLast(pairs: seq<(string, string)>, k: string)
    decreases |pairs|
    ensures k in PairsToMap(pairs) <==> exists i :: 0 <= i < |pairs| && pairs[i].0 == k
    ensures forall i :: 0 <= i < |pairs| && pairs[i].0 == k && (forall j :: i < j < |pairs| ==> pairs[j].0 != k) ==>
              k in PairsToMap(pairs) && PairsToMap(pairs)[k] == pairs[i].1
  {
    if pairs != [] {
      var n := |pairs| - 1;
      var init := pairs[..n];
      PairsToMapLast(init, k);
      assert forall i :: 0 <= i < n ==> init[i] == pairs[i];
      if pairs[n].0 != k {
        assert (exists i :: 0 <= i < |pairs| && pairs[i].0 == k) ==> exists i :: 0 <= i < n && init[i].0 == k;
      }
    }
  }

  /** A collected value comes from the last pair with its key. */
  lemma {:induction false} PairsToMapValueIsLast(pairs: seq<(string, string)>, k: string)
    requires k in PairsToMap(pairs)
    decreases |pairs|
    ensures exists i :: 0 <= i < |pairs| && pairs[i] == (k, PairsToMap(pairs)[k])
                        && forall j :: i < j < |pairs| ==> pairs[j].0 != k
  {
    var n := |pairs| - 1;
    var init := pairs[..n];
    var v := PairsToMap(pairs)[k];
    assert PairsToMap(pairs) == PairsToMap(init)[pairs[n].0 := pairs[n].1];
    if pairs[n].0 == k {
      assert pairs[n] == (k, v);
    } else {
      assert k in PairsToMap(init) && PairsToMap(init)[k] == v;
      PairsToMapValueIsLast(init, k);
      var i :| 0 <= i < n && init[i] == (k, v) && forall j :: i < j < n ==> init[j].0 != k;
      forall j | i < j < |pairs|
        ensures pairs[j].0 != k
      {
        if j < n { assert pairs[j] == init[j]; }
      }
      assert pairs[i] == (k, v);
    }
  }

  /** The characters `HeaderValue::to_str` accepts: visible ASCII and tab. */
  predicate VisibleAscii(s: string) {
    forall i :: 0 <= i < |s| ==> (32 <= s[i] as int < 127 || s[i] == '\t')
  }

  /** What `authenticate` makes of the login's reply: the `code` query
      parameter of the redirect in its `Location` header (the last one, when
      the query repeats it). A missing header,
      a header that is not visible ASCII, a URL that does not parse or a
      missing `code` is a panic. */
  function CodeFromRedirect(location: Result<Option<string>>, parseUrlQuery: string -> Option<seq<(string, string)>>)
    : (r: Result<string>)
    ensures r.Ok? <==>
              && location.Ok? && location.value.Some? && VisibleAscii(location.value.value)
              && parseUrlQuery(location.value.value).Some?
              && exists i :: 0 <= i < |parseUrlQuery(location.value.value).value|
                             && parseUrlQuery(location.value.value).value[i].0 == "code"
    ensures r.Ok? ==> var pairs := parseUrlQuery(location.value.value).value;
            exists i :: 0 <= i < |pairs| && pairs[i] == ("code", r.value)
                        && forall j :: i < j < |pairs| ==> pairs[j].0 != "code"
    ensures location.Err? ==> r == Err(location.error)
  {
    match location
    case Err(e) => Err(e)
    case Ok(None) => Err(Panic("no location header"))
    case Ok(Some(redirect)) =>
      if !VisibleAscii(redirect) then Err(Panic("response should contain redirect_url"))
      else match parseUrlQuery(redirect)
        case None => Err(Panic("redirect url does not parse"))
        case Some(pairs) =>
          PairsToMapLast(pairs, "code");
          var query := PairsToMap(pairs);
          if "code" in query then PairsToMapValueIsLast(pairs, "code"); Ok(query["code"])
          else Err(Panic("expected redirect url to have code query parameter"))
  }

  /** The primitives the login uses and does not define: SHA-256, the
      scraping of the login form's action URL, URL query parsing and the
      decoding of the token endpoint's JSON. */
  datatype Primitives = Primitives(
    sha256: string -> seq<byte>,
    parseActionUrl: string -> Result<string>,
    parseUrlQuery: string -> Option<seq<(string, string)>>,
    parseTokenResult: string -> Result<TokenResult>)

  /** `sha256` then `base64_encode`: the S256 code challenge of a verifier. */
  function Challenge(prims: Primitives, verifier: string): string {
    Base64UrlNoPad(prims.sha256(verifier))
  }

  /** The outcome of a call that reads a body: the send or the read failed,
      or the body is parsed. */
  function Parsed<T>(body: Result<string>, parse: string -> Result<T>): (r: Result<T>)
    ensures body.Err? ==> r == Err(body.error)
    ensures body.Ok? ==> r == parse(body.value)
  {
    match body
    case Err(e) => Err(e)
    case Ok(text) => parse(text)
  }

  // ---------------------------------------------------------------------
  // The client
  // ---------------------------------------------------------------------

  /** `VerticalLifeAuthClient`: the code verifier is fixed when the client is
      made (a `const`, so nothing can reassign it); `sent` is the log of the
      requests it has sent. */
  class AuthClient {
    const codeVerifier: string
    var sent: seq<HttpRequest>

    /** `new`: a verifier of 32 random bytes, encoded. */
    constructor(randomness: seq<byte>)
      requires |randomness| >= VerifierLength
      ensures codeVerifier == Base64UrlNoPad(randomness[..VerifierLength])
      ensures sent == []
    {
      var verifier := RandomBase64String(VerifierLength, randomness);
      codeVerifier := verifier;
      sent := [];
    }

    /** `authorize`: send the PKCE authorization request with a fresh state
        and nonce, and scrape the login form's action URL from the page. */
    method Authorize(prims: Primitives, stateRandomness: seq<byte>, nonceRandomness: seq<byte>, page: Result<string>)
      returns (r: Result<string>)
      requires |stateRandomness| >= NonceLength && |nonceRandomness| >= StateLength
      modifies this
      ensures sent == old(sent) + [Get(AuthUrl, BrowserHeaders(),
                                       AuthorizeQuery(Challenge(prims, codeVerifier),
                                                      Base64UrlNoPad(stateRandomness[..NonceLength]),
                                                      Base64UrlNoPad(nonceRandomness[..StateLength])))]
      ensures r == Parsed(page, prims.parseActionUrl)
    {
      var state := RandomBase64String(NonceLength, stateRandomness);
      var nonce := RandomBase64String(StateLength, nonceRandomness);
      var challenge := Base64UrlNoPad(prims.sha256(codeVerifier));
      sent := sent + [Get(AuthUrl, BrowserHeaders(), AuthorizeQuery(challenge, state, nonce))];
      match page
      case Err(e) => r := Err(e);
      case Ok(body) => r := prims.parseActionUrl(body);
    }

    /** `authenticate`: post the credentials to the action URL and take the
        code out of the redirect. */
    method Authenticate(prims: Primitives, actionUrl: string, username: string, password: string,
                        location: Result<Option<string>>)
      returns (r: Result<string>)
      modifies this
      ensures sent == old(sent) + [Post(actionUrl, BrowserHeaders(), LoginForm(username, password))]
      ensures r == CodeFromRedirect(location, prims.parseUrlQuery)
    {
      sent := sent + [Post(actionUrl, BrowserHeaders(), LoginForm(username, password))];
      r := CodeFromRedirect(location, prims.parseUrlQuery);
    }

    /** `get_access_token`: exchange the code, proving possession of the
        verifier. */
    method GetAccessToken(prims: Primitives, code: string, body: Result<string>) returns (r: Result<TokenResult>)
      modifies this
      ensures sent == old(sent) + [Post(TokenUrl, AppHeaders(), TokenForm(codeVerifier, code))]
      ensures r == Parsed(body, prims.parseTokenResult)
    {
      sent := sent + [Post(TokenUrl, AppHeaders(), TokenForm(codeVerifier, code))];
      r := Parsed(body, prims.parseTokenResult);
    }
  }

  /** `refresh_token`: the refresh grant, sent by a freshly made client. */
  method RefreshToken(prims: Primitives, refreshToken: string, randomness: seq<byte>, body: Result<string>)
    returns (r: Result<TokenResult>, request: HttpRequest)
    requires |randomness| >= VerifierLength
    ensures request == RefreshRequest(refreshToken)
    ensures r == Parsed(body, prims.parseTokenResult)
  {
    var client := new AuthClient(randomness);
    request := RefreshRequest(refreshToken);
    client.sent := client.sent + [request];
    r := Parsed(body, prims.parseTokenResult);
  }

  /** What the login's counterparts answer, in order, and the random bytes the
      client draws. */
  datatype LoginReplies = LoginReplies(
    verifierRandomness: seq<byte>,
    stateRandomness: seq<byte>,
    nonceRandomness: seq<byte>,
    page: Result<string>,
    location: Result<Option<string>>,
    tokenBody: Result<string>)

  predicate EnoughRandomness(replies: LoginReplies) {
    && |replies.verifierRandomness| >= VerifierLength
    && |replies.stateRandomness| >= NonceLength
    && |replies.nonceRandomness| >= StateLength
  }

  datatype Flow = Flow(result: Result<TokenResult>, sent: seq<HttpRequest>)

  /** `do_auth_flow` as a function: authorize, authenticate at the action URL
      it found, exchange the code it got, all with one verifier; stop at the
      first failure. */
  function AuthFlow(prims: Primitives, username: string, password: string, replies: LoginReplies): Flow
    requires EnoughRandomness(replies)
  {
    var authorize := AuthorizeRequestOf(prims, replies);
    match Parsed(replies.page, prims.parseActionUrl)
    case Err(e) => Flow(Err(e), [authorize])
    case Ok(actionUrl) =>
      var login := Post(actionUrl, BrowserHeaders(), LoginForm(username, password));
      match CodeFromRedirect(replies.location, prims.parseUrlQuery)
      case Err(e) => Flow(Err(e), [authorize, login])
      case Ok(code) =>
        Flow(Parsed(replies.tokenBody, prims.parseTokenResult),
             [authorize, login, Post(TokenUrl, AppHeaders(), TokenForm(VerifierOf(replies), code))])
  }

  /** The authorization request of a login: the verifier's challenge, with
      a state and a nonce drawn from their own random bytes. */
  function AuthorizeRequestOf(prims: Primitives, replies: LoginReplies): HttpRequest
    requires EnoughRandomness(replies)
  {
    Get(AuthUrl, BrowserHeaders(),
        AuthorizeQuery(Challenge(prims, VerifierOf(replies)),
                       Base64UrlNoPad(replies.stateRandomness[..NonceLength]),
                       Base64UrlNoPad(replies.nonceRandomness[..StateLength])))
  }

  /** `do_auth_flow`. */
  method DoAuthFlow(prims: Primitives, username: string, password: string, replies: LoginReplies)
    returns (r: Result<TokenResult>, sent: seq<HttpRequest>)
    requires EnoughRandomness(replies)
    ensures Flow(r, sent) == AuthFlow(prims, username, password, replies)
  {
    var client := new AuthClient(replies.verifierRandomness);
    assert client.codeVerifier == VerifierOf(replies);
    var actionUrl := client.Authorize(prims, replies.stateRandomness, replies.nonceRandomness, replies.page);
    assert client.sent == [AuthorizeRequestOf(prims, replies)];
    if actionUrl.Err? {
      return Err(actionUrl.error), client.sent;
    }
    var code := client.Authenticate(prims, actionUrl.value, username, password, replies.location);
    if code.Err? {
      return Err(code.error), client.sent;
    }
    r := client.GetAccessToken(prims, code.value, replies.tokenBody);
    sent := client.sent;
  }

  /** The code verifier a login's client draws. */
  function VerifierOf(replies: LoginReplies): string
    requires EnoughRandomness(replies)
  {
    Base64UrlNoPad(replies.verifierRandomness[..VerifierLength])
  }

  /** The PKCE binding: the verifier whose challenge the authorization request
      carries is the one the token request presents, and it is well formed. */
  lemma FlowBindsVerifier(prims: Primitives, username: string, password: string, replies: LoginReplies)
    requires EnoughRandomness(replies)
    ensures IsCodeVerifier(VerifierOf(replies))
    ensures var f := AuthFlow(prims, username, password, replies);
            && f.sent[0].Get?
            && IsPkceAuthorizationRequest(f.sent[0].query, Challenge(prims, VerifierOf(replies)), ClientId, RedirectUri)
            && (|f.sent| == 3 ==> f.sent[2].Post? && f.sent[2].url == TokenUrl
                                  && IsCodeTokenRequest(f.sent[2].form, f.sent[2].form["code"], RedirectUri, ClientId,
                                                        VerifierOf(replies)))
  {
    RandomStringIsCodeVerifier(replies.verifierRandomness[..VerifierLength]);
    var f := AuthFlow(prims, username, password, replies);
    var verifier := VerifierOf(replies);
    assert f.sent[0] == AuthorizeRequestOf(prims, replies);
    AuthorizeQueryIsPkceRequest(Challenge(prims, verifier),
                                Base64UrlNoPad(replies.stateRandomness[..NonceLength]),
                                Base64UrlNoPad(replies.nonceRandomness[..StateLength]));
    if |f.sent| == 3 {
      var code := CodeFromRedirect(replies.location, prims.parseUrlQuery);
      assert code.Ok? && f.sent[2] == Post(TokenUrl, AppHeaders(), TokenForm(verifier, code.value));
      TokenFormIsCodeTokenRequest(verifier, code.value);
    }
  }


  /** The flow stops at the first failure: a failed authorize sends one
      request, a failed authenticate two, and the token exchange is the third;
      the credentials go only to the action URL the page named, and the
      exchanged code is the one the redirect carried. */
  lemma FlowStopsAtFirstFailure(prims: Primitives, username: string, password: string, replies: LoginReplies)
    requires EnoughRandomness(replies)
    ensures var f := AuthFlow(prims, username, password, replies);
            var action := Parsed(replies.page, prims.parseActionUrl);
            var code := CodeFromRedirect(replies.location, prims.parseUrlQuery);
            && 1 <= |f.sent| <= 3
            && (|f.sent| == 1 <==> action.Err?)
            && (|f.sent| == 1 ==> f.result == Err(action.error))
            && (|f.sent| == 2 <==> action.Ok? && code.Err?)
            && (|f.sent| == 2 ==>
                  f.result == Err(code.error)
                  && f.sent[1] == Post(action.value, BrowserHeaders(), LoginForm(username, password)))
            && (|f.sent| == 3 ==>
                  f.result == Parsed(replies.tokenBody, prims.parseTokenResult)
                  && f.sent[1] == Post(action.value, BrowserHeaders(), LoginForm(username, password))
                  && f.sent[2] == Post(TokenUrl, AppHeaders(), TokenForm(VerifierOf(replies), code.value)))
  {
  }
}
