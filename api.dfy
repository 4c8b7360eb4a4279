/** The vendor's REST client: a token pair, and a retry loop that refreshes
    the pair when a request is refused as unauthorized. The network is an
    oracle: the answers to the sends and to the refreshes are parameters, and
    what was sent is returned as a log. */
module Api {
  import opened Wrappers
  import Auth

  const BaseUrl: string := "https://vlcapi.vertical-life.info"
  const UserAgentValue: string := "Vertical Life Climbing/6.14.0 (iPhone12,3; iOS 16.1.1; Scale/3.00)"
  const MaxAttempts: nat := 3
  const Unauthorized: int := 401

  type Headers = map<string, string>

  /** The characters `HeaderValue::from_str` accepts: tab, and everything from
      space upwards except DEL. */
  predicate HeaderValueChar(c: char) {
    (32 <= c as int && c as int != 127) || c == '\t'
  }

  predicate IsHeaderValue(s: string) {
    forall i :: 0 <= i < |s| ==> HeaderValueChar(s[i])
  }

  /** `make_headers`: the app's fixed headers and the bearer token; a panic
      when the token holds a character a header value cannot. */
  function MakeHeaders(accessToken: string): (r: Result<Headers>)
    ensures r.Ok? <==> IsHeaderValue(accessToken)
    ensures r.Ok? ==> "authorization" in r.value && r.value["authorization"] == "Bearer " + accessToken
  {
    var bearer := "Bearer " + accessToken;
    assert forall i :: 0 <= i < |accessToken| ==> bearer[7 + i] == accessToken[i];
    if !IsHeaderValue(bearer) then Err(Panic("invalid header value"))
    else Ok(AppHeaders["authorization" := bearer])
  }

  /** The headers every request carries besides the bearer token. */
  const AppHeaders: Headers := map[
    "accept" := "*/*",
    "accept-language" := "en-FI",
    "x-app-version-code" := "200",
    "x-app-id" := "verticallife",
    "time-zone" := "+0200",
    "user-agent" := UserAgentValue,
    "x-app-version" := "6.14.0"]

  /** Besides the bearer token, the headers identify the app as the vendor's
      iPhone client of version 6.14.0 in the +0200 time zone. */
  lemma MakeHeadersFixed(accessToken: string)
    requires IsHeaderValue(accessToken)
    ensures var h := MakeHeaders(accessToken).value;
            && h.Keys == {"authorization", "accept", "accept-language", "x-app-version-code",
                          "x-app-id", "time-zone", "user-agent", "x-app-version"}
            && h["accept"] == "*/*" && h["accept-language"] == "en-FI"
            && h["x-app-version-code"] == "200" && h["x-app-id"] == "verticallife"
            && h["time-zone"] == "+0200" && h["user-agent"] == UserAgentValue
            && h["x-app-version"] == "6.14.0"
  {
  }

  /** How a send ends: it could not be made, or a response with a status came back. */
  datatype SendOutcome = Failed(cause: string) | Response(status: int)

  /** `error_for_status`: client and server errors. */
  predicate IsErrorStatus(status: int) {
    400 <= status < 600
  }

  /** The outcome of `make_request` from a given attempt on: the response's
      status or the error, the token pair afterwards, the headers of every
      send and the refresh token of every refresh, in order. */
  datatype Outcome = Outcome(
    result: Result<int>,
    accessToken: string,
    refreshToken: string,
    sent: seq<Headers>,
    refreshedWith: seq<string>)

  /** The answers the network gives: the `k`-th send gets `sends[k]`, the
      `k`-th refresh `refreshes[k]`. There are enough for every attempt. */
  predicate Enough(sends: seq<SendOutcome>, refreshes: seq<Result<Auth.TokenResult>>) {
    |sends| > MaxAttempts && |refreshes| >= MaxAttempts
  }

  /** Whether the loop goes round again after the send at `attempts`: the
      headers could be built, the answer was 401 before the last attempt and
      the refresh succeeded. */
  predicate Retries(access: string, attempts: nat, sends: seq<SendOutcome>,
                    refreshes: seq<Result<Auth.TokenResult>>)
    requires Enough(sends, refreshes) && attempts <= MaxAttempts
  {
    && MakeHeaders(access).Ok? && sends[attempts] == Response(Unauthorized)
    && attempts < MaxAttempts && refreshes[attempts].Ok?
  }

  /** The outcome of an attempt after which the loop does not go round again. */
  function Final(access: string, refresh: string, attempts: nat,
                 sends: seq<SendOutcome>, refreshes: seq<Result<Auth.TokenResult>>): (o: Outcome)
    requires Enough(sends, refreshes) && attempts <= MaxAttempts
    requires !Retries(access, attempts, sends, refreshes)
    ensures o.accessToken == access && o.refreshToken == refresh
    ensures o.sent == [] || (MakeHeaders(access).Ok? && o.sent == [MakeHeaders(access).value])
    ensures o.refreshedWith == [] || (o.refreshedWith == [refresh] && |o.sent| == 1)
    ensures o.refreshedWith == [refresh] ==> attempts < |refreshes| && refreshes[attempts].Err?
    ensures o.result.Ok? ==> sends[attempts] == Response(o.result.value) && !IsErrorStatus(o.result.value)
  {
    match MakeHeaders(access)
    case Err(e) => Outcome(Err(e), access, refresh, [], [])
    case Ok(headers) =>
      match sends[attempts]
      case Failed(cause) => Outcome(Err(Transport(cause)), access, refresh, [headers], [])
      case Response(status) =>
        if !IsErrorStatus(status) then Outcome(Ok(status), access, refresh, [headers], [])
        else if status == Unauthorized && attempts < MaxAttempts then
          Outcome(Err(refreshes[attempts].error), access, refresh, [headers], [refresh])
        else Outcome(Err(HttpStatus(status)), access, refresh, [headers], [])
  }

  /** The loop of `make_request` from `attempts` on, with the pair
      `access`/`refresh` current. */
  function Attempt(access: string, refresh: string, attempts: nat,
                   sends: seq<SendOutcome>, refreshes: seq<Result<Auth.TokenResult>>): Outcome
    requires Enough(sends, refreshes) && attempts <= MaxAttempts
    decreases MaxAttempts - attempts
  {
    if Retries(access, attempts, sends, refreshes) then
      var tokens := refreshes[attempts].value;
      var rest := Attempt(tokens.accessToken, tokens.refreshToken, attempts + 1, sends, refreshes);
      Outcome(rest.result, rest.accessToken, rest.refreshToken,
              [MakeHeaders(access).value] + rest.sent, [refresh] + rest.refreshedWith)
    else Final(access, refresh, attempts, sends, refreshes)
  }

  /** `VerticalLifeClient`: the current token pair. */
  class VerticalLifeClient {
    var accessToken: string
    var refreshToken: string

    constructor(accessToken: string, refreshToken: string)
      ensures this.accessToken == accessToken && this.refreshToken == refreshToken
    {
      this.accessToken := accessToken;
      this.refreshToken := refreshToken;
    }

    /** `refresh_access_token`: ask for a new pair with the current refresh
        token; on success both tokens are replaced, on failure neither. */
    method RefreshAccessToken(reply: Result<Auth.TokenResult>) returns (r: Result<()>, request: Auth.HttpRequest)
      modifies this
      ensures request == Auth.RefreshRequest(old(refreshToken))
      ensures reply.Ok? ==> r == Ok(()) && accessToken == reply.value.accessToken && refreshToken == reply.value.refreshToken
      ensures reply.Err? ==> r == Err(reply.error) && accessToken == old(accessToken) && refreshToken == old(refreshToken)
    {
      request := Auth.RefreshRequest(refreshToken);
      match reply
      case Err(e) =>
        r := Err(e);
      case Ok(tokens) =>
        accessToken := tokens.accessToken;
        refreshToken := tokens.refreshToken;
        r := Ok(());
    }

    /** `make_request`: send with headers built from the current access
        token; on 401, while fewer than `MaxAttempts` refreshes were made,
        refresh and send again. */
    method MakeRequest(sends: seq<SendOutcome>, refreshes: seq<Result<Auth.TokenResult>>)
      returns (r: Result<int>, sent: seq<Headers>, refreshRequests: seq<Auth.HttpRequest>)
      requires Enough(sends, refreshes)
      modifies this
      ensures var o := Attempt(old(accessToken), old(refreshToken), 0, sends, refreshes);
              && r == o.result && sent == o.sent
              && accessToken == o.accessToken && refreshToken == o.refreshToken
              && refreshRequests == RefreshRequests(o.refreshedWith)
    {
      var attempts := 0;
      sent := [];
      refreshRequests := [];
      ghost var refreshedWith: seq<string> := [];
      ghost var whole := Attempt(accessToken, refreshToken, 0, sends, refreshes);
      while true
        invariant attempts <= MaxAttempts
        invariant refreshRequests == RefreshRequests(refreshedWith)
        invariant whole == Prepend(sent, refreshedWith, Attempt(accessToken, refreshToken, attempts, sends, refreshes))
        decreases MaxAttempts - attempts
      {
        ghost var rest := Attempt(accessToken, refreshToken, attempts, sends, refreshes);
        var headers := MakeHeaders(accessToken);
        if headers.Err? {
          assert rest == Outcome(Err(headers.error), accessToken, refreshToken, [], []);
          assert sent + [] == sent && refreshedWith + [] == refreshedWith;
          return Err(headers.error), sent, refreshRequests;
        }
        ghost var before := sent;
        sent := sent + [headers.value];
        match sends[attempts]
        case Failed(cause) =>
          assert rest == Outcome(Err(Transport(cause)), accessToken, refreshToken, [headers.value], []);
          assert refreshedWith + [] == refreshedWith;
          return Err(Transport(cause)), sent, refreshRequests;
        case Response(status) =>
          if !IsErrorStatus(status) {
            assert rest == Outcome(Ok(status), accessToken, refreshToken, [headers.value], []);
            assert refreshedWith + [] == refreshedWith;
            return Ok(status), sent, refreshRequests;
          } else if status == Unauthorized && attempts < MaxAttempts {
            ghost var usedRefresh := refreshToken;
            ghost var priorRefreshes := refreshedWith;
            var refreshed, request := RefreshAccessToken(refreshes[attempts]);
            RefreshRequestsAppend(refreshedWith, usedRefresh);
            refreshRequests := refreshRequests + [request];
            refreshedWith := refreshedWith + [usedRefresh];
            attempts := attempts + 1;
            if refreshed.Err? {
              assert rest == Outcome(Err(refreshed.error), accessToken, refreshToken, [headers.value], [usedRefresh]);
              return Err(refreshed.error), sent, refreshRequests;
            }
            ghost var next := Attempt(accessToken, refreshToken, attempts, sends, refreshes);
            assert rest == Outcome(next.result, next.accessToken, next.refreshToken,
                                   [headers.value] + next.sent, [usedRefresh] + next.refreshedWith);
            PrependAssociates(before, priorRefreshes, headers.value, usedRefresh, next);
          } else {
            assert rest == Outcome(Err(HttpStatus(status)), accessToken, refreshToken, [headers.value], []);
            assert refreshedWith + [] == refreshedWith;
            return Err(HttpStatus(status)), sent, refreshRequests;
          }
      }
    }
  }

  /** The refresh request sent for each refresh token, in order. */
  function RefreshRequests(tokens: seq<string>): (rs: seq<Auth.HttpRequest>)
    ensures |rs| == |tokens|
    ensures forall j :: 0 <= j < |tokens| ==> rs[j] == Auth.RefreshRequest(tokens[j])
  {
    seq(|tokens|, j requires 0 <= j < |tokens| => Auth.RefreshRequest(tokens[j]))
  }

  lemma RefreshRequestsAppend(tokens: seq<string>, t: string)
    ensures RefreshRequests(tokens + [t]) == RefreshRequests(tokens) + [Auth.RefreshRequest(t)]
  {
  }

  /** An outcome with the sends and refreshes of earlier attempts in front. */
  function Prepend(sent: seq<Headers>, refreshedWith: seq<string>, o: Outcome): (r: Outcome)
    ensures r.result == o.result && r.accessToken == o.accessToken && r.refreshToken == o.refreshToken
    ensures r.sent == sent + o.sent && r.refreshedWith == refreshedWith + o.refreshedWith
  {
    Outcome(o.result, o.accessToken, o.refreshToken, sent + o.sent, refreshedWith + o.refreshedWith)
  }

  lemma PrependAssociates(sent: seq<Headers>, refreshedWith: seq<string>, h: Headers, t: string, o: Outcome)
    ensures Prepend(sent, refreshedWith,
                    Outcome(o.result, o.accessToken, o.refreshToken, [h] + o.sent, [t] + o.refreshedWith))
            == Prepend(sent + [h], refreshedWith + [t], o)
  {
    assert sent + ([h] + o.sent) == (sent + [h]) + o.sent;
    assert refreshedWith + ([t] + o.refreshedWith) == (refreshedWith + [t]) + o.refreshedWith;
  }

  // ---------------------------------------------------------------------
  // Properties of the retry loop
  // ---------------------------------------------------------------------

  /** The access token current at the `m`-th send of a loop entered at
      `attempts` with `access`: the start token, then the one each refresh
      returned. */
  function TokenAt(access: string, refreshes: seq<Result<Auth.TokenResult>>, attempts: nat, m: nat): string
    requires m == 0 || (attempts + m - 1 < |refreshes| && refreshes[attempts + m - 1].Ok?)
  {
    if m == 0 then access else refreshes[attempts + m - 1].value.accessToken
  }

  /** Every send carries `Bearer ` and the access token current at that send:
      the start token, then the one the preceding refresh returned; every
      refresh before a later send succeeded. */
  lemma {:induction false} SendCarriesCurrentToken(access: string, refresh: string, attempts: nat,
                                                   sends: seq<SendOutcome>, refreshes: seq<Result<Auth.TokenResult>>,
                                                   m: nat)
    requires Enough(sends, refreshes) && attempts <= MaxAttempts
    requires m < |Attempt(access, refresh, attempts, sends, refreshes).sent|
    decreases m
    ensures m == 0 || (attempts + m - 1 < |refreshes| && refreshes[attempts + m - 1].Ok?)
    ensures var h := Attempt(access, refresh, attempts, sends, refreshes).sent[m];
            "authorization" in h && h["authorization"] == "Bearer " + TokenAt(access, refreshes, attempts, m)
  {
    if m > 0 {
      var o := Attempt(access, refresh, attempts, sends, refreshes);
      var tokens := refreshes[attempts].value;
      var rest := Attempt(tokens.accessToken, tokens.refreshToken, attempts + 1, sends, refreshes);
      assert o.sent == [MakeHeaders(access).value] + rest.sent;
      SendCarriesCurrentToken(tokens.accessToken, tokens.refreshToken, attempts + 1, sends, refreshes, m - 1);
    }
  }

  /** The refresh token current after `m` successful refreshes. */
  function RefreshTokenAt(refresh: string, refreshes: seq<Result<Auth.TokenResult>>, attempts: nat, m: nat): string
    requires m == 0 || (attempts + m - 1 < |refreshes| && refreshes[attempts + m - 1].Ok?)
  {
    if m == 0 then refresh else refreshes[attempts + m - 1].value.refreshToken
  }

  /** Each refresh is made with the refresh token current at that point: the
      start token, then the one the preceding refresh returned. */
  lemma {:induction false} RefreshUsesCurrentToken(access: string, refresh: string, attempts: nat,
                                                   sends: seq<SendOutcome>, refreshes: seq<Result<Auth.TokenResult>>,
                                                   m: nat)
    requires Enough(sends, refreshes) && attempts <= MaxAttempts
    requires m < |Attempt(access, refresh, attempts, sends, refreshes).refreshedWith|
    decreases m
    ensures m == 0 || (attempts + m - 1 < |refreshes| && refreshes[attempts + m - 1].Ok?)
    ensures Attempt(access, refresh, attempts, sends, refreshes).refreshedWith[m]
            == RefreshTokenAt(refresh, refreshes, attempts, m)
  {
    if m > 0 {
      var o := Attempt(access, refresh, attempts, sends, refreshes);
      var tokens := refreshes[attempts].value;
      var rest := Attempt(tokens.accessToken, tokens.refreshToken, attempts + 1, sends, refreshes);
      assert o.refreshedWith == [refresh] + rest.refreshedWith;
      RefreshUsesCurrentToken(tokens.accessToken, tokens.refreshToken, attempts + 1, sends, refreshes, m - 1);
    }
  }

  /** How many of the refreshes made succeeded: all, or all but the last. */
  function Successful(o: Outcome, attempts: nat, refreshes: seq<Result<Auth.TokenResult>>): nat {
    var n := |o.refreshedWith|;
    if n > 0 && attempts + n - 1 < |refreshes| && refreshes[attempts + n - 1].Err? then n - 1 else n
  }

  /** `o` ends with the pair the last successful refresh returned, or with
      the start pair when none succeeded. */
  predicate EndsWithLastPair(o: Outcome, access: string, refresh: string, attempts: nat,
                             refreshes: seq<Result<Auth.TokenResult>>)
  {
    var n := Successful(o, attempts, refreshes);
    && (n == 0 || (attempts + n - 1 < |refreshes| && refreshes[attempts + n - 1].Ok?))
    && o.accessToken == TokenAt(access, refreshes, attempts, n)
    && o.refreshToken == RefreshTokenAt(refresh, refreshes, attempts, n)
  }

  /** One retry shifts the count of successful refreshes by one. */
  lemma EndsWithLastPairStep(o: Outcome, rest: Outcome, access: string, refresh: string, attempts: nat,
                             refreshes: seq<Result<Auth.TokenResult>>)
    requires attempts < |refreshes| && refreshes[attempts].Ok?
    requires o.accessToken == rest.accessToken && o.refreshToken == rest.refreshToken
    requires o.refreshedWith == [refresh] + rest.refreshedWith
    requires EndsWithLastPair(rest, refreshes[attempts].value.accessToken, refreshes[attempts].value.refreshToken,
                              attempts + 1, refreshes)
    ensures EndsWithLastPair(o, access, refresh, attempts, refreshes)
  {
    assert Successful(o, attempts, refreshes) == 1 + Successful(rest, attempts + 1, refreshes);
  }

  /** The pair left at the end is the one the last successful refresh
      returned, or the start pair when none succeeded; a failed refresh
      changes nothing. */
  lemma {:induction false} FinalPair(access: string, refresh: string, attempts: nat,
                                     sends: seq<SendOutcome>, refreshes: seq<Result<Auth.TokenResult>>)
    requires Enough(sends, refreshes) && attempts <= MaxAttempts
    decreases MaxAttempts - attempts
    ensures EndsWithLastPair(Attempt(access, refresh, attempts, sends, refreshes), access, refresh, attempts, refreshes)
  {
    var o := Attempt(access, refresh, attempts, sends, refreshes);
    if Retries(access, attempts, sends, refreshes) {
      var tokens := refreshes[attempts].value;
      var rest := Attempt(tokens.accessToken, tokens.refreshToken, attempts + 1, sends, refreshes);
      FinalPair(tokens.accessToken, tokens.refreshToken, attempts + 1, sends, refreshes);
      EndsWithLastPairStep(o, rest, access, refresh, attempts, refreshes);
    } else {
      assert Successful(o, attempts, refreshes) == 0;
    }
  }



  /** At most `MaxAttempts` refreshes and one send more than refreshes: at
      most four sends. */
  lemma {:induction false} AttemptBounds(access: string, refresh: string, attempts: nat,
                                         sends: seq<SendOutcome>, refreshes: seq<Result<Auth.TokenResult>>)
    requires Enough(sends, refreshes) && attempts <= MaxAttempts
    decreases MaxAttempts - attempts
    ensures var o := Attempt(access, refresh, attempts, sends, refreshes);
            && |o.refreshedWith| <= MaxAttempts - attempts
            && |o.refreshedWith| <= |o.sent| <= |o.refreshedWith| + 1
            && |o.sent| <= MaxAttempts + 1 - attempts
  {
    if Retries(access, attempts, sends, refreshes) {
      var tokens := refreshes[attempts].value;
      AttemptBounds(tokens.accessToken, tokens.refreshToken, attempts + 1, sends, refreshes);
    }
  }

  /** When the loop makes as many sends as refreshes, it ended without a
      final send: either the last refresh failed and its error is the
      outcome, or the headers for the current access token could not be
      built (the `unwrap` panics). */
  lemma {:induction false} EqualCountsEndWithoutSend(access: string, refresh: string, attempts: nat,
                                                     sends: seq<SendOutcome>, refreshes: seq<Result<Auth.TokenResult>>)
    requires Enough(sends, refreshes) && attempts <= MaxAttempts
    decreases MaxAttempts - attempts
    ensures var o := Attempt(access, refresh, attempts, sends, refreshes);
            |o.sent| == |o.refreshedWith| ==>
              || (&& 1 <= |o.sent| && attempts + |o.sent| - 1 < |refreshes|
                  && refreshes[attempts + |o.sent| - 1].Err?
                  && o.result == Err(refreshes[attempts + |o.sent| - 1].error))
              || (MakeHeaders(o.accessToken).Err? && o.result == Err(MakeHeaders(o.accessToken).error))
  {
    if Retries(access, attempts, sends, refreshes) {
      var tokens := refreshes[attempts].value;
      EqualCountsEndWithoutSend(tokens.accessToken, tokens.refreshToken, attempts + 1, sends, refreshes);
    }
  }

  /** A success status is returned at once, whichever send gets it (after
      any number of refreshes): one send, no further refresh, the pair kept. */
  lemma SuccessIsImmediate(access: string, refresh: string, attempts: nat, sends: seq<SendOutcome>,
                           refreshes: seq<Result<Auth.TokenResult>>)
    requires Enough(sends, refreshes) && attempts <= MaxAttempts
    requires IsHeaderValue(access) && sends[attempts].Response? && !IsErrorStatus(sends[attempts].status)
    ensures Attempt(access, refresh, attempts, sends, refreshes)
            == Outcome(Ok(sends[attempts].status), access, refresh, [MakeHeaders(access).value], [])
  {
  }

  /** An error status other than 401, at any send, is returned as an error
      without any (further) refresh. */
  lemma OtherErrorIsNotRetried(access: string, refresh: string, attempts: nat, sends: seq<SendOutcome>,
                               refreshes: seq<Result<Auth.TokenResult>>)
    requires Enough(sends, refreshes) && attempts <= MaxAttempts
    requires IsHeaderValue(access) && sends[attempts].Response?
    requires IsErrorStatus(sends[attempts].status) && sends[attempts].status != Unauthorized
    ensures Attempt(access, refresh, attempts, sends, refreshes)
            == Outcome(Err(HttpStatus(sends[attempts].status)), access, refresh, [MakeHeaders(access).value], [])
  {
  }

  /** A send that fails, at any attempt, propagates at once: no refresh, no retry. */
  lemma TransportFailureIsNotRetried(access: string, refresh: string, attempts: nat, sends: seq<SendOutcome>,
                                     refreshes: seq<Result<Auth.TokenResult>>)
    requires Enough(sends, refreshes) && attempts <= MaxAttempts
    requires IsHeaderValue(access) && sends[attempts].Failed?
    ensures Attempt(access, refresh, attempts, sends, refreshes)
            == Outcome(Err(Transport(sends[attempts].cause)), access, refresh, [MakeHeaders(access).value], [])
  {
  }

  /** A 401 before the last attempt costs one refresh; then the next send is
      made with the refreshed pair. */
  lemma UnauthorizedRefreshesOnce(access: string, refresh: string, attempts: nat,
                                  sends: seq<SendOutcome>, refreshes: seq<Result<Auth.TokenResult>>)
    requires Enough(sends, refreshes) && attempts < MaxAttempts
    requires IsHeaderValue(access) && sends[attempts] == Response(Unauthorized)
    ensures var o := Attempt(access, refresh, attempts, sends, refreshes);
            && |o.sent| >= 1 && o.sent[0] == MakeHeaders(access).value
            && |o.refreshedWith| >= 1 && o.refreshedWith[0] == refresh
            && (refreshes[attempts].Err? ==>
                  o.result == Err(refreshes[attempts].error) && |o.sent| == 1
                  && o.accessToken == access && o.refreshToken == refresh)
            && (refreshes[attempts].Ok? ==>
                  var rest := Attempt(refreshes[attempts].value.accessToken, refreshes[attempts].value.refreshToken,
                                      attempts + 1, sends, refreshes);
                  o.result == rest.result && o.sent[1..] == rest.sent && o.refreshedWith[1..] == rest.refreshedWith)
  {
  }

  /** When every send is refused as unauthorized and every refresh succeeds,
      the loop gives up after the third refresh with the fourth 401: four
      sends, three refreshes. */
  lemma AlwaysUnauthorizedGivesUp(access: string, refresh: string, sends: seq<SendOutcome>,
                                  refreshes: seq<Result<Auth.TokenResult>>)
    requires Enough(sends, refreshes)
    requires forall k :: 0 <= k <= MaxAttempts ==> sends[k] == Response(Unauthorized)
    requires forall k :: 0 <= k < MaxAttempts ==> refreshes[k].Ok?
    requires IsHeaderValue(access)
    requires forall k :: 0 <= k < MaxAttempts ==> IsHeaderValue(refreshes[k].value.accessToken)
    ensures var o := Attempt(access, refresh, 0, sends, refreshes);
            o.result == Err(HttpStatus(Unauthorized)) && |o.sent| == 4 && |o.refreshedWith| == 3
  {
    var r0, r1, r2 := refreshes[0].value, refreshes[1].value, refreshes[2].value;
    var o3 := Attempt(r2.accessToken, r2.refreshToken, 3, sends, refreshes);
    assert o3.result == Err(HttpStatus(Unauthorized)) && |o3.sent| == 1 && |o3.refreshedWith| == 0;
    var o2 := Attempt(r1.accessToken, r1.refreshToken, 2, sends, refreshes);
    assert |o2.sent| == 2 && |o2.refreshedWith| == 1;
    var o1 := Attempt(r0.accessToken, r0.refreshToken, 1, sends, refreshes);
    assert |o1.sent| == 3 && |o1.refreshedWith| == 2;
  }

  /** A request that succeeds got a success status on its last send. */
  lemma {:induction false} SuccessComesFromLastSend(access: string, refresh: string, attempts: nat,
                                                    sends: seq<SendOutcome>, refreshes: seq<Result<Auth.TokenResult>>)
    requires Enough(sends, refreshes) && attempts <= MaxAttempts
    decreases MaxAttempts - attempts
    ensures var o := Attempt(access, refresh, attempts, sends, refreshes);
            o.result.Ok? ==>
              && |o.sent| >= 1 && attempts + |o.sent| - 1 < |sends|
              && sends[attempts + |o.sent| - 1] == Response(o.result.value)
              && !IsErrorStatus(o.result.value)
  {
    if Retries(access, attempts, sends, refreshes) {
      var tokens := refreshes[attempts].value;
      SuccessComesFromLastSend(tokens.accessToken, tokens.refreshToken, attempts + 1, sends, refreshes);
      var o := Attempt(access, refresh, attempts, sends, refreshes);
      var rest := Attempt(tokens.accessToken, tokens.refreshToken, attempts + 1, sends, refreshes);
      assert o.result == rest.result && |o.sent| == 1 + |rest.sent|;
    }
  }
}
