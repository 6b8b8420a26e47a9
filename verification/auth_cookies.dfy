/** The authenticated HTTP client's cookie handling (services/api/instance.ts):
    the bearer header built from the access-token cookie, the request
    interceptor that merges it into outgoing headers, and the response-error
    interceptor that updates the cookies by status and shapes the rejection.
    The cookie library is an in-memory map and the refresh round trip is an
    input outcome. */
module AuthCookies {
  import opened Wrappers

  /** Cookie names: the two token cookies the client manages and any other
      cookie of the page. */
  datatype CookieName = AccessToken | RefreshToken | OtherCookie(name: string)

  type CookieJar = map<CookieName, string>

  type Headers = map<string, string>

  const AuthorizationHeader: string := "Authorization"
  const BearerPrefix: string := "Bearer "

  /** `Cookies.get(name)`: the value, or `undefined`. */
  function GetCookie(jar: CookieJar, name: CookieName): (v: Option<string>)
    ensures v.Some? <==> name in jar
    ensures v.Some? ==> v.value == jar[name]
  {
    if name in jar then Some(jar[name]) else None
  }

  /** JavaScript truthiness of an optional string: present and non-empty. */
  predicate Truthy(v: Option<string>)
  {
    v.Some? && v.value != ""
  }

  // ---------------------------------------------------------------------
  // The bearer header.
  // ---------------------------------------------------------------------

  /** `token.replace(/"/g, '')`: every double quote removed. */
  function StripQuotes(s: string): (r: string)
    ensures '"' !in r
    ensures |r| <= |s|
    ensures '"' !in s ==> r == s
  {
    if |s| == 0 then []
    else (if s[0] == '"' then [] else [s[0]]) + StripQuotes(s[1..])
  }

  /** Stripping distributes over concatenation, so together with the one-
      character cases it determines the result: quotes are dropped, every other
      character is kept, in order. */
  lemma {:induction false} StripQuotesAppend(a: string, b: string)
    ensures StripQuotes(a + b) == StripQuotes(a) + StripQuotes(b)
    decreases |a|
  {
    if |a| == 0 {
      assert a + b == b;
    } else {
      var ab := a + b;
      var head := if a[0] == '"' then [] else [a[0]];
      assert ab[0] == a[0];
      assert ab[1..] == a[1..] + b;
      StripQuotesAppend(a[1..], b);
      calc {
        StripQuotes(ab);
        head + StripQuotes(a[1..] + b);
        head + (StripQuotes(a[1..]) + StripQuotes(b));
        (head + StripQuotes(a[1..])) + StripQuotes(b);
      }
    }
  }

  /** Stripping a single character. */
  lemma StripQuotesChar(c: char)
    ensures StripQuotes([c]) == if c == '"' then [] else [c]
  {
    assert [c][1..] == [];
  }

  /** Stripping twice is stripping once. */
  lemma StripQuotesIdempotent(s: string)
    ensures StripQuotes(StripQuotes(s)) == StripQuotes(s)
  {
  }

  /** `authHeader_Bearer`: no header unless the access-token cookie is
      truthy; otherwise an `Authorization` header holding "Bearer " and the
      token with its quotes removed. */
  function AuthHeaderBearer(jar: CookieJar): (h: Headers)
    ensures !Truthy(GetCookie(jar, AccessToken)) <==> h == map[]
    ensures h != map[] ==> h.Keys == {AuthorizationHeader}
    ensures h != map[] ==> h[AuthorizationHeader] == BearerPrefix + StripQuotes(jar[AccessToken])
  {
    var token := GetCookie(jar, AccessToken);
    if Truthy(token) then
      var h := map[AuthorizationHeader := BearerPrefix + StripQuotes(token.value)];
      assert AuthorizationHeader in h;
      h
    else map[]
  }

  /** The credential after the prefix never contains a double quote, and the
      header depends on the access-token cookie alone. */
  lemma BearerHeaderShape(jar: CookieJar, jar': CookieJar)
    ensures forall k :: k in AuthHeaderBearer(jar) ==>
              var v := AuthHeaderBearer(jar)[k];
              BearerPrefix <= v && '"' !in v[|BearerPrefix|..]
    ensures GetCookie(jar, AccessToken) == GetCookie(jar', AccessToken) ==>
              AuthHeaderBearer(jar) == AuthHeaderBearer(jar')
  {
    var h := AuthHeaderBearer(jar);
    if h != map[] {
      var v := h[AuthorizationHeader];
      assert v[|BearerPrefix|..] == StripQuotes(jar[AccessToken]);
    }
  }

  // ---------------------------------------------------------------------
  // The request interceptor.
  // ---------------------------------------------------------------------

  /** An outgoing request: its headers, and the rest of the axios config,
      which the interceptor passes through. */
  datatype RequestConfig = RequestConfig(headers: Headers, target: string)

  /** The request interceptor: `{...config.headers, ...authHeader}`. Every
      header other than `Authorization` is kept; `Authorization` is replaced
      by the bearer header when the access token is truthy and kept otherwise. */
  function OnRequest(config: RequestConfig, jar: CookieJar): (r: RequestConfig)
    ensures r.target == config.target
    ensures forall k :: k != AuthorizationHeader ==>
              (k in r.headers <==> k in config.headers)
              && (k in config.headers ==> r.headers[k] == config.headers[k])
    ensures Truthy(GetCookie(jar, AccessToken)) ==>
              AuthorizationHeader in r.headers
              && r.headers[AuthorizationHeader] == BearerPrefix + StripQuotes(jar[AccessToken])
    ensures !Truthy(GetCookie(jar, AccessToken)) ==> r.headers == config.headers
  {
    config.(headers := config.headers + AuthHeaderBearer(jar))
  }

  // ---------------------------------------------------------------------
  // The response-error interceptor.
  // ---------------------------------------------------------------------

  /** A response body: a parsed object whose `message` may be missing, or
      `null`/`undefined`. */
  datatype ResponseBody = Body(message: Option<string>) | NoBody

  /** The response of a request, successful or not. */
  datatype Response = Response(status: int, data: ResponseBody)

  /** An axios error: the response if one arrived, the request handle if one
      was sent, and an identity for the error object itself. */
  datatype HttpError = HttpError(response: Option<Response>, request: Option<nat>, errorId: nat)

  /** The value a promise is rejected with. `ReadFailed` is the `TypeError`
      raised by reading `message` off a `null`/`undefined` body. */
  datatype Rejection =
    | StatusAndMessage(status: int, message: Option<string>)
    | RequestOnly(request: nat)
    | ErrorItself(error: HttpError)
    | ReadFailed

  /** How the interceptor's promise settles. */
  datatype Settlement = Resolved(response: Response) | Rejected(reason: Rejection)

  /** The refresh round trip: the response body's optional token fields, or
      a thrown error. */
  datatype RefreshOutcome = Refreshed(accessToken: Option<string>, refreshToken: Option<string>) | RefreshThrew

  /** The cookies after the error, and how the promise settles. */
  datatype ErrorHandling = ErrorHandling(jar: CookieJar, settlement: Settlement)

  /** `error?.response?.status === code`. */
  predicate HasStatus(e: HttpError, code: int)
  {
    e.response.Some? && e.response.value.status == code
  }

  /** The refresh token the interceptor sends to the refresh endpoint, if it
      calls it at all: only on 401, and only when the refresh cookie is truthy. */
  function RefreshRequest(e: HttpError, jar: CookieJar): (t: Option<string>)
    ensures t.Some? <==> HasStatus(e, 401) && Truthy(GetCookie(jar, RefreshToken))
    ensures t.Some? ==> t.value == jar[RefreshToken]
  {
    if HasStatus(e, 401) && Truthy(GetCookie(jar, RefreshToken)) then Some(jar[RefreshToken]) else None
  }

  /** The rejection value: status and message when there is a response,
      otherwise the request when there is one, otherwise the error itself. */
  function RejectionOf(e: HttpError): (r: Rejection)
    ensures e.response.Some? && e.response.value.data.Body? ==>
              r == StatusAndMessage(e.response.value.status, e.response.value.data.message)
    ensures e.response.Some? && e.response.value.data.NoBody? ==> r == ReadFailed
    ensures e.response.None? && e.request.Some? ==> r == RequestOnly(e.request.value)
    ensures e.response.None? && e.request.None? ==> r == ErrorItself(e)
  {
    match e.response
    case Some(resp) =>
      (match resp.data
       case Body(message) => StatusAndMessage(resp.status, message)
       case NoBody => ReadFailed)
    case None =>
      if e.request.Some? then RequestOnly(e.request.value) else ErrorItself(e)
  }

  /** The response-error interceptor. `refresh` is what the refresh call
      returns; it is read only when `RefreshRequest` says the call is made. */
  function OnResponseError(e: HttpError, jar: CookieJar, refresh: RefreshOutcome): (r: ErrorHandling)
    ensures r.settlement == Rejected(RejectionOf(e))
  {
    var afterForbidden := if HasStatus(e, 403) then jar - {RefreshToken, AccessToken} else jar;
    var afterUnauthorized :=
      if HasStatus(e, 401) then
        if !Truthy(GetCookie(afterForbidden, RefreshToken)) then afterForbidden - {AccessToken}
        else match refresh
          case Refreshed(access, next) =>
            afterForbidden[AccessToken := access.GetOr("")][RefreshToken := next.GetOr("")]
          case RefreshThrew => afterForbidden - {RefreshToken, AccessToken}
      else afterForbidden;
    ErrorHandling(afterUnauthorized, Rejected(RejectionOf(e)))
  }

  /** The cookie transitions, status by status. */
  lemma ResponseErrorCookies(e: HttpError, jar: CookieJar, refresh: RefreshOutcome)
    ensures HasStatus(e, 403) ==>
              OnResponseError(e, jar, refresh).jar == jar - {AccessToken, RefreshToken}
    ensures HasStatus(e, 401) && RefreshRequest(e, jar).None? ==>
              OnResponseError(e, jar, refresh).jar == jar - {AccessToken}
    ensures HasStatus(e, 401) && RefreshRequest(e, jar).Some? && refresh.Refreshed? ==>
              OnResponseError(e, jar, refresh).jar
              == jar[AccessToken := refresh.accessToken.GetOr("")][RefreshToken := refresh.refreshToken.GetOr("")]
    ensures HasStatus(e, 401) && RefreshRequest(e, jar).Some? && refresh.RefreshThrew? ==>
              OnResponseError(e, jar, refresh).jar == jar - {AccessToken, RefreshToken}
    ensures !HasStatus(e, 403) && !HasStatus(e, 401) ==> OnResponseError(e, jar, refresh).jar == jar
  {
  }

  /** Cookies other than the two tokens are never touched. */
  lemma OtherCookiesUntouched(e: HttpError, jar: CookieJar, refresh: RefreshOutcome, name: string)
    ensures GetCookie(OnResponseError(e, jar, refresh).jar, OtherCookie(name)) == GetCookie(jar, OtherCookie(name))
  {
  }

  /** The refresh outcome matters only when the refresh call is made. */
  lemma RefreshOutcomeUnusedUnlessRequested(e: HttpError, jar: CookieJar, o1: RefreshOutcome, o2: RefreshOutcome)
    requires RefreshRequest(e, jar).None?
    ensures OnResponseError(e, jar, o1) == OnResponseError(e, jar, o2)
  {
  }

  /** After a 403, or a 401 whose refresh throws, the client is logged out:
      no token cookies remain and the next request carries no bearer header. */
  lemma LoggedOutAfterRejectedCredentials(e: HttpError, jar: CookieJar, refresh: RefreshOutcome)
    requires HasStatus(e, 403) || (RefreshRequest(e, jar).Some? && refresh == RefreshThrew)
    ensures var j := OnResponseError(e, jar, refresh).jar;
      AccessToken !in j && RefreshToken !in j && AuthHeaderBearer(j) == map[]
  {
  }

  /** After a successful refresh the next request carries the new access
      token; a response without one leaves an empty cookie, hence no header. */
  lemma RefreshInstallsNewBearer(e: HttpError, jar: CookieJar, access: Option<string>, next: Option<string>)
    requires RefreshRequest(e, jar).Some?
    ensures var j := OnResponseError(e, jar, Refreshed(access, next)).jar;
      && GetCookie(j, RefreshToken) == Some(next.GetOr(""))
      && (Truthy(access) ==> AuthHeaderBearer(j) == map[AuthorizationHeader := BearerPrefix + StripQuotes(access.value)])
      && (!Truthy(access) ==> AuthHeaderBearer(j) == map[])
  {
  }

  /** The success handler: the response is passed through unchanged. */
  function OnResponse(resp: Response): Settlement
  {
    Resolved(resp)
  }

  /** Neither handler turns one outcome into the other: a response always
      resolves to itself, and the error handler always rejects, with the same
      value whatever the cookies and the refresh outcome. No failed request is
      retried. */
  lemma ResponseInterceptorSettles(resp: Response, e: HttpError, jar: CookieJar, jar': CookieJar,
                                   refresh: RefreshOutcome, refresh': RefreshOutcome)
    ensures OnResponse(resp) == Resolved(resp)
    ensures !OnResponseError(e, jar, refresh).settlement.Resolved?
    ensures OnResponseError(e, jar, refresh).settlement == OnResponseError(e, jar', refresh').settlement
  {
  }
}
