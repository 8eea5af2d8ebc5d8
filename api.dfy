/** The axios client every screen uses: a request interceptor that adds the bearer header
    from the `token` cookie, and a response interceptor that ends the session on a 401
    (outside the login endpoint) and hands every outcome on to the caller. */
module Api {
  import opened Js
  import opened ClientState

  /** The server's answer attached to a failed request: its status and `data.message`. */
  datatype ErrorResponse = ErrorResponse(status: int, message: Option<string>)

  /** An axios error: `config.url`, `response` (None for a network error) and `message`. */
  datatype HttpError = HttpError(url: string, response: Option<ErrorResponse>, message: Option<string>)

  /** What the network delivered for one request, before the interceptors. */
  datatype Reply<T> = Delivered(data: T) | Failed(response: Option<ErrorResponse>, message: Option<string>)

  /** The promise the caller awaits: resolved with the data, or rejected with the error. */
  datatype Settled<T> = Fulfilled(data: T) | Rejected(error: HttpError)

  /** The settled promise of a request to `url`. */
  function Settle<T>(url: string, reply: Reply<T>): Settled<T>
  {
    match reply
    case Delivered(d) => Fulfilled(d)
    case Failed(resp, msg) => Rejected(HttpError(url, resp, msg))
  }

  const UnknownError := "Unknown error"

  /** `e?.response?.data?.message`. */
  function ServerMessage(e: HttpError): Option<string>
  {
    if e.response.Some? then e.response.value.message else None
  }

  /** `asErrorMessage(e)`: the server's message unless it is null or undefined, else the
      error's own message unless that is nullish, else "Unknown error". An empty server
      message is returned as it is. */
  function AsErrorMessage(e: HttpError): (r: string)
    ensures ServerMessage(e).Some? ==> r == ServerMessage(e).value
    ensures ServerMessage(e).None? && e.message.Some? ==> r == e.message.value
    ensures ServerMessage(e).None? && e.message.None? ==> r == UnknownError
  {
    match ServerMessage(e)
    case Some(m) => m
    case None =>
      match e.message
      case Some(m) => m
      case None => UnknownError
  }

  // ---------------------------------------------------------------------------
  // Request interceptor

  const Authorization := "Authorization"
  const BearerPrefix := "Bearer "

  /** The headers axios.create gives every request. */
  const DefaultHeaders: map<string, string> := map["Content-Type" := "application/json"]

  /** The token a bearer header carries, as a server would read it. */
  function BearerToken(header: string): Option<string>
  {
    if BearerPrefix <= header then Some(header[|BearerPrefix|..]) else None
  }

  /** The headers after the request interceptor: with a non-empty token, `Authorization`
      carries exactly that token; without one, nothing changes. No other header is touched. */
  function WithBearer(headers: map<string, string>, token: Option<string>): (r: map<string, string>)
    ensures TruthyText(token) ==> Authorization in r && BearerToken(r[Authorization]) == token
    ensures !TruthyText(token) ==> r == headers
    ensures forall k :: k != Authorization ==> (k in r <==> k in headers)
    ensures forall k :: k != Authorization && k in r ==> r[k] == headers[k]
  {
    if TruthyText(token) then
      var h := BearerPrefix + token.value;
      assert h[|BearerPrefix|..] == token.value;
      headers[Authorization := h]
    else headers
  }

  /** An outgoing request's configuration, which the request interceptor updates in place. */
  class RequestConfig {
    var url: string
    var headers: map<string, string>

    constructor (url: string)
      ensures this.url == url && headers == DefaultHeaders
    {
      this.url := url;
      headers := DefaultHeaders;
    }
  }

  /** The request interceptor. `windowDefined` is `typeof window !== "undefined"`: during
      server rendering there is no cookie to read. */
  method InterceptRequest(config: RequestConfig, browser: Browser, windowDefined: bool)
    modifies config
    ensures config.url == old(config.url)
    ensures config.headers == WithBearer(old(config.headers), if windowDefined then browser.Token() else None)
  {
    var token := if windowDefined then browser.Token() else None;
    if TruthyText(token) {
      config.headers := config.headers[Authorization := BearerPrefix + token.value];
    }
  }

  // ---------------------------------------------------------------------------
  // Response interceptor

  /** A 401 from any endpoint whose URL does not contain "/login". */
  predicate IsExpiredSession(e: HttpError)
  {
    e.response.Some? && e.response.value.status == 401 && !Includes(e.url, "/login")
  }

  /** Whether the response interceptor ends the session: an expired-session error while
      the browser is on a page whose path does not contain "/auth/login". */
  predicate EndsSession<T>(outcome: Settled<T>, pathname: string, windowDefined: bool)
  {
    outcome.Rejected? && IsExpiredSession(outcome.error) && windowDefined && !Includes(pathname, LoginPath)
  }

  /** The cookies after the response interceptor: only the `token` cookie can go, and it
      goes exactly when the session ends. */
  function CookiesAfter<T>(cookies: map<string, Cookie>, pathname: string, outcome: Settled<T>, windowDefined: bool): (r: map<string, Cookie>)
    ensures forall k :: k != TokenCookie ==> (k in r <==> k in cookies)
    ensures forall k :: k in r ==> k in cookies && r[k] == cookies[k]
    ensures TokenCookie in r <==> TokenCookie in cookies && !EndsSession(outcome, pathname, windowDefined)
  {
    if EndsSession(outcome, pathname, windowDefined) then cookies - {TokenCookie} else cookies
  }

  /** The navigation after the response interceptor: the earlier one, unless the session
      ends, in which case the login page. */
  function NavigationAfter<T>(navigation: Option<string>, pathname: string, outcome: Settled<T>, windowDefined: bool): (r: Option<string>)
    ensures r == navigation || r == Some(LoginPath)
    ensures EndsSession(outcome, pathname, windowDefined) ==> r == Some(LoginPath)
    ensures r != navigation ==> EndsSession(outcome, pathname, windowDefined)
  {
    if EndsSession(outcome, pathname, windowDefined) then Some(LoginPath) else navigation
  }

  /** The response interceptor. The outcome is handed on unchanged: a response resolves,
      every error is rejected again, whatever branch was taken. */
  method InterceptResponse<T>(browser: Browser, outcome: Settled<T>, windowDefined: bool) returns (r: Settled<T>)
    modifies browser
    ensures r == outcome
    ensures browser.cookies == CookiesAfter(old(browser.cookies), old(browser.pathname), outcome, windowDefined)
    ensures browser.navigation == NavigationAfter(old(browser.navigation), old(browser.pathname), outcome, windowDefined)
    ensures browser.storage == old(browser.storage) && browser.pathname == old(browser.pathname)
    ensures browser.notices == old(browser.notices)
  {
    match outcome {
      case Fulfilled(_) =>
      case Rejected(e) =>
        if e.response.Some? && e.response.value.status == 401 && !Includes(e.url, "/login") {
          if windowDefined && !Includes(browser.pathname, LoginPath) {
            browser.cookies := browser.cookies - {TokenCookie};
            browser.navigation := Some(LoginPath);
          }
        }
    }
    r := outcome;
  }

  /** One request through `api`, as a component in the browser issues it: the headers that
      were sent and the settled outcome, with the interceptors' effects on the browser. */
  method Request<T>(browser: Browser, url: string, reply: Reply<T>) returns (sent: map<string, string>, r: Settled<T>)
    modifies browser
    ensures sent == WithBearer(DefaultHeaders, old(browser.Token()))
    ensures r == Settle(url, reply)
    ensures browser.cookies == CookiesAfter(old(browser.cookies), old(browser.pathname), r, true)
    ensures browser.navigation == NavigationAfter(old(browser.navigation), old(browser.pathname), r, true)
    ensures browser.storage == old(browser.storage) && browser.pathname == old(browser.pathname)
    ensures browser.notices == old(browser.notices)
  {
    var config := new RequestConfig(url);
    InterceptRequest(config, browser, true);
    sent := config.headers;
    r := InterceptResponse(browser, Settle(url, reply), true);
  }

  // ---------------------------------------------------------------------------
  // Properties

  /** A successful response never ends the session: cookies and location stay. */
  lemma SuccessKeepsSession<T>(cookies: map<string, Cookie>, navigation: Option<string>, pathname: string, data: T, windowDefined: bool)
    ensures !EndsSession(Fulfilled(data), pathname, windowDefined)
    ensures CookiesAfter(cookies, pathname, Fulfilled(data), windowDefined) == cookies
    ensures NavigationAfter(navigation, pathname, Fulfilled(data), windowDefined) == navigation
  {
  }

  /** Errors other than 401, network errors included, never end the session: cookies and
      location stay. */
  lemma OtherErrorsKeepSession<T>(cookies: map<string, Cookie>, navigation: Option<string>, pathname: string, e: HttpError, windowDefined: bool)
    requires e.response.None? || e.response.value.status != 401
    ensures !EndsSession<T>(Rejected(e), pathname, windowDefined)
    ensures CookiesAfter<T>(cookies, pathname, Rejected(e), windowDefined) == cookies
    ensures NavigationAfter<T>(navigation, pathname, Rejected(e), windowDefined) == navigation
  {
  }

  /** A 401 from a URL containing "/login" never ends the session: cookies and location
      stay. */
  lemma LoginErrorsKeepSession<T>(cookies: map<string, Cookie>, navigation: Option<string>, pathname: string, e: HttpError, windowDefined: bool)
    requires Includes(e.url, "/login")
    ensures !EndsSession<T>(Rejected(e), pathname, windowDefined)
    ensures CookiesAfter<T>(cookies, pathname, Rejected(e), windowDefined) == cookies
    ensures NavigationAfter<T>(navigation, pathname, Rejected(e), windowDefined) == navigation
  {
  }

  /** A 401 on a protected page removes exactly the `token` cookie and sends the browser
      to the login page; every other cookie stays. */
  lemma ExpiredSessionClearsOnlyToken<T>(cookies: map<string, Cookie>, navigation: Option<string>, pathname: string, e: HttpError)
    requires IsExpiredSession(e) && !Includes(pathname, LoginPath)
    ensures TokenCookie !in CookiesAfter<T>(cookies, pathname, Rejected(e), true)
    ensures forall k :: k in cookies && k != TokenCookie ==>
      k in CookiesAfter<T>(cookies, pathname, Rejected(e), true) && CookiesAfter<T>(cookies, pathname, Rejected(e), true)[k] == cookies[k]
    ensures NavigationAfter<T>(navigation, pathname, Rejected(e), true) == Some(LoginPath)
  {
  }

  /** The login endpoint's URL contains "/login", so its errors never end a session. */
  lemma LoginUrlIncludesLogin()
    ensures Includes("/api/auth/login", "/login")
  {
    IncludesAt("/api/auth/login", "/login", 9);
  }
}
