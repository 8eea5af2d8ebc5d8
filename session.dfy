/** The session lifecycle across components: what the route guard does with the cookies
    that login, logout and the 401 rule leave behind, and where a dashboard tile leads. */
module Session {
  import opened Js
  import opened ClientState
  import Middleware
  import Api
  import AuthLogin
  import RedirectToApp

  /** The cookies a page request carries: each cookie's value under its name. */
  function CookieValues(cookies: map<string, Cookie>): (r: map<string, string>)
    ensures r.Keys == cookies.Keys
    ensures forall k :: k in r ==> r[k] == cookies[k].value
  {
    map k | k in cookies :: cookies[k].value
  }

  /** The guard reads the same token the browser code reads. */
  lemma RequestTokenIsBrowserToken(cookies: map<string, Cookie>)
    ensures Middleware.RequestToken(CookieValues(cookies))
         == if TokenCookie in cookies then Some(cookies[TokenCookie].value) else None
  {
  }

  /** After logout only the login page loads; every other page is sent back to it. */
  lemma AfterLogout(cookies: map<string, Cookie>, pathname: string)
    ensures Middleware.Guard(CookieValues(cookies - {TokenCookie}), pathname)
         == if pathname == LoginPath then Middleware.Next else Middleware.Redirect(LoginPath)
  {
    RequestTokenIsBrowserToken(cookies - {TokenCookie});
  }

  /** After a login that returned a non-empty token, the home page the form navigates to
      loads, and the login page itself is left for it. */
  lemma AfterLogin(cookies: map<string, Cookie>, token: string, production: bool)
    requires token != ""
    ensures var after := CookieValues(cookies[TokenCookie := AuthLogin.SessionCookie(token, production)]);
      && Middleware.Guard(after, HomePath) == Middleware.Next
      && Middleware.Guard(after, LoginPath) == Middleware.Redirect(HomePath)
  {
    RequestTokenIsBrowserToken(cookies[TokenCookie := AuthLogin.SessionCookie(token, production)]);
  }

  /** A login whose server reply carries an empty token is reported as a success, yet the
      guard treats the empty cookie as no session and sends the browser back to login. */
  lemma EmptyTokenLoginBouncesBack(cookies: map<string, Cookie>, production: bool)
    ensures Middleware.Guard(CookieValues(cookies[TokenCookie := AuthLogin.SessionCookie("", production)]), HomePath)
         == Middleware.Redirect(LoginPath)
  {
    RequestTokenIsBrowserToken(cookies[TokenCookie := AuthLogin.SessionCookie("", production)]);
  }

  /** When a 401 ends the session, the page the interceptor navigates to is one the guard
      serves: the user lands on the login form without a redirect loop. */
  lemma ExpiredSessionLandsOnLogin<T>(cookies: map<string, Cookie>, pathname: string, outcome: Api.Settled<T>)
    requires Api.EndsSession(outcome, pathname, true)
    ensures var nav := Api.NavigationAfter(None, pathname, outcome, true);
      && nav == Some(LoginPath)
      && Middleware.Guard(CookieValues(Api.CookiesAfter(cookies, pathname, outcome, true)), nav.value) == Middleware.Next
  {
    AfterLogout(cookies, LoginPath);
  }

  /** A tile click after a successful directory fetch leads to the first application with
      the tile's name; with distinct names, to the tile's own application. */
  lemma TileLeadsToItsApplication(token: Option<string>, apps: seq<App>, fetchedAt: int, i: nat, encrypt: string -> Option<string>)
    requires TruthyText(token) && encrypt(token.value).Some?
    requires i < |apps|
    requires forall j, k :: 0 <= j < k < |apps| ==> apps[j].nama != apps[k].nama
    ensures RedirectToApp.PlanRedirect(token, Some(AppCache(apps, fetchedAt)), apps[i].nama, encrypt)
         == RedirectToApp.Navigate(RedirectToApp.Destination(apps[i].url, encrypt(token.value).value))
  {
    RedirectToApp.NavigatesToFirstMatch(token, apps, fetchedAt, apps[i].nama, encrypt, i);
  }

  /** Two applications sharing a name: the second tile opens the first application. */
  lemma DuplicateNameOpensFirst(token: Option<string>, encrypt: string -> Option<string>)
    requires TruthyText(token) && encrypt(token.value).Some?
    ensures var apps := [App(1, "SIM", "/a", None), App(2, "SIM", "/b", None)];
      RedirectToApp.PlanRedirect(token, Some(AppCache(apps, 0)), apps[1].nama, encrypt)
        == RedirectToApp.Navigate(RedirectToApp.Destination("/a", encrypt(token.value).value))
  {
    var apps := [App(1, "SIM", "/a", None), App(2, "SIM", "/b", None)];
    RedirectToApp.NavigatesToFirstMatch(token, apps, 0, "SIM", encrypt, 0);
  }
}
