/** The Next.js route guard: every page request whose path the matcher selects is
    redirected to the login page when there is no session token, away from the login page
    when there is one, and passed through otherwise. */
module Middleware {
  import opened Js
  import opened ClientState

  /** Pages reachable without a session. */
  const PublicPaths: seq<string> := [LoginPath]

  /** Image extensions the matcher leaves unguarded. */
  const ImageExtensions: seq<string> := ["svg", "png", "jpg", "jpeg", "gif", "webp"]

  datatype Response = Next | Redirect(location: string)

  /** `request.cookies.get("token")?.value`. */
  function RequestToken(cookies: map<string, string>): Option<string>
  {
    if TokenCookie in cookies then Some(cookies[TokenCookie]) else None
  }

  /** `middleware(request)`: a page passes exactly when the session and the page agree
      (a session on any page but the login page, or no session on the login page); every
      other request is redirected to the page that agrees. */
  function Guard(cookies: map<string, string>, pathname: string): (r: Response)
    ensures r == Next <==> (TruthyText(RequestToken(cookies)) <==> pathname != LoginPath)
    ensures r.Redirect? ==> r.location == (if TruthyText(RequestToken(cookies)) then HomePath else LoginPath)
  {
    var token := RequestToken(cookies);
    if !TruthyText(token) && pathname !in PublicPaths then Redirect(LoginPath)
    else if TruthyText(token) && pathname in PublicPaths then Redirect(HomePath)
    else Next
  }

  /** The negative look-ahead of `config.matcher`, applied to the path after its first `/`.
      The `.` in `favicon.ico` is an unescaped regular-expression dot and matches any
      character. */
  predicate IsExcluded(rest: string)
  {
    "_next/static" <= rest
    || "_next/image" <= rest
    || (|rest| >= 11 && rest[..7] == "favicon" && rest[8..11] == "ico")
    || (exists ext :: ext in ImageExtensions && EndsWith(rest, "." + ext))
  }

  /** `config.matcher`: the paths the middleware runs on. */
  predicate IsGuarded(path: string)
  {
    |path| >= 1 && path[0] == '/' && !IsExcluded(path[1..])
  }

  /** The whole request pipeline: unmatched paths are served without the middleware, and
      the only redirects are the guard's, to the login page or the home page. */
  function Route(cookies: map<string, string>, path: string): (r: Response)
    ensures !IsGuarded(path) ==> r == Next
    ensures IsGuarded(path) ==> r == Guard(cookies, path)
    ensures r.Redirect? ==> IsGuarded(path) && (r.location == LoginPath || r.location == HomePath)
  {
    if IsGuarded(path) then Guard(cookies, path) else Next
  }

  /** Without a token, every page but the login page is redirected to it. */
  lemma NoTokenRedirectsToLogin(cookies: map<string, string>, pathname: string)
    requires !TruthyText(RequestToken(cookies))
    ensures Guard(cookies, pathname) == (if pathname == LoginPath then Next else Redirect(LoginPath))
  {
  }

  /** With a token, only the login page is redirected, to the home page. */
  lemma TokenLeavesLoginPage(cookies: map<string, string>, pathname: string)
    requires TruthyText(RequestToken(cookies))
    ensures Guard(cookies, pathname) == (if pathname == LoginPath then Redirect(HomePath) else Next)
  {
  }

  /** A redirect always lands on a page the guard lets through: one redirect is enough
      and there is no redirect loop. */
  lemma NoRedirectLoop(cookies: map<string, string>, pathname: string)
    ensures Guard(cookies, pathname).Redirect? ==> Guard(cookies, Guard(cookies, pathname).location) == Next
  {
  }

  /** An empty `token` cookie is the same as none. */
  lemma EmptyTokenIsAbsent(pathname: string)
    ensures Guard(map[TokenCookie := ""], pathname) == Guard(map[], pathname)
  {
  }

  /** The public-path test is exact equality: a trailing slash is a protected page. */
  lemma TrailingSlashIsProtected()
    ensures Route(map[], "/auth/login/") == Redirect(LoginPath)
  {
    var rest := "auth/login/";
    assert "/auth/login/"[1..] == rest;
    assert rest[0] == 'a';
    DotlessIsNotAnImage(rest);
  }

  /** A path without a dot has no image extension. */
  lemma DotlessIsNotAnImage(rest: string)
    requires '.' !in rest
    ensures !exists ext :: ext in ImageExtensions && EndsWith(rest, "." + ext)
  {
    forall ext | ext in ImageExtensions
      ensures !EndsWith(rest, "." + ext)
    {
      if EndsWith(rest, "." + ext) {
        ExtensionHasDot(rest, ext);
        assert false;
      }
    }
  }

  lemma ExtensionHasDot(rest: string, ext: string)
    requires EndsWith(rest, "." + ext)
    ensures '.' in rest
  {
    assert rest[|rest| - |ext| - 1] == ("." + ext)[0];
  }

  /** Image files are never guarded, with or without a session. */
  lemma ImagesPassThrough(cookies: map<string, string>, name: string, ext: string)
    requires ext in ImageExtensions
    ensures Route(cookies, "/" + name + "." + ext) == Next
  {
    var path := "/" + name + "." + ext;
    assert path[1..] == name + ("." + ext);
    assert EndsWith(path[1..], "." + ext);
  }

  /** Build assets under `/_next/static` are never guarded. */
  lemma StaticAssetsPassThrough(cookies: map<string, string>, rest: string)
    ensures Route(cookies, "/_next/static" + rest) == Next
  {
    var path := "/_next/static" + rest;
    assert path[1..] == "_next/static" + rest;
  }

  /** Optimised images under `/_next/image` are never guarded. */
  lemma NextImagePassThrough(cookies: map<string, string>, rest: string)
    ensures Route(cookies, "/_next/image" + rest) == Next
  {
    var path := "/_next/image" + rest;
    assert path[1..] == "_next/image" + rest;
  }

  /** Because of the unescaped dot, `/favicon-ico` is not guarded either. */
  lemma FaviconDotMatchesAnyCharacter(cookies: map<string, string>)
    ensures Route(cookies, "/favicon-ico") == Next
  {
    assert "/favicon-ico"[1..][..7] == "favicon";
  }
}
