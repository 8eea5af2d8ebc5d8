/** The login form. Submitting it posts the typed credentials through `api`; on success
    the session token becomes the `token` cookie, the user profile and a `loginSuccess` flag
    go to localStorage and the browser is sent to the dashboard; on failure a toast explains
    why. The handler is split at its `await`: `Submit` is what runs before the request
    settles, `Complete` what runs after. */
module AuthLogin {
  import opened Js
  import opened ClientState
  import Api

  const LoginUrl := "/api/auth/login"
  const LoginFailed := "Login Gagal! Cek username/password."
  const SessionDays := 7
  const LoginAlert := SuccessAlert("Login berhasil!", "Mengalihkan anda ke dashboard..")

  /** The body of `POST /api/auth/login`. */
  datatype LoginRequest = LoginRequest(username: string, password: string)

  /** `res.data`: the session token and the user object, the latter already in the text
      form `JSON.stringify` gives it. */
  datatype LoginResponse = LoginResponse(token: string, userJson: string)

  /** The failure toast: `error.response?.data?.message || "Login Gagal! …"`. Because of
      `||`, an empty server message falls back too, so the toast is never empty. */
  function FailureMessage(e: Api.HttpError): (r: string)
    ensures r != ""
    ensures TruthyText(Api.ServerMessage(e)) ==> r == Api.ServerMessage(e).value
    ensures !TruthyText(Api.ServerMessage(e)) ==> r == LoginFailed
  {
    var m := Api.ServerMessage(e);
    if TruthyText(m) then m.value else LoginFailed
  }

  /** The `token` cookie login writes: seven days, path `/`, SameSite lax, and `secure`
      only in a production build. */
  function SessionCookie(token: string, production: bool): Cookie
  {
    Cookie(token, SessionDays, "/", "lax", production)
  }

  class LoginForm {
    var username: string
    var password: string
    var loading: bool

    constructor ()
      ensures username == "" && password == "" && !loading
    {
      username, password, loading := "", "", false;
    }

    /** The submit button is disabled exactly while a login request is pending. */
    predicate SubmitDisabled()
      reads this
    {
      loading
    }

    method ChangeUsername(value: string)
      modifies this
      ensures username == value && password == old(password) && loading == old(loading)
    {
      username := value;
    }

    method ChangePassword(value: string)
      modifies this
      ensures password == value && username == old(username) && loading == old(loading)
    {
      password := value;
    }

    /** `handleLogin` up to its `await`: loading starts and the credentials are sent
        exactly as typed, with the headers the request interceptor sets. */
    method Submit(browser: Browser) returns (body: LoginRequest, headers: map<string, string>)
      modifies this
      ensures loading && SubmitDisabled()
      ensures username == old(username) && password == old(password)
      ensures body == LoginRequest(username, password)
      ensures headers == Api.WithBearer(Api.DefaultHeaders, browser.Token())
    {
      loading := true;
      body := LoginRequest(username, password);
      var config := new Api.RequestConfig(LoginUrl);
      Api.InterceptRequest(config, browser, true);
      headers := config.headers;
    }

    /** `handleLogin` after its `await`, for the reply the server gave. The reply passes
        the response interceptor first; a failed login never ends a session there, since
        the login URL contains "/login". */
    method Complete(browser: Browser, reply: Api.Reply<LoginResponse>, production: bool)
      modifies this, browser
      ensures !loading && !SubmitDisabled()
      ensures username == old(username) && password == old(password)
      ensures browser.pathname == old(browser.pathname)
      ensures reply.Delivered? ==>
        && browser.cookies == old(browser.cookies)[TokenCookie := SessionCookie(reply.data.token, production)]
        && browser.storage == old(browser.storage)[UserKey := Text(reply.data.userJson)][LoginSuccessKey := Text("true")]
        && browser.notices == old(browser.notices) + [LoginAlert]
        && browser.navigation == Some(HomePath)
      ensures reply.Failed? ==>
        && browser.cookies == old(browser.cookies)
        && browser.storage == old(browser.storage)
        && browser.navigation == old(browser.navigation)
        && browser.notices == old(browser.notices) + [ErrorToast(FailureMessage(Api.Settle(LoginUrl, reply).error))]
    {
      Api.LoginUrlIncludesLogin();
      var r := Api.InterceptResponse(browser, Api.Settle(LoginUrl, reply), true);
      match r {
        case Fulfilled(res) =>
          browser.cookies := browser.cookies[TokenCookie := SessionCookie(res.token, production)];
          browser.storage := browser.storage[UserKey := Text(res.userJson)];
          browser.notices := browser.notices + [LoginAlert];
          browser.storage := browser.storage[LoginSuccessKey := Text("true")];
          loading := false;
          browser.navigation := Some(HomePath);
        case Rejected(e) =>
          browser.notices := browser.notices + [ErrorToast(FailureMessage(e))];
          loading := false;
      }
    }
  }

  /** The login form and the shared `asErrorMessage` disagree on an empty server message:
      `||` falls back to the fixed text, `??` returns the empty string. */
  lemma EmptyServerMessage(e: Api.HttpError)
    requires Api.ServerMessage(e) == Some("")
    ensures FailureMessage(e) == LoginFailed
    ensures Api.AsErrorMessage(e) == ""
  {
  }
}
