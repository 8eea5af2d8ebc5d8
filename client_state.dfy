/** What the portal keeps in the browser: the `token` cookie, the localStorage entries,
    the current page, and the effects the components leave behind (a navigation they
    request, the toasts and alerts they show). Every component of the model reads and
    changes one `Browser` object. */
module ClientState {
  import opened Js

  const TokenCookie := "token"
  const AppCacheKey := "app_cache"
  const MenusCacheKey := "menus_cache"
  const UserKey := "user"
  const LoginSuccessKey := "loginSuccess"

  const LoginPath := "/auth/login"
  const HomePath := "/"

  /** A cookie as js-cookie writes it. */
  datatype Cookie = Cookie(value: string, expiresDays: int, path: string, sameSite: string, secure: bool)

  /** An application tile of the dashboard, as `/api/portal/get-dashboard` lists it. */
  datatype App = App(id: int, nama: string, url: string, description: Option<string>)

  /** A sidebar entry and its children, as `/api/portal/menu` lists them. `details` is None
      when the server sent something that is not an array. `icon` is None for any value
      that is not a string. */
  datatype MenuDetail = MenuDetail(nama: string, url: string, icon: Option<string>)
  datatype Menu = Menu(nama: string, url: string, icon: Option<string>, details: Option<seq<MenuDetail>>)

  /** A localStorage value. The two cache documents stand for every text that parses as
      `{data, timestamp}` of their shape; `Text` is any other string. */
  datatype Stored =
    | Text(text: string)
    | AppCache(apps: seq<App>, timestamp: int)
    | MenusCache(menus: seq<Menu>, timestamp: int)

  /** `if (localStorage.getItem(key))`: the entry exists and is not the empty string. */
  predicate IsPresent(v: Option<Stored>)
  {
    v.Some? && v.value != Text("")
  }

  /** A toast (`toast.error`) or an alert (`Swal.fire`) shown to the user. */
  datatype Notice = ErrorToast(message: string) | SuccessAlert(title: string, text: string)

  class Browser {
    var cookies: map<string, Cookie>
    var storage: map<string, Stored>
    /** `window.location.pathname` of the page the code runs on. */
    var pathname: string
    /** The last navigation requested (`window.location.href = …` or `router.push(…)`). */
    var navigation: Option<string>
    /** Every notice shown, oldest first. */
    var notices: seq<Notice>

    constructor (cookies: map<string, Cookie>, storage: map<string, Stored>, pathname: string)
      ensures this.cookies == cookies && this.storage == storage && this.pathname == pathname
      ensures navigation == None && notices == []
    {
      this.cookies := cookies;
      this.storage := storage;
      this.pathname := pathname;
      navigation := None;
      notices := [];
    }

    /** `Cookies.get("token")`. */
    function Token(): Option<string>
      reads this
    {
      if TokenCookie in cookies then Some(cookies[TokenCookie].value) else None
    }

    /** `localStorage.getItem(key)`. */
    function GetItem(key: string): Option<Stored>
      reads this
    {
      if key in storage then Some(storage[key]) else None
    }
  }
}
