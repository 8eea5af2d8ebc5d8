/** `useRedirectToApp`: single sign-on into another application of the portal. The session
    token is encrypted by a server action and handed to the target application's receiver
    page in the query string; the target's base URL comes from the cached application
    directory the dashboard keeps. */
module RedirectToApp {
  import opened Js
  import opened ClientState
  import UriComponent

  const SessionExpired := "Sesi Anda habis."
  const ConfigMissing := "Konfigurasi aplikasi tidak ditemukan."
  const SecureFailed := "Gagal mengamankan koneksi."
  const ReceiverPath := "/authentication/receiver?data="

  /** The toast for a name that is not in the directory. */
  function NotRegistered(appName: string): string
  {
    "Aplikasi " + appName + " belum terdaftar."
  }

  /** `apps.find(app => app.nama === name)`, as the index of the match. */
  function FirstNamed(apps: seq<App>, name: string): (r: Option<nat>)
    ensures r.Some? ==> r.value < |apps| && apps[r.value].nama == name
    ensures r.Some? ==> forall j :: 0 <= j < r.value ==> apps[j].nama != name
    ensures r.None? ==> forall j :: 0 <= j < |apps| ==> apps[j].nama != name
  {
    if |apps| == 0 then None
    else if apps[0].nama == name then Some(0)
    else match FirstNamed(apps[1..], name)
      case None => None
      case Some(i) => Some(i + 1)
  }

  /** The receiver URL of an application for an encrypted token. The receiver recovers the
      ciphertext exactly by percent-decoding the query value. */
  function Destination(url: string, cipher: string): (r: string)
    ensures |r| >= |url| + |ReceiverPath| && r[..|url|] == url
    ensures r[|url|..|url| + |ReceiverPath|] == ReceiverPath
    ensures UriComponent.Decode(r[|url| + |ReceiverPath|..]) == Some(cipher)
  {
    var r := url + ReceiverPath + UriComponent.Encode(cipher);
    assert r[|url| + |ReceiverPath|..] == UriComponent.Encode(cipher);
    UriComponent.DecodeEncode(cipher);
    r
  }

  /** How one call of `triggerRedirect` ends. */
  datatype Plan =
    /** A toast and an early exit with the loading flag cleared. */
    | Abort(message: string)
    /** The application is not in the directory: a toast and an early exit. */
    | Unregistered(message: string)
    /** `window.location.href = destination`. */
    | Navigate(destination: string)

  /** The decision `triggerRedirect(appName)` takes, in the order the hook checks: the
      token, the cached directory's presence, the encryption (`None` when the server action
      throws), the directory's shape, and finally the lookup. */
  function PlanRedirect(token: Option<string>, cache: Option<Stored>, appName: string, encrypt: string -> Option<string>): (p: Plan)
    ensures p.Abort? ==> p.message == SessionExpired || p.message == ConfigMissing || p.message == SecureFailed
    ensures p.Unregistered? ==> p.message == NotRegistered(appName)
    ensures TruthyText(token) && IsPresent(cache) && !cache.value.AppCache? ==> p == Abort(SecureFailed)
    ensures !p.Abort? ==> TruthyText(token) && IsPresent(cache) && cache.value.AppCache? && encrypt(token.value).Some?
    ensures p.Navigate? ==>
      exists i :: 0 <= i < |cache.value.apps| && cache.value.apps[i].nama == appName
        && p.destination == Destination(cache.value.apps[i].url, encrypt(token.value).value)
  {
    if !TruthyText(token) then Abort(SessionExpired)
    else if !IsPresent(cache) then Abort(ConfigMissing)
    else match encrypt(token.value)
      case None => Abort(SecureFailed)
      case Some(cipher) =>
        match cache.value
        case AppCache(apps, _) =>
          (match FirstNamed(apps, appName)
           case None => Unregistered(NotRegistered(appName))
           case Some(i) => Navigate(Destination(apps[i].url, cipher)))
        case _ => Abort(SecureFailed)
  }

  /** `isLoading` after the hook as written: only the aborts clear it; an unregistered
      application returns from inside the `try`, which has no `finally`. */
  function LoadingAfterAsWritten(plan: Plan): (loading: bool)
    ensures loading <==> !plan.Abort?
  {
    match plan
    case Abort(_) => false
    case Unregistered(_) => true
    case Navigate(_) => true
  }

  /** `isLoading` after the hook as its comment intends: loading stays on only while the
      browser is leaving for the application. */
  function LoadingAfter(plan: Plan): (loading: bool)
    ensures loading <==> plan.Navigate?
  {
    match plan
    case Abort(_) => false
    case Unregistered(_) => false
    case Navigate(_) => true
  }

  class Redirector {
    var isLoading: bool

    constructor ()
      ensures !isLoading
    {
      isLoading := false;
    }

    /** `triggerRedirect(appName)`, with the loading flag cleared on every early exit.
        Exactly one of two things happens: the browser navigates to the application's
        receiver, or one error toast is shown and the spinner stops. */
    method TriggerRedirect(browser: Browser, appName: string, encrypt: string -> Option<string>)
      modifies this, browser
      ensures var plan := PlanRedirect(old(browser.Token()), old(browser.GetItem(AppCacheKey)), appName, encrypt);
        && isLoading == LoadingAfter(plan)
        && (plan.Navigate? ==> browser.navigation == Some(plan.destination) && browser.notices == old(browser.notices))
        && (!plan.Navigate? ==> browser.navigation == old(browser.navigation) && browser.notices == old(browser.notices) + [ErrorToast(plan.message)])
      ensures browser.cookies == old(browser.cookies) && browser.storage == old(browser.storage)
      ensures browser.pathname == old(browser.pathname)
    {
      isLoading := true;
      var userToken := browser.Token();
      if !TruthyText(userToken) {
        browser.notices := browser.notices + [ErrorToast(SessionExpired)];
        isLoading := false;
        return;
      }
      var appCache := browser.GetItem(AppCacheKey);
      if !IsPresent(appCache) {
        browser.notices := browser.notices + [ErrorToast(ConfigMissing)];
        isLoading := false;
        return;
      }
      var secure := encrypt(userToken.value);
      if secure.None? || !appCache.value.AppCache? {
        browser.notices := browser.notices + [ErrorToast(SecureFailed)];
        isLoading := false;
        return;
      }
      var apps := appCache.value.apps;
      var target := FirstNamed(apps, appName);
      if target.None? {
        browser.notices := browser.notices + [ErrorToast(NotRegistered(appName))];
        isLoading := false;
        return;
      }
      browser.navigation := Some(Destination(apps[target.value].url, secure.value));
    }
  }

  // ---------------------------------------------------------------------------
  // Properties

  /** Without a token nothing else is looked at: not the cache, not the encryption. */
  lemma TokenCheckedFirst(token: Option<string>, cache: Option<Stored>, appName: string, encrypt: string -> Option<string>)
    requires !TruthyText(token)
    ensures PlanRedirect(token, cache, appName, encrypt) == Abort(SessionExpired)
  {
  }

  /** With a session but no cached directory, the hook stops with the configuration
      toast before the encryption is called. */
  lemma MissingDirectoryAborts(token: Option<string>, cache: Option<Stored>, appName: string, encrypt: string -> Option<string>)
    requires TruthyText(token) && !IsPresent(cache)
    ensures PlanRedirect(token, cache, appName, encrypt) == Abort(ConfigMissing)
    ensures forall other: string -> Option<string> ::
      PlanRedirect(token, cache, appName, other) == PlanRedirect(token, cache, appName, encrypt)
  {
  }

  /** The encryption runs before the directory is parsed or searched: when it fails, the
      toast is the connection failure even for an unknown application. */
  lemma EncryptionBeforeLookup(token: Option<string>, cache: Option<Stored>, appName: string, encrypt: string -> Option<string>)
    requires TruthyText(token) && IsPresent(cache) && encrypt(token.value).None?
    ensures PlanRedirect(token, cache, appName, encrypt) == Abort(SecureFailed)
  {
  }

  /** A cached directory that is present but cannot be read as one (the `JSON.parse` or the
      `cache.data.find` that throws inside the `try`) ends in the same connection-failure
      toast, even though the encryption worked. */
  lemma UnreadableDirectoryAborts(token: Option<string>, cache: Option<Stored>, appName: string, encrypt: string -> Option<string>)
    requires TruthyText(token) && IsPresent(cache) && !cache.value.AppCache?
    requires encrypt(token.value).Some?
    ensures PlanRedirect(token, cache, appName, encrypt) == Abort(SecureFailed)
  {
  }

  /** With a session, a readable directory and a working encryption, the browser leaves
      exactly when the directory names the application; otherwise the application is
      reported as unregistered. */
  lemma NavigatesIffRegistered(token: Option<string>, apps: seq<App>, timestamp: int, appName: string, encrypt: string -> Option<string>)
    requires TruthyText(token) && encrypt(token.value).Some?
    ensures PlanRedirect(token, Some(AppCache(apps, timestamp)), appName, encrypt).Navigate?
        <==> exists i :: 0 <= i < |apps| && apps[i].nama == appName
    ensures !PlanRedirect(token, Some(AppCache(apps, timestamp)), appName, encrypt).Navigate?
        ==> PlanRedirect(token, Some(AppCache(apps, timestamp)), appName, encrypt) == Unregistered(NotRegistered(appName))
  {
    match FirstNamed(apps, appName)
    case None =>
    case Some(i) =>
      assert apps[i].nama == appName;
  }

  /** The browser goes to the receiver of the first application of that name, and the
      receiver gets back exactly the encrypted token. */
  lemma NavigatesToFirstMatch(token: Option<string>, apps: seq<App>, timestamp: int, appName: string, encrypt: string -> Option<string>, i: nat)
    requires TruthyText(token) && encrypt(token.value).Some?
    requires i < |apps| && apps[i].nama == appName
    requires forall j :: 0 <= j < i ==> apps[j].nama != appName
    ensures PlanRedirect(token, Some(AppCache(apps, timestamp)), appName, encrypt)
         == Navigate(Destination(apps[i].url, encrypt(token.value).value))
    ensures var d := Destination(apps[i].url, encrypt(token.value).value);
      d[..|apps[i].url|] == apps[i].url
      && UriComponent.Decode(d[|apps[i].url| + |ReceiverPath|..]) == encrypt(token.value)
  {
    var r := FirstNamed(apps, appName);
    assert r == Some(i);
  }

  /** Unlike the dashboard, the redirect never looks at the directory's age. */
  lemma DirectoryAgeIgnored(token: Option<string>, apps: seq<App>, t1: int, t2: int, appName: string, encrypt: string -> Option<string>)
    ensures PlanRedirect(token, Some(AppCache(apps, t1)), appName, encrypt)
         == PlanRedirect(token, Some(AppCache(apps, t2)), appName, encrypt)
  {
  }

  /** The hook as written leaves its spinner on after an unknown application, although no
      navigation follows: with a token, a directory listing only "A" and a working
      encryption, asking for "B" ends with a toast and `isLoading` still true. */
  lemma UnregisteredLeavesLoading()
    ensures var plan := PlanRedirect(Some("t"), Some(AppCache([App(1, "A", "/a", None)], 0)), "B", s => Some(s));
      && plan == Unregistered(NotRegistered("B"))
      && LoadingAfterAsWritten(plan)
      && !LoadingAfter(plan)
  {
    assert TruthyText(Some("t"));
    assert "A" != "B";
  }
}
