/** The dashboard's application grid: the application directory is read from a one-hour
    localStorage cache or fetched from `/api/portal/get-dashboard`, shown as gradient tiles,
    and a tile click starts the single sign-on redirect. */
module DashboardMenu {
  import opened Js
  import opened ClientState
  import opened CachePolicy
  import Api
  import RedirectToApp

  const DashboardUrl := "/api/portal/get-dashboard"
  const SkeletonCount := 6
  const DefaultDescription := "Akses alat dan fitur untuk mengelola pekerjaan Anda dengan efisien."

  /** The two tiles shown whenever reading the cache or fetching fails. */
  const Fallback: seq<App> := [
    App(1, "Dashboard 1", "/dashboard-1", Some("Dasbor utama untuk analitik dan laporan")),
    App(2, "Dashboard 2", "/dashboard-2", Some("Alat monitoring tambahan"))
  ]

  const Gradients: seq<string> := [
    "linear-gradient(135deg, #667eea 0%, #764ba2 100%)",
    "linear-gradient(135deg, #f093fb 0%, #f5576c 100%)",
    "linear-gradient(135deg, #4facfe 0%, #00f2fe 100%)",
    "linear-gradient(135deg, #43e97b 0%, #38f9d7 100%)",
    "linear-gradient(135deg, #fa709a 0%, #fee140 100%)",
    "linear-gradient(135deg, #30cfd0 0%, #330867 100%)",
    "linear-gradient(135deg, #a8edea 0%, #fed6e3 100%)",
    "linear-gradient(135deg, #ff9a9e 0%, #fecfef 100%)"
  ]

  /** What the first half of `fetchMenus` makes of the `app_cache` entry. */
  function ReadAppCache(v: Option<Stored>, now: int): (r: Lookup<seq<App>>)
    ensures r.Fresh? <==> IsPresent(v) && v.value.AppCache? && IsFresh(v.value.timestamp, now)
    ensures r.Fresh? ==> r.data == v.value.apps
    ensures r.Unreadable? <==> IsPresent(v) && !v.value.AppCache?
  {
    if !IsPresent(v) then Stale
    else match v.value
      case AppCache(apps, timestamp) => if IsFresh(timestamp, now) then Fresh(apps) else Stale
      case _ => Unreadable
  }

  /** One application card: title, description and the colour of its bar and avatar. */
  datatype Tile = Tile(nama: string, description: string, gradient: string)

  /** The grid shows skeletons while loading and one card per application afterwards. */
  datatype Grid = Skeletons(count: nat) | Cards(tiles: seq<Tile>)

  /** The page below the hero card: the count badge next to "Pilih Aplikasi", and the grid. */
  datatype View = View(badge: nat, grid: Grid)

  /** `menu.description || "Akses alat …"`: an empty description falls back too. */
  function DescriptionOf(app: App): (d: string)
    ensures d != ""
    ensures TruthyText(app.description) ==> d == app.description.value
    ensures !TruthyText(app.description) ==> d == DefaultDescription
  {
    if TruthyText(app.description) then app.description.value else DefaultDescription
  }

  /** `gradients[index % gradients.length]`. */
  function GradientAt(index: nat): (g: string)
    ensures g in Gradients
  {
    Gradients[index % |Gradients|]
  }

  /** The rendered page for the component's state. The badge counts the applications even
      while the skeletons are shown. */
  function Render(loading: bool, menus: seq<App>): (v: View)
    ensures v.badge == |menus|
    ensures loading <==> v.grid == Skeletons(SkeletonCount)
    ensures !loading ==> v.grid.Cards? && |v.grid.tiles| == |menus|
    ensures !loading && v.grid.Cards? ==> forall i :: 0 <= i < |menus| ==>
      v.grid.tiles[i].nama == menus[i].nama && v.grid.tiles[i].gradient == GradientAt(i)
      && v.grid.tiles[i].description == DescriptionOf(menus[i])
  {
    View(|menus|,
      if loading then Skeletons(SkeletonCount)
      else Cards(seq(|menus|, i requires 0 <= i < |menus| => Tile(menus[i].nama, DescriptionOf(menus[i]), GradientAt(i)))))
  }

  class Dashboard {
    var menus: seq<App>
    var loading: bool

    constructor ()
      ensures menus == [] && loading
    {
      menus, loading := [], true;
    }

    /** `fetchMenus()`, run once on mount. `now` is `Date.now()` when the cache is read,
        `reply` what the server answers, `fetchedAt` the `Date.now()` stamped on the new
        cache entry. `sent` is the headers of the request, None when none was made. A fresh
        cache is used as it is; an unreadable one and a failed request both show the two
        fallback tiles; a successful reply is shown and cached. */
    method FetchMenus(browser: Browser, now: int, reply: Api.Reply<seq<App>>, fetchedAt: int)
      returns (sent: Option<map<string, string>>)
      modifies this, browser
      ensures !loading
      ensures var lookup := ReadAppCache(old(browser.GetItem(AppCacheKey)), now);
        && (lookup.Fresh? ==> menus == lookup.data)
        && (lookup.Unreadable? ==> menus == Fallback)
        && (lookup.Stale? <==> sent.Some?)
        && (lookup.Stale? ==>
              && sent.value == Api.WithBearer(Api.DefaultHeaders, old(browser.Token()))
              && menus == (if reply.Delivered? then reply.data else Fallback)
              && browser.storage == (if reply.Delivered? then old(browser.storage)[AppCacheKey := AppCache(reply.data, fetchedAt)] else old(browser.storage))
              && browser.cookies == Api.CookiesAfter(old(browser.cookies), old(browser.pathname), Api.Settle(DashboardUrl, reply), true)
              && browser.navigation == Api.NavigationAfter(old(browser.navigation), old(browser.pathname), Api.Settle(DashboardUrl, reply), true))
        && (!lookup.Stale? ==>
              && browser.storage == old(browser.storage) && browser.cookies == old(browser.cookies)
              && browser.navigation == old(browser.navigation))
      ensures browser.pathname == old(browser.pathname) && browser.notices == old(browser.notices)
    {
      var lookup := ReadAppCache(browser.GetItem(AppCacheKey), now);
      match lookup {
        case Fresh(data) =>
          menus := data;
          loading := false;
          sent := None;
        case Unreadable =>
          menus := Fallback;
          loading := false;
          sent := None;
        case Stale =>
          var headers, r := Api.Request(browser, DashboardUrl, reply);
          sent := Some(headers);
          match r {
            case Fulfilled(applications) =>
              menus := applications;
              browser.storage := browser.storage[AppCacheKey := AppCache(applications, fetchedAt)];
            case Rejected(_) =>
              menus := Fallback;
          }
          loading := false;
      }
    }

    /** The page for the current state. */
    function Page(): View
      reads this
    {
      Render(loading, menus)
    }

    /** A click on the card at `index`: `triggerRedirect(menu.nama)`. Cards exist only once
        loading is over. */
    method ClickTile(redirector: RedirectToApp.Redirector, browser: Browser, index: nat, encrypt: string -> Option<string>)
      requires !loading && index < |menus|
      modifies redirector, browser
      ensures var plan := RedirectToApp.PlanRedirect(old(browser.Token()), old(browser.GetItem(AppCacheKey)), menus[index].nama, encrypt);
        && redirector.isLoading == RedirectToApp.LoadingAfter(plan)
        && (plan.Navigate? ==> browser.navigation == Some(plan.destination) && browser.notices == old(browser.notices))
        && (!plan.Navigate? ==> browser.navigation == old(browser.navigation) && browser.notices == old(browser.notices) + [ErrorToast(plan.message)])
      ensures browser.cookies == old(browser.cookies) && browser.storage == old(browser.storage)
      ensures browser.pathname == old(browser.pathname)
    {
      redirector.TriggerRedirect(browser, menus[index].nama, encrypt);
    }
  }

  // ---------------------------------------------------------------------------
  // Properties

  /** What a successful fetch writes is read back as fresh for exactly one hour. */
  lemma CachedReplyReadsBack(apps: seq<App>, fetchedAt: int, now: int)
    ensures ReadAppCache(Some(AppCache(apps, fetchedAt)), now)
         == (if now < fetchedAt + ExpiryMs then Fresh(apps) else Stale)
  {
  }

  /** An unreadable `app_cache` entry stays unreadable whatever the clock says. The fetch
      it leads to leaves localStorage as it was (`FetchMenus`), so every later visit shows
      the fallback tiles again until something else, such as logout, removes the entry. */
  lemma UnreadableCacheIsSticky(v: Option<Stored>, now: int, later: int)
    requires ReadAppCache(v, now).Unreadable?
    ensures ReadAppCache(v, later).Unreadable?
  {
  }

  /** Neighbouring cards never share a colour, and the colours repeat every eight cards. */
  lemma NeighbourGradientsDiffer(i: nat)
    ensures GradientAt(i) != GradientAt(i + 1)
    ensures GradientAt(i) == GradientAt(i + |Gradients|)
  {
    GradientsDistinct(i, i + 1);
    assert (i + 8) % 8 == i % 8;
  }

  /** The eight colours are pairwise different, so cards less than eight apart differ. */
  lemma GradientsDistinct(i: nat, j: nat)
    requires i < j < i + |Gradients|
    ensures GradientAt(i) != GradientAt(j)
  {
    assert i % 8 != j % 8;
  }
}
