/** `useMenuItems`: the sidebar's menu tree, read from a one-hour localStorage cache or
    fetched from `/api/portal/menu`. The cache keeps the server's list as it came; the
    state keeps only the menus that have at least one child. */
module MenuItems {
  import opened Js
  import opened ClientState
  import opened CachePolicy
  import Api

  const MenuUrl := "/api/portal/menu"

  /** `Array.isArray(menu.details) && menu.details.length > 0`. */
  predicate HasDetails(m: Menu)
  {
    m.details.Some? && |m.details.value| > 0
  }

  /** `filterValidMenus(menus)`: the menus with children, in their original order. */
  function FilterValidMenus(menus: seq<Menu>): (r: seq<Menu>)
    ensures |r| <= |menus|
    ensures forall m :: m in r <==> m in menus && HasDetails(m)
  {
    if |menus| == 0 then []
    else if HasDetails(menus[0]) then [menus[0]] + FilterValidMenus(menus[1..])
    else FilterValidMenus(menus[1..])
  }

  /** What the first half of `fetchMenus` makes of the `menus_cache` entry. */
  function ReadMenusCache(v: Option<Stored>, now: int): (r: Lookup<seq<Menu>>)
    ensures r.Fresh? <==> IsPresent(v) && v.value.MenusCache? && IsFresh(v.value.timestamp, now)
    ensures r.Fresh? ==> r.data == v.value.menus
    ensures r.Unreadable? <==> IsPresent(v) && !v.value.MenusCache?
  {
    if !IsPresent(v) then Stale
    else match v.value
      case MenusCache(menus, timestamp) => if IsFresh(timestamp, now) then Fresh(menus) else Stale
      case _ => Unreadable
  }

  class SidebarMenu {
    /** `menuItems`. */
    var menuItems: seq<Menu>

    /** Every menu the state holds has children. */
    predicate Valid()
      reads this
    {
      forall m :: m in menuItems ==> HasDetails(m)
    }

    constructor ()
      ensures menuItems == [] && Valid()
    {
      menuItems := [];
    }

    /** `fetchMenus()`, run once on mount. A fresh cache is filtered into the state; a
        stale or missing one is replaced by the server's reply, cached unfiltered; any
        failure (an unreadable cache, a failed request) leaves the state as it was. */
    method FetchMenus(browser: Browser, now: int, reply: Api.Reply<seq<Menu>>, fetchedAt: int)
      returns (sent: Option<map<string, string>>)
      requires Valid()
      modifies this, browser
      ensures Valid()
      ensures var lookup := ReadMenusCache(old(browser.GetItem(MenusCacheKey)), now);
        && (lookup.Fresh? ==> menuItems == FilterValidMenus(lookup.data))
        && (lookup.Unreadable? ==> menuItems == old(menuItems))
        && (lookup.Stale? <==> sent.Some?)
        && (lookup.Stale? ==>
              && sent.value == Api.WithBearer(Api.DefaultHeaders, old(browser.Token()))
              && menuItems == (if reply.Delivered? then FilterValidMenus(reply.data) else old(menuItems))
              && browser.storage == (if reply.Delivered? then old(browser.storage)[MenusCacheKey := MenusCache(reply.data, fetchedAt)] else old(browser.storage))
              && browser.cookies == Api.CookiesAfter(old(browser.cookies), old(browser.pathname), Api.Settle(MenuUrl, reply), true)
              && browser.navigation == Api.NavigationAfter(old(browser.navigation), old(browser.pathname), Api.Settle(MenuUrl, reply), true))
        && (!lookup.Stale? ==>
              && browser.storage == old(browser.storage) && browser.cookies == old(browser.cookies)
              && browser.navigation == old(browser.navigation))
      ensures browser.pathname == old(browser.pathname) && browser.notices == old(browser.notices)
    {
      var lookup := ReadMenusCache(browser.GetItem(MenusCacheKey), now);
      match lookup {
        case Fresh(data) =>
          menuItems := FilterValidMenus(data);
          sent := None;
        case Unreadable =>
          sent := None;
        case Stale =>
          var headers, r := Api.Request(browser, MenuUrl, reply);
          sent := Some(headers);
          match r {
            case Fulfilled(data) =>
              browser.storage := browser.storage[MenusCacheKey := MenusCache(data, fetchedAt)];
              menuItems := FilterValidMenus(data);
            case Rejected(_) =>
          }
      }
    }
  }

  // ---------------------------------------------------------------------------
  // Properties

  /** Filtering a list and its continuation separately is filtering the whole: the filter
      keeps the server's order. */
  lemma {:induction false} FilterAppend(a: seq<Menu>, b: seq<Menu>)
    ensures FilterValidMenus(a + b) == FilterValidMenus(a) + FilterValidMenus(b)
  {
    if |a| == 0 {
      assert a + b == b;
    } else {
      assert (a + b)[1..] == a[1..] + b;
      FilterAppend(a[1..], b);
    }
  }

  /** Filtering twice is filtering once, so a cached list read back gives the same menus
      the fetch showed. */
  lemma {:induction false} FilterIdempotent(menus: seq<Menu>)
    ensures FilterValidMenus(FilterValidMenus(menus)) == FilterValidMenus(menus)
  {
    if |menus| > 0 {
      FilterIdempotent(menus[1..]);
      if HasDetails(menus[0]) {
        var rest := FilterValidMenus(menus[1..]);
        assert ([menus[0]] + rest)[1..] == rest;
      }
    }
  }

  /** A list whose menus all have children passes the filter unchanged. */
  lemma {:induction false} FilterKeepsValid(menus: seq<Menu>)
    requires forall i :: 0 <= i < |menus| ==> HasDetails(menus[i])
    ensures FilterValidMenus(menus) == menus
  {
    if |menus| > 0 {
      FilterKeepsValid(menus[1..]);
      assert [menus[0]] + menus[1..] == menus;
    }
  }

  /** What a successful fetch writes is read back, for exactly one hour, as the same list. */
  lemma CachedReplyReadsBack(menus: seq<Menu>, fetchedAt: int, now: int)
    ensures ReadMenusCache(Some(MenusCache(menus, fetchedAt)), now)
         == (if now < fetchedAt + ExpiryMs then Fresh(menus) else Stale)
  {
  }
}
