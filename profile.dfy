/** The header's profile menu: the avatar button opens it, closing clears it, and its
    Logout entry ends the session on the client. */
module Profile {
  import opened Js
  import opened ClientState

  /** The localStorage entries logout removes. */
  const ClearedOnLogout: set<string> := {AppCacheKey, MenusCacheKey, UserKey}

  /** The element a click opened the menu from (`event.currentTarget`). */
  datatype Element = Element(id: nat)

  class ProfileMenu {
    /** `anchorEl2`. */
    var anchor: Option<Element>

    constructor ()
      ensures anchor == None && !IsOpen()
    {
      anchor := None;
    }

    /** `open={Boolean(anchorEl2)}`. */
    predicate IsOpen()
      reads this
    {
      anchor.Some?
    }

    /** `handleClick2`. */
    method HandleClick(target: Element)
      modifies this
      ensures anchor == Some(target) && IsOpen()
    {
      anchor := Some(target);
    }

    /** `handleClose2`. */
    method HandleClose()
      modifies this
      ensures anchor == None && !IsOpen()
    {
      anchor := None;
    }

    /** `handleLogout`: removes the `token` cookie and exactly the three cached entries,
        closes the menu and navigates to the login page. */
    method HandleLogout(browser: Browser)
      modifies this, browser
      ensures browser.cookies == old(browser.cookies) - {TokenCookie}
      ensures browser.storage == old(browser.storage) - ClearedOnLogout
      ensures forall k :: k in old(browser.storage) && k !in ClearedOnLogout ==>
        k in browser.storage && browser.storage[k] == old(browser.storage)[k]
      ensures forall k :: k in ClearedOnLogout ==> k !in browser.storage
      ensures anchor == None && !IsOpen()
      ensures browser.navigation == Some(LoginPath)
      ensures browser.pathname == old(browser.pathname) && browser.notices == old(browser.notices)
    {
      browser.cookies := browser.cookies - {TokenCookie};
      browser.storage := browser.storage - {AppCacheKey};
      browser.storage := browser.storage - {MenusCacheKey};
      browser.storage := browser.storage - {UserKey};
      anchor := None;
      browser.navigation := Some(LoginPath);
    }
  }
}
