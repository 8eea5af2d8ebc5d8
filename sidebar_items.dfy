/** The sidebar: each menu with children becomes a collapsible section of links, icons are
    looked up by name in the Tabler icon set, and the whole sidebar is hidden while the
    menu list is empty. */
module SidebarItems {
  import opened Js
  import opened ClientState
  import MenuItems

  /** An icon component: `IconPoint`, or the Tabler export of that name. */
  datatype Icon = DefaultIcon | TablerIcon(key: string)

  predicate IsAsciiAlnum(c: char)
  {
    'a' <= c <= 'z' || 'A' <= c <= 'Z' || '0' <= c <= '9'
  }

  /** `name.replace(/[^a-zA-Z0-9]/g, "")`. */
  function Sanitize(name: string): (r: string)
    ensures |r| <= |name|
    ensures forall i :: 0 <= i < |r| ==> IsAsciiAlnum(r[i])
    ensures forall c :: c in r <==> c in name && IsAsciiAlnum(c)
    ensures forall c :: multiset(r)[c] == if IsAsciiAlnum(c) then multiset(name)[c] else 0
  {
    if |name| == 0 then ""
    else
      assert name == [name[0]] + name[1..];
      if IsAsciiAlnum(name[0]) then [name[0]] + Sanitize(name[1..])
      else Sanitize(name[1..])
  }

  /** `toUpperCase` on one character of a sanitized name (ASCII only). */
  function UpperAscii(c: char): (u: char)
    ensures 'a' <= c <= 'z' ==> 'A' <= u <= 'Z' && u as int - 'A' as int == c as int - 'a' as int
    ensures !('a' <= c <= 'z') ==> u == c
  {
    if 'a' <= c <= 'z' then (c as int - 32) as char else c
  }

  /** `"Icon" + safe.charAt(0).toUpperCase() + safe.slice(1)`. */
  function IconKey(safe: string): (k: string)
    ensures |k| == 4 + |safe| && k[..4] == "Icon"
    ensures |safe| > 0 ==> k[4] == UpperAscii(safe[0]) && k[5..] == safe[1..]
  {
    if |safe| == 0 then "Icon" else "Icon" + [UpperAscii(safe[0])] + safe[1..]
  }

  /** `getIcon(name)`. `name` is None for any value that is not a string; `available` is
      the set of names the icon library exports. */
  function GetIcon(name: Option<string>, available: set<string>): (icon: Icon)
    ensures !TruthyText(name) ==> icon == DefaultIcon
    ensures icon.TablerIcon? ==> icon.key in available && icon.key == IconKey(Sanitize(name.value))
    ensures TruthyText(name) && IconKey(Sanitize(name.value)) in available ==> icon.TablerIcon?
  {
    if !TruthyText(name) then DefaultIcon
    else
      var formatted := IconKey(Sanitize(name.value));
      if formatted in available then TablerIcon(formatted) else DefaultIcon
  }

  /** A link of a section: title, target, icon, and whether it is highlighted. */
  datatype Link = Link(title: string, link: string, icon: Icon, selected: bool)

  /** A collapsible section for a menu with children. */
  datatype Section = Section(title: string, icon: Icon, items: seq<Link>)

  function RenderLinks(details: seq<MenuDetail>, pathname: string, available: set<string>): (r: seq<Link>)
    ensures |r| == |details|
    ensures forall j :: 0 <= j < |details| ==>
      r[j].title == details[j].nama && r[j].link == details[j].url
      && r[j].icon == GetIcon(details[j].icon, available)
      && (r[j].selected <==> pathname == details[j].url)
  {
    seq(|details|, j requires 0 <= j < |details| =>
      Link(details[j].nama, details[j].url, GetIcon(details[j].icon, available), pathname == details[j].url))
  }

  /** `renderMenuItems(menus, pathname)`: one slot per menu, empty (`null`) for a menu
      without children. */
  function RenderMenuItems(menus: seq<Menu>, pathname: string, available: set<string>): (r: seq<Option<Section>>)
    ensures |r| == |menus|
    ensures forall i :: 0 <= i < |menus| ==> (r[i].None? <==> !MenuItems.HasDetails(menus[i]))
    ensures forall i :: 0 <= i < |menus| && MenuItems.HasDetails(menus[i]) ==>
      r[i].Some? && r[i].value.title == menus[i].nama
      && r[i].value.icon == GetIcon(menus[i].icon, available)
      && r[i].value.items == RenderLinks(menus[i].details.value, pathname, available)
  {
    seq(|menus|, i requires 0 <= i < |menus| =>
      if MenuItems.HasDetails(menus[i])
      then Some(Section(menus[i].nama, GetIcon(menus[i].icon, available), RenderLinks(menus[i].details.value, pathname, available)))
      else None)
  }

  /** `SidebarItems()`: nothing at all when the list is empty, else the sections. */
  function SidebarView(menuItems: seq<Menu>, pathname: string, available: set<string>): (r: Option<seq<Option<Section>>>)
    ensures r.None? <==> |menuItems| == 0
    ensures r.Some? ==> r.value == RenderMenuItems(menuItems, pathname, available)
  {
    if |menuItems| == 0 then None else Some(RenderMenuItems(menuItems, pathname, available))
  }

  // ---------------------------------------------------------------------------
  // Properties

  /** Sanitizing twice is sanitizing once. */
  lemma {:induction false} SanitizeIdempotent(name: string)
    ensures Sanitize(Sanitize(name)) == Sanitize(name)
  {
    if |name| > 0 {
      SanitizeIdempotent(name[1..]);
      if IsAsciiAlnum(name[0]) {
        var rest := Sanitize(name[1..]);
        assert ([name[0]] + rest)[1..] == rest;
      }
    }
  }

  /** Punctuation, spaces and non-ASCII letters never change which icon is chosen. */
  lemma {:induction false} SanitizeDropsOthers(a: string, b: string)
    requires forall i :: 0 <= i < |b| ==> !IsAsciiAlnum(b[i])
    ensures Sanitize(a + b) == Sanitize(a)
    ensures Sanitize(b + a) == Sanitize(a)
  {
    if |a| == 0 {
      assert a + b == b && b + a == b;
      SanitizeNone(b);
    } else {
      assert (a + b)[1..] == a[1..] + b;
      SanitizeDropsOthers(a[1..], b);
      SanitizeDropsPrefix(b, a);
    }
  }

  /** Sanitizing keeps the order of the kept characters: it distributes over
      concatenation. */
  lemma {:induction false} SanitizeAppend(a: string, b: string)
    ensures Sanitize(a + b) == Sanitize(a) + Sanitize(b)
  {
    if |a| == 0 {
      assert a + b == b;
    } else {
      assert (a + b)[0] == a[0] && (a + b)[1..] == a[1..] + b;
      SanitizeAppend(a[1..], b);
    }
  }

  /** One character is kept exactly when it is an ASCII letter or digit. */
  lemma SanitizeSingle(c: char)
    ensures Sanitize([c]) == if IsAsciiAlnum(c) then [c] else []
  {
    assert [c][1..] == [];
  }

  lemma {:induction false} SanitizeNone(b: string)
    requires forall i :: 0 <= i < |b| ==> !IsAsciiAlnum(b[i])
    ensures Sanitize(b) == ""
  {
    if |b| > 0 {
      SanitizeNone(b[1..]);
    }
  }

  lemma {:induction false} SanitizeDropsPrefix(b: string, a: string)
    requires forall i :: 0 <= i < |b| ==> !IsAsciiAlnum(b[i])
    ensures Sanitize(b + a) == Sanitize(a)
  {
    if |b| > 0 {
      assert (b + a)[1..] == b[1..] + a;
      SanitizeDropsPrefix(b[1..], a);
    } else {
      assert b + a == a;
    }
  }

  /** Icon names are matched without regard to the case of their first letter:
      "home" and "Home" choose the same icon. */
  lemma FirstLetterCaseIgnored(c: char, rest: string, available: set<string>)
    requires 'a' <= c <= 'z'
    ensures GetIcon(Some([c] + rest), available) == GetIcon(Some([UpperAscii(c)] + rest), available)
  {
    var u := UpperAscii(c);
    SanitizeCons(c, rest);
    SanitizeCons(u, rest);
    IconKeyIgnoresFirstCase(c, Sanitize(rest));
    GetIconByKey([c] + rest, available);
    GetIconByKey([u] + rest, available);
  }

  /** A non-empty name is looked up under its formatted key. */
  lemma GetIconByKey(name: string, available: set<string>)
    requires name != ""
    ensures var key := IconKey(Sanitize(name));
      GetIcon(Some(name), available) == if key in available then TablerIcon(key) else DefaultIcon
  {
  }

  lemma IconKeyIgnoresFirstCase(c: char, s: string)
    ensures IconKey([c] + s) == IconKey([UpperAscii(c)] + s)
  {
    var u := UpperAscii(c);
    assert ([c] + s)[0] == c && ([c] + s)[1..] == s;
    assert ([u] + s)[0] == u && ([u] + s)[1..] == s;
    assert UpperAscii(u) == u;
  }

  lemma SanitizeCons(c: char, rest: string)
    requires IsAsciiAlnum(c)
    ensures Sanitize([c] + rest) == [c] + Sanitize(rest)
  {
    assert ([c] + rest)[0] == c && ([c] + rest)[1..] == rest;
  }

  /** A non-empty name without a single ASCII letter or digit still looks an icon up: the
      bare name "Icon". */
  lemma PunctuationLooksUpBareIcon(name: string, available: set<string>)
    requires name != "" && forall i :: 0 <= i < |name| ==> !IsAsciiAlnum(name[i])
    ensures GetIcon(Some(name), available) == if "Icon" in available then TablerIcon("Icon") else DefaultIcon
  {
    SanitizeNone(name);
  }

  /** A list that went through the filter renders without a single empty slot, and the
      sidebar is shown exactly when that list is not empty. */
  /** The sidebar's state invariant is what rendering needs: a sidebar menu in a valid state
      renders every menu it holds as a section, with no empty slot. */
  lemma ValidStateRendersFully(menu: MenuItems.SidebarMenu, pathname: string, available: set<string>)
    requires menu.Valid()
    ensures var r := RenderMenuItems(menu.menuItems, pathname, available);
      forall i :: 0 <= i < |r| ==> r[i].Some? && r[i].value.title == menu.menuItems[i].nama
  {
    var r := RenderMenuItems(menu.menuItems, pathname, available);
    forall i | 0 <= i < |r|
      ensures r[i].Some?
    {
      assert menu.menuItems[i] in menu.menuItems;
    }
  }

  lemma FilteredMenusRenderFully(menus: seq<Menu>, pathname: string, available: set<string>)
    ensures var shown := MenuItems.FilterValidMenus(menus);
      && (forall i :: 0 <= i < |shown| ==> RenderMenuItems(shown, pathname, available)[i].Some?)
      && (SidebarView(shown, pathname, available).None? <==> forall m :: m in menus ==> !MenuItems.HasDetails(m))
  {
    var shown := MenuItems.FilterValidMenus(menus);
    forall i | 0 <= i < |shown|
      ensures MenuItems.HasDetails(shown[i])
    {
      assert shown[i] in shown;
    }
    if |shown| > 0 {
      assert shown[0] in shown;
    }
  }
}
