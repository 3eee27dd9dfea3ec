/**
 * The navigation menu of components/Sidebar.tsx: the fixed list of menu
 * items, the access rule that hides an item from a user who may not see it,
 * and the rendered links with the one that matches the current path marked
 * active. The rule reads the session store's admin flag and permission check.
 */
module Navigation {
  import opened Store
  import Auth

  /**
   * One menu entry. `public`, `admin`, `permission` and `action` are optional
   * in the TypeScript code: an absent flag is false, an absent string is None.
   */
  datatype MenuItem = MenuItem(
    href: string,
    title: string,
    public: bool,
    admin: bool,
    permission: Option<string>,
    action: Option<string>)

  /** One rendered link. */
  datatype Link = Link(href: string, title: string, active: bool)

  /** The menu, in display order. */
  const MenuItems: seq<MenuItem> := [
    MenuItem("/dashboard", "Mission Control", true, false, None, None),
    MenuItem("/dashboard/orders", "Orders", false, false, Some("orders"), Some("view")),
    MenuItem("/dashboard/inventory", "Inventory", false, false, Some("inventory"), Some("view")),
    MenuItem("/dashboard/tasks", "Tasks", true, false, None, None),
    MenuItem("/dashboard/payables", "Payables", false, false, Some("payables"), Some("view")),
    MenuItem("/dashboard/team", "Team", true, false, None, None),
    MenuItem("/dashboard/settings", "Settings", false, true, None, None)
  ]

  /** `item.action || 'view'`: an absent or empty action falls back to "view". */
  function ActionOf(item: MenuItem): (action: string)
    ensures action != ""
    ensures item.action.Some? && item.action.value != "" ==> action == item.action.value
    ensures !(item.action.Some? && item.action.value != "") ==> action == "view"
  {
    if item.action.Some? && item.action.value != "" then item.action.value else "view"
  }

  /**
   * `item.public || (isAdmin && item.admin) || (item.permission && hasPermission(...))`:
   * an empty permission string is falsy and grants nothing.
   */
  function HasAccess(item: MenuItem, s: Auth.AuthState): (b: bool)
    ensures item.public ==> b
    ensures item.admin && s.isAdmin ==> b
    // Otherwise (not public, and not an admin-only item seen by an admin) the item is shown exactly
    // when it names a permission and the user is an admin or holds that permission.
    ensures !item.public && !(item.admin && s.isAdmin) ==>
      (b <==> item.permission.Some? && item.permission.value != "" &&
              (s.isAdmin || exists p :: p in s.permissions && p.resource == item.permission.value && p.action == ActionOf(item)))
  {
    || item.public
    || (s.isAdmin && item.admin)
    || (item.permission.Some? && item.permission.value != "" && Auth.Allows(s, item.permission.value, ActionOf(item)))
  }

  /** The items the menu shows to `s`, in menu order. */
  function Visible(items: seq<MenuItem>, s: Auth.AuthState): (shown: seq<MenuItem>)
    ensures |shown| <= |items|
  {
    if items == [] then []
    else (if HasAccess(items[0], s) then [items[0]] else []) + Visible(items[1..], s)
  }

  /** The menu shows exactly the items `s` has access to. */
  lemma {:induction false} VisibleExactly(items: seq<MenuItem>, s: Auth.AuthState)
    ensures forall it :: it in Visible(items, s) <==> it in items && HasAccess(it, s)
  {
    if items != [] {
      VisibleExactly(items[1..], s);
      assert items == [items[0]] + items[1..];
    }
  }

  /** `pathname === item.href` */
  predicate IsActive(pathname: string, item: MenuItem) {
    pathname == item.href
  }

  /** The `menuItems.map(...)` that renders a link per item with access and nothing for the rest. */
  function Render(items: seq<MenuItem>, s: Auth.AuthState, pathname: string): (links: seq<Link>)
    ensures |links| == |Visible(items, s)|
    ensures forall i :: 0 <= i < |links| ==>
      var it := Visible(items, s)[i];
      links[i].href == it.href && links[i].title == it.title && (links[i].active <==> IsActive(pathname, it))
  {
    if items == [] then []
    else
      var head := if HasAccess(items[0], s) then [Link(items[0].href, items[0].title, IsActive(pathname, items[0]))] else [];
      var rest := Render(items[1..], s, pathname);
      assert Visible(items, s) == (if HasAccess(items[0], s) then [items[0]] else []) + Visible(items[1..], s);
      head + rest
  }

  /** No two items share an href (the href is the rendered link's key). */
  predicate DistinctHrefs(items: seq<MenuItem>) {
    forall i, j :: 0 <= i < j < |items| ==> items[i].href != items[j].href
  }

  /** The first item is shown or hidden on its own, ahead of the rest. */
  lemma VisibleCons(x: MenuItem, rest: seq<MenuItem>, s: Auth.AuthState)
    ensures Visible([x] + rest, s) == (if HasAccess(x, s) then [x] else []) + Visible(rest, s)
  {
    assert ([x] + rest)[1..] == rest;
  }

  /** Hiding items keeps the order of the rest: the menu shown for a concatenation is the concatenation. */
  lemma {:induction false} VisibleAppend(a: seq<MenuItem>, b: seq<MenuItem>, s: Auth.AuthState)
    ensures Visible(a + b, s) == Visible(a, s) + Visible(b, s)
  {
    if a == [] {
      assert a + b == b;
    } else {
      VisibleAppend(a[1..], b, s);
      assert a + b == [a[0]] + (a[1..] + b);
      VisibleCons(a[0], a[1..] + b, s);
      assert a == [a[0]] + a[1..];
      VisibleCons(a[0], a[1..], s);
      AppendAssociative(if HasAccess(a[0], s) then [a[0]] else [], Visible(a[1..], s), Visible(b, s));
    }
  }

  /** Hiding items never makes two shown items share an href. */
  lemma {:induction false} VisibleKeepsDistinct(items: seq<MenuItem>, s: Auth.AuthState)
    requires DistinctHrefs(items)
    ensures DistinctHrefs(Visible(items, s))
  {
    if items != [] {
      var rest := items[1..];
      assert DistinctHrefs(rest) by {
        forall i, j | 0 <= i < j < |rest| ensures rest[i].href != rest[j].href {
          assert rest[i] == items[i + 1] && rest[j] == items[j + 1];
        }
      }
      VisibleKeepsDistinct(rest, s);
      var shown := Visible(items, s);
      if HasAccess(items[0], s) {
        forall i, j | 0 <= i < j < |shown| ensures shown[i].href != shown[j].href {
          if i == 0 {
            VisibleExactly(rest, s);
            assert shown[j] in Visible(rest, s);
            var k :| 0 <= k < |rest| && rest[k] == shown[j];
            assert items[k + 1] == shown[j];
          } else {
            assert shown[i] == Visible(rest, s)[i - 1] && shown[j] == Visible(rest, s)[j - 1];
          }
        }
      } else {
        assert shown == Visible(rest, s);
      }
    }
  }

  /** The menu's hrefs are distinct. */
  lemma MenuHrefsDistinct()
    ensures DistinctHrefs(MenuItems)
  {
  }

  /** At most one rendered link is active, whatever the path and whoever is signed in. */
  lemma AtMostOneActive(s: Auth.AuthState, pathname: string)
    ensures forall i, j :: 0 <= i < j < |Render(MenuItems, s, pathname)| ==>
      !(Render(MenuItems, s, pathname)[i].active && Render(MenuItems, s, pathname)[j].active)
  {
    MenuHrefsDistinct();
    VisibleKeepsDistinct(MenuItems, s);
  }

  /** Mission Control, Tasks and Team are shown to everyone. */
  lemma PublicItemsAlwaysShown(s: Auth.AuthState)
    ensures forall it :: it in MenuItems && it.public ==> it in Visible(MenuItems, s)
    ensures MenuItems[0] in Visible(MenuItems, s) && MenuItems[3] in Visible(MenuItems, s) && MenuItems[5] in Visible(MenuItems, s)
  {
    VisibleExactly(MenuItems, s);
  }

  /** Settings is shown exactly to admins. */
  lemma SettingsShownIffAdmin(s: Auth.AuthState)
    ensures MenuItems[6] in Visible(MenuItems, s) <==> s.isAdmin
  {
    VisibleExactly(MenuItems, s);
  }

  /**
   * Orders, Inventory and Payables are shown exactly to admins and to users
   * holding the "view" permission on the item's resource.
   */
  lemma GatedItemShownIff(s: Auth.AuthState, k: nat)
    requires k == 1 || k == 2 || k == 4
    ensures MenuItems[k] in Visible(MenuItems, s) <==>
      s.isAdmin || exists p :: p in s.permissions && p.resource == MenuItems[k].permission.value && p.action == "view"
  {
    VisibleExactly(MenuItems, s);
  }

  /** A store with no permission and no admin flag, as after sign-out, shows exactly the public items. */
  lemma NoAuthorityShowsPublicOnly(s: Auth.AuthState)
    requires s.permissions == [] && !s.isAdmin
    ensures Visible(MenuItems, s) == [MenuItems[0], MenuItems[3], MenuItems[5]]
  {
    var m := MenuItems;
    assert m[7..] == [];
    assert Visible(m[6..], s) == [] by { assert m[6..][1..] == m[7..]; }
    assert Visible(m[5..], s) == [m[5]] by { assert m[5..][1..] == m[6..]; }
    assert Visible(m[4..], s) == [m[5]] by { assert m[4..][1..] == m[5..]; }
    assert Visible(m[3..], s) == [m[3], m[5]] by { assert m[3..][1..] == m[4..]; }
    assert Visible(m[2..], s) == [m[3], m[5]] by { assert m[2..][1..] == m[3..]; }
    assert Visible(m[1..], s) == [m[3], m[5]] by { assert m[1..][1..] == m[2..]; }
    assert Visible(m, s) == [m[0]] + Visible(m[1..], s);
  }
}
