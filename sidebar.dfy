/**
 * The admin sidebar's choice of the one navigation item to highlight: the
 * longest item href that is the pathname itself or a directory prefix of it,
 * with the dashboard `/admin` highlighted only on `/admin` itself.
 */
module Sidebar {
  import opened Text

  datatype NavItem = NavItem(href: string, caption: string)

  /** The navigation items, in display order. */
  const Items: seq<NavItem> := [
    NavItem("/admin", "Dashboard"),
    NavItem("/admin/categories", "Add Ledger Categories"),
    NavItem("/admin/parties", "Add Parties"),
    NavItem("/admin/create-ledger", "Create Ledger"),
    NavItem("/admin/reports", "Reports"),
    NavItem("/admin/members", "Add Member"),
    NavItem("/admin/banks", "Add Banks"),
    NavItem("/admin/products", "Add Products"),
    NavItem("/admin/product-categories", "Add Product Categories")
  ]

  /** `pathname === href || pathname.startsWith(href + '/')` */
  predicate Matches(href: string, pathname: string) {
    pathname == href || StartsWith(pathname, href + "/")
  }

  /** The loop's `best` after the given items: a later item replaces it only when strictly longer. */
  function Longest(items: seq<NavItem>, pathname: string): string {
    if items == [] then ""
    else
      var best := Longest(items[..|items| - 1], pathname);
      var it := items[|items| - 1].href;
      if Matches(it, pathname) && |it| > |best| then it else best
  }

  /**
   * What `activeHref` returns: '' or an item href; when it is not '', it is
   * the pathname itself or a prefix of it followed by `/`, and no matching
   * item is longer.
   */
  function Active(items: seq<NavItem>, pathname: string): (a: string)
    ensures a == "" || (Matches(a, pathname) && exists j :: 0 <= j < |items| && items[j].href == a)
    ensures a != "" ==> forall j :: 0 <= j < |items| && Matches(items[j].href, pathname) ==> |items[j].href| <= |a|
    ensures (exists j :: 0 <= j < |items| && Matches(items[j].href, pathname) && items[j].href !in {"", "/admin"})
            ==> a != ""
  {
    LongestMatches(items, pathname);
    LongestIsLongestAll(items, pathname);
    LongestFindsSection(items, pathname);
    var best := Longest(items, pathname);
    if best == "/admin" && pathname != "/admin" then "" else best
  }

  /** `activeHref`: the loop over the items, then the `/admin` special case. */
  method ActiveHref(items: seq<NavItem>, pathname: string) returns (r: string)
    ensures r == Active(items, pathname)
  {
    var best := "";
    var i := 0;
    while i < |items|
      invariant 0 <= i <= |items|
      invariant best == Longest(items[..i], pathname)
    {
      assert items[..i + 1][..i] == items[..i];
      var it := items[i];
      var isExact := pathname == it.href;
      var isPrefix := StartsWith(pathname, it.href + "/");
      if isExact || isPrefix {
        if |it.href| > |best| {
          best := it.href;
        }
      }
      i := i + 1;
    }
    assert items[..|items|] == items;
    if best == "/admin" && pathname != "/admin" {
      return "";
    }
    return best;
  }

  /** `best` is '' or an item href that matches the pathname. */
  lemma {:induction false} LongestMatches(items: seq<NavItem>, pathname: string)
    ensures Longest(items, pathname) == ""
      || (Matches(Longest(items, pathname), pathname)
          && exists j :: 0 <= j < |items| && items[j].href == Longest(items, pathname))
  {
    if items != [] {
      var init := items[..|items| - 1];
      LongestMatches(init, pathname);
      if Longest(items, pathname) == Longest(init, pathname) && Longest(init, pathname) != "" {
        var j :| 0 <= j < |init| && init[j].href == Longest(init, pathname);
        assert items[j] == init[j];
      }
    }
  }

  /** No matching item is longer than `best`. */
  lemma {:induction false} LongestIsLongest(items: seq<NavItem>, pathname: string, j: int)
    requires 0 <= j < |items| && Matches(items[j].href, pathname)
    ensures |items[j].href| <= |Longest(items, pathname)|
  {
    var init := items[..|items| - 1];
    if j < |items| - 1 {
      LongestIsLongest(init, pathname, j);
      assert init[j] == items[j];
    }
  }

  /**
   * When some item other than the dashboard matches, the loop's pick is not
   * '' and is not the dashboard standing in for a sub-path: a matching href
   * no longer than `/admin` under `/admin/` can only be `/admin` itself.
   */
  lemma LongestFindsSection(items: seq<NavItem>, pathname: string)
    ensures (exists j :: 0 <= j < |items| && Matches(items[j].href, pathname) && items[j].href !in {"", "/admin"})
            ==> Longest(items, pathname) != "" && !(Longest(items, pathname) == "/admin" && pathname != "/admin")
  {
    if j :| 0 <= j < |items| && Matches(items[j].href, pathname) && items[j].href !in {"", "/admin"} {
      var h, best := items[j].href, Longest(items, pathname);
      LongestIsLongest(items, pathname, j);
      if best == "/admin" && pathname != "/admin" {
        LongestMatches(items, pathname);
        assert StartsWith(pathname, "/admin/");
        ShortMatchUnderAdmin(h, pathname);
      }
    }
  }

  /** Under `/admin/`, the only non-empty matching hrefs of at most six characters are `/admin`. */
  lemma ShortMatchUnderAdmin(h: string, pathname: string)
    requires StartsWith(pathname, "/admin/") && Matches(h, pathname) && |h| <= 6
    ensures h == "" || h == "/admin"
  {
    assert pathname[..7] == "/admin/";
    if pathname != h && h != "" {
      var k := |h|;
      assert pathname[..k + 1] == h + "/";
      assert pathname[k] == '/' && pathname[..k] == h;
      assert pathname[k] == "/admin/"[k];
      assert k == 6;
      assert h == pathname[..7][..6];
    }
  }

  lemma LongestIsLongestAll(items: seq<NavItem>, pathname: string)
    ensures forall j :: 0 <= j < |items| && Matches(items[j].href, pathname) ==> |items[j].href| <= |Longest(items, pathname)|
  {
    forall j | 0 <= j < |items| && Matches(items[j].href, pathname)
      ensures |items[j].href| <= |Longest(items, pathname)|
    {
      LongestIsLongest(items, pathname, j);
    }
  }


  /** The dashboard is highlighted only on `/admin` itself. */
  lemma DashboardOnlyWhenExact(items: seq<NavItem>, pathname: string)
    requires Active(items, pathname) == "/admin"
    ensures pathname == "/admin"
  {
  }

  /** Every href of the navigation is distinct. */
  lemma ItemsAreDistinct()
    ensures forall i, j :: 0 <= i < j < |Items| ==> Items[i].href != Items[j].href
  {
  }

  /** At most one navigation item is marked active. */
  lemma AtMostOneActive(pathname: string)
    ensures forall i, j :: 0 <= i < j < |Items| ==>
      !(Items[i].href == Active(Items, pathname) && Items[j].href == Active(Items, pathname))
  {
    ItemsAreDistinct();
  }

  /** When only the first item matches, the loop keeps the first item. */
  lemma {:induction false} OnlyFirstMatches(items: seq<NavItem>, pathname: string)
    requires |items| >= 1 && Matches(items[0].href, pathname) && |items[0].href| > 0
    requires forall k :: 1 <= k < |items| ==> !Matches(items[k].href, pathname)
    ensures Longest(items, pathname) == items[0].href
  {
    var init := items[..|items| - 1];
    if |items| > 1 {
      OnlyFirstMatches(init, pathname);
    } else {
      assert init == [];
    }
  }

  /**
   * `/admin/categoriesX` lies under no section: `/admin/categories` matches
   * only itself or a path continuing with `/`, and the dashboard is not
   * highlighted for a sub-path.
   */
  lemma NoSectionForLookalikePath(pathname: string)
    requires pathname == "/admin/categoriesX"
    ensures Active(Items, pathname) == ""
  {
    assert pathname[..7] == "/admin/";
    assert pathname[17] == 'X';
    forall k | 1 <= k < |Items| ensures !Matches(Items[k].href, pathname) {
      var h := Items[k].href;
      assert pathname != h;
      if |h| + 1 <= |pathname| {
        assert pathname[..|h| + 1] != h + "/" by {
          if k == 1 {
            assert pathname[..|h| + 1][17] == 'X';
          } else {
            assert pathname[..|h| + 1][7] == 'c' && (h + "/")[7] != 'c';
          }
        }
      }
    }
    assert Matches(Items[0].href, pathname) by {
      assert pathname[..7] == Items[0].href + "/";
    }
    OnlyFirstMatches(Items, pathname);
  }
}
