/** The admin sidebar's navigation table and its "active item" rule
    (src/components/admin/AdminSidebar.tsx). */
module AdminSidebar {
  datatype NavItem = NavItem(href: string, name: string)

  const Dashboard := NavItem("/admin", "Dashboard")

  /** The sidebar entries, top to bottom. */
  const NavItems: seq<NavItem> := [
    Dashboard,
    NavItem("/admin/trails", "Trails"),
    NavItem("/admin/places", "Places"),
    NavItem("/admin/events", "Events"),
    NavItem("/admin/guides", "Guides"),
    NavItem("/admin/posts", "Posts"),
    NavItem("/admin/users", "Users"),
    NavItem("/admin/reports", "Reports")
  ]

  /** The dashboard entry is highlighted only on "/admin" itself; every other
      entry whenever the pathname starts with its link. */
  predicate IsActive(item: NavItem, pathname: string)
  {
    if item.href == "/admin" then pathname == "/admin" else item.href <= pathname
  }

  /** The dashboard is active exactly on "/admin", never on a sub-page. */
  lemma DashboardExactMatch(pathname: string)
    ensures IsActive(NavItems[0], pathname) <==> pathname == "/admin"
  {
  }

  /** Every other entry is active exactly when the pathname extends its link,
      with or without a "/" after it (so "/admin/postsX" highlights Posts). */
  lemma SectionPrefixMatch(i: nat, pathname: string)
    requires 1 <= i < |NavItems|
    ensures IsActive(NavItems[i], pathname) <==> NavItems[i].href <= pathname
  {
  }

  /** Two prefixes of one string are prefixes of each other; a step of AtMostOneActive. */
  lemma PrefixesComparable(a: string, b: string, s: string)
    requires a <= s && b <= s && |a| <= |b|
    ensures a <= b
  {
    assert forall k :: 0 <= k < |a| ==> a[k] == s[k] == b[k];
  }

  /** No two section links are prefixes of one another. */
  lemma SectionLinksIncomparable(i: nat, j: nat)
    requires 1 <= i < |NavItems| && 1 <= j < |NavItems| && i != j
    ensures !(NavItems[i].href <= NavItems[j].href)
  {
    var a, b := NavItems[i].href, NavItems[j].href;
    assert "/admin/" <= a && "/admin/" <= b;
    if |a| <= |b| {
      assert a[7] != b[7] || a[8] != b[8];
    }
  }

  /** At most one entry is highlighted, whatever the pathname. */
  lemma AtMostOneActive(pathname: string, i: nat, j: nat)
    requires i < |NavItems| && j < |NavItems|
    requires IsActive(NavItems[i], pathname) && IsActive(NavItems[j], pathname)
    ensures i == j
  {
    if i != j && i != 0 && j != 0 {
      var a, b := NavItems[i].href, NavItems[j].href;
      if |a| <= |b| {
        PrefixesComparable(a, b, pathname);
        SectionLinksIncomparable(i, j);
      } else {
        PrefixesComparable(b, a, pathname);
        SectionLinksIncomparable(j, i);
      }
    }
  }

  /** Any page below a section's link, such as "/admin/places/<id>/edit",
      highlights that section and nothing else. */
  lemma SubPageActivatesItsSection(i: nat, rest: string, j: nat)
    requires 1 <= i < |NavItems| && j < |NavItems|
    ensures IsActive(NavItems[j], NavItems[i].href + rest) <==> j == i
  {
    var pathname := NavItems[i].href + rest;
    assert NavItems[i].href <= pathname;
    if IsActive(NavItems[j], pathname) {
      AtMostOneActive(pathname, i, j);
    }
  }

  /** The place editor's path highlights Places only. */
  lemma PlaceEditorHighlightsPlaces(id: string, j: nat)
    requires j < |NavItems|
    ensures IsActive(NavItems[j], "/admin/places/" + id + "/edit") <==> NavItems[j].name == "Places"
  {
    assert "/admin/places/" + id + "/edit" == NavItems[2].href + ("/" + id + "/edit");
    SubPageActivatesItsSection(2, "/" + id + "/edit", j);
  }
}
