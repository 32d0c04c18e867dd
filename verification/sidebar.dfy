/** The navigation of ui/components/Sidebar.tsx: eight fixed entries, an
    Admin entry appended for super-admins, and the rule that marks an entry
    active for the current path. */
module Sidebar {
  import opened Common

  datatype NavEntry = NavEntry(name: string, href: string)

  const AdminEntry := NavEntry("Admin", "/dashboard/admin")

  /** The fixed entries, in the order they are shown: eight distinct
      addresses, the first the dashboard's own and the others below it,
      none of them the Admin page. */
  function Navigation(): (nav: seq<NavEntry>)
    ensures |nav| == 8
    ensures nav[0].href == "/dashboard"
    ensures forall i :: 1 <= i < |nav| ==> StartsWith(nav[i].href, nav[0].href + "/")
    ensures forall i, j :: 0 <= i < j < |nav| ==> nav[i].href != nav[j].href
    ensures AdminEntry !in nav
  {
    [
      NavEntry("Dashboard", "/dashboard"),
      NavEntry("Teklifler", "/dashboard/offers"),
      NavEntry("Müşteriler", "/dashboard/customers"),
      NavEntry("Ürünler", "/dashboard/products"),
      NavEntry("Şirket", "/dashboard/company"),
      NavEntry("Kullanıcılar", "/dashboard/users"),
      NavEntry("Abonelik", "/dashboard/billing"),
      NavEntry("Ayarlar", "/dashboard/settings")
    ]
  }

  /** `links`: a copy of the fixed entries, with the Admin entry pushed
      when the signed-in user's role is SuperAdmin. The fixed list is a
      value, so the push never reaches it. */
  method BuildLinks(role: Option<string>) returns (links: seq<NavEntry>)
    ensures |links| == if role == Some("SuperAdmin") then |Navigation()| + 1 else |Navigation()|
    ensures links[..|Navigation()|] == Navigation()
    ensures role == Some("SuperAdmin") ==> links[|Navigation()|] == AdminEntry
    ensures AdminEntry in links <==> role == Some("SuperAdmin")
  {
    links := Navigation();
    if role == Some("SuperAdmin") {
      links := links + [AdminEntry];
    }
  }

  /** `isActive`: the path is the entry's address or lies below it. */
  function IsActive(pathname: string, href: string): (b: bool)
    ensures pathname == href ==> b
    ensures b ==> StartsWith(pathname, href)
  {
    if StartsWith(pathname, href + "/") then
      assert pathname[..|href|] == (href + "/")[..|href|];
      true
    else pathname == href
  }

  /** An active entry's address is followed, if by anything, by a slash:
      a path that merely extends the address with other characters (such
      as "/dashboard/offersx" for "/dashboard/offers") does not activate
      it. */
  lemma ActiveNeedsSlash(pathname: string, href: string)
    ensures IsActive(pathname, href) <==>
      StartsWith(pathname, href) && (|pathname| == |href| || pathname[|href|] == '/')
  {
    if StartsWith(pathname, href) && |pathname| > |href| && pathname[|href|] == '/' {
      assert pathname[..|href| + 1] == pathname[..|href|] + [pathname[|href|]];
    }
    if StartsWith(pathname, href + "/") {
      assert pathname[..|href|] == (href + "/")[..|href|];
    }
  }

  /** An entry is active on every page below a nested entry's address, so
      the Dashboard entry is active together with any other active
      entry. */
  lemma EnclosingEntryActive(pathname: string, outer: string, inner: string)
    requires StartsWith(inner, outer + "/")
    requires IsActive(pathname, inner)
    ensures IsActive(pathname, outer)
  {
    var n := |outer + "/"|;
    assert pathname[..n] == inner[..n];
  }

  /** On an offer's page two entries are active at once. */
  lemma TwoEntriesActive(rest: string)
    ensures IsActive("/dashboard/offers/" + rest, Navigation()[0].href)
    ensures IsActive("/dashboard/offers/" + rest, Navigation()[1].href)
  {
    var p := "/dashboard/offers/" + rest;
    assert p[..|"/dashboard/offers/"|] == "/dashboard/offers/";
    EnclosingEntryActive(p, "/dashboard", "/dashboard/offers");
  }
}
