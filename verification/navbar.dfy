/** The navigation bar's active-link rule. */
module Navbar {
  import opened Text

  datatype NavItem = NavItem(path: string, title: string)

  const NavItems: seq<NavItem> := [NavItem("/", "Dashboard"), NavItem("/projects", "Projects"), NavItem("/builds", "Builds")]

  /** `isActive(path)` for the current `pathname`: the root only on an exact match, any other
      item on a plain prefix match. */
  function IsActive(pathname: string, path: string): (r: bool)
    ensures path == "/" ==> (r <==> pathname == "/")
    ensures path != "/" ==> (r <==> |path| <= |pathname| && forall i | 0 <= i < |path| :: pathname[i] == path[i])
  {
    if path == "/" then pathname == "/" else StartsWith(pathname, path)
  }

  /** For the three configured items, at most one link is active, whatever the pathname. */
  lemma AtMostOneActive(pathname: string)
    ensures forall i, j | 0 <= i < j < |NavItems| :: !(IsActive(pathname, NavItems[i].path) && IsActive(pathname, NavItems[j].path))
  {
    forall i, j | 0 <= i < j < |NavItems|
      ensures !(IsActive(pathname, NavItems[i].path) && IsActive(pathname, NavItems[j].path))
    {
      var a := NavItems[i].path;
      var b := NavItems[j].path;
      assert i == 0 ==> a == "/" && |b| > 1;
      assert i > 0 ==> |a| > 1 && |b| > 1 && a[1] != b[1];
    }
  }

  /** Matching is not segment-aware: a path that merely begins with an item's path activates it. */
  lemma PrefixNotSegment(pathname: string, suffix: string)
    requires pathname == "/builds" + suffix
    ensures IsActive(pathname, "/builds")
    ensures pathname != "/" ==> !IsActive(pathname, "/")
  {
    assert pathname[..|"/builds"|] == "/builds";
  }
}
