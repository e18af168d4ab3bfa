/**
 * The sidebar's navigation table and which of its links is highlighted for
 * the current path.
 */
module Sidebar {
  import opened Text

  datatype NavItem = NavItem(name: string, href: string)

  const Navigation: seq<NavItem> := [
    NavItem("Dashboard", "/dashboard"),
    NavItem("Teams", "/teams"),
    NavItem("Sentiment Trends", "/sentiment-trends"),
    NavItem("Admin Settings", "/admin-settings")
  ]

  /** `isActive`: the path is the link itself or lies below it. */
  predicate IsActive(pathname: string, href: string) {
    pathname == href || StartsWith(pathname, href + "/")
  }

  /** An active link agrees with the path on every character of the link. */
  lemma ActiveSharesPrefix(pathname: string, href: string)
    requires IsActive(pathname, href)
    ensures |href| <= |pathname| && pathname[..|href|] == href
  {
    if pathname != href {
      assert pathname[..|href|] == (href + "/")[..|href|];
    }
  }

  /** The highlight flags the sidebar renders, one per table entry. At most
      one link is highlighted, and none for the root path. */
  function ActiveFlags(pathname: string): (flags: seq<bool>)
    ensures |flags| == |Navigation|
    ensures forall i :: 0 <= i < |flags| ==> (flags[i] <==> IsActive(pathname, Navigation[i].href))
    ensures forall i, j :: 0 <= i < |flags| && 0 <= j < |flags| && flags[i] && flags[j] ==> i == j
    ensures pathname == "/" ==> forall i :: 0 <= i < |flags| ==> !flags[i]
  {
    var flags := seq(|Navigation|, i requires 0 <= i < |Navigation| => IsActive(pathname, Navigation[i].href));
    forall i, j | 0 <= i < |flags| && 0 <= j < |flags| && flags[i] && flags[j] ensures i == j {
      AtMostOneActive(pathname, i, j);
    }
    flags
  }

  /** The four links differ in their first character after the slash, so a
      path can lie under at most one of them. */
  lemma AtMostOneActive(pathname: string, i: nat, j: nat)
    requires i < |Navigation| && j < |Navigation|
    requires IsActive(pathname, Navigation[i].href) && IsActive(pathname, Navigation[j].href)
    ensures i == j
  {
    ActiveSharesPrefix(pathname, Navigation[i].href);
    ActiveSharesPrefix(pathname, Navigation[j].href);
    assert pathname[1] == Navigation[i].href[1] by {
      assert pathname[..|Navigation[i].href|][1] == pathname[1];
    }
    assert pathname[1] == Navigation[j].href[1] by {
      assert pathname[..|Navigation[j].href|][1] == pathname[1];
    }
    assert Navigation[0].href[1] == 'd' && Navigation[1].href[1] == 't';
    assert Navigation[2].href[1] == 's' && Navigation[3].href[1] == 'a';
  }

  /** A page under a section highlights it; a path that merely begins with
      the same letters does not. */
  lemma ActiveExamples()
    ensures IsActive("/teams/abc", "/teams")
    ensures !IsActive("/teamsx", "/teams")
    ensures IsActive("/teams", "/teams")
    ensures !IsActive("/", "/dashboard")
  {
    assert "/teams/abc"[..7] == "/teams/";
    assert "/teamsx"[..7][6] != "/teams/"[6];
  }
}
