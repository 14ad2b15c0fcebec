/** The bottom navigation bar of the player screens. */
module BottomNav {
  import opened Text

  datatype NavItem = NavItem(href: string, caption: string)

  const NavItems: seq<NavItem> := [
    NavItem("/", "Home"),
    NavItem("/leaderboard", "Leaderboard"),
    NavItem("/history", "History"),
    NavItem("/rewards", "Rewards"),
    NavItem("/profile", "Profile")
  ]

  /** The bar is hidden on every path that starts with one of the three prefixes. */
  predicate Hidden(path: string) {
    StartsWith(path, "/auth") || StartsWith(path, "/quiz") || StartsWith(path, "/walkthrough")
  }

  datatype Rendered = Rendered(href: string, caption: string, active: bool)

  /** The bar for `path`: nothing when hidden, else the five items in order with the active flag. */
  function Bar(path: string): (r: seq<Rendered>)
    ensures Hidden(path) ==> r == []
    ensures !Hidden(path) ==>
              |r| == |NavItems| &&
              forall i :: 0 <= i < |NavItems| ==>
                r[i].href == NavItems[i].href && r[i].caption == NavItems[i].caption &&
                (r[i].active <==> path == NavItems[i].href)
  {
    if Hidden(path) then []
    else seq(|NavItems|, i requires 0 <= i < |NavItems| =>
               Rendered(NavItems[i].href, NavItems[i].caption, path == NavItems[i].href))
  }

  /** At most one item is active: the five links are distinct. */
  lemma AtMostOneActive(path: string)
    ensures var r := Bar(path);
            forall i, j :: 0 <= i < |r| && 0 <= j < |r| && r[i].active && r[j].active ==> i == j
  {
  }

  /** The prefix test also hides paths that merely begin like a hidden one, such as `/quizzes`. */
  lemma QuizzesIsHidden(rest: string)
    ensures Bar("/quiz" + rest) == [] && Bar("/auth" + rest) == [] && Bar("/walkthrough" + rest) == []
  {
    assert ("/quiz" + rest)[..5] == "/quiz";
    assert ("/auth" + rest)[..5] == "/auth";
    assert ("/walkthrough" + rest)[..12] == "/walkthrough";
  }

  /** On an item's own page that item is the active one. */
  lemma OwnPageIsActive(k: nat)
    requires k < |NavItems|
    ensures |Bar(NavItems[k].href)| == |NavItems| && Bar(NavItems[k].href)[k].active
  {
    var h := NavItems[k].href;
    if k == 0 {
      assert |h| == 1;
    } else {
      assert h[1] in "lhrp";
      assert h[..5] != "/auth" && h[..5] != "/quiz" && h[..5] != "/walk";
    }
  }
}
