/** The navigation bar: which link is highlighted for the current location,
    and the mobile menu's open state. */
module Navigation {
  import opened Text

  const Root := "/"

  /** The links of the bar, in display order. */
  const NavHrefs: seq<string> := ["/", "/about", "/tournaments", "/events", "/blog", "/contact"]

  /** The home link is active only on "/" itself; any other link is active on
      every location that starts with its path. */
  function IsActive(location: string, href: string): (r: bool)
    ensures href == Root ==> (r <==> location == Root)
    ensures href != Root ==>
              (r <==> |href| <= |location| && forall i :: 0 <= i < |href| ==> location[i] == href[i])
  {
    if href == Root then location == Root else StartsWith(location, href)
  }

  /** Every link is active on its own page. */
  lemma ActiveOnOwnPage(href: string)
    ensures IsActive(href, href)
  {
    StartsWithSelf(href);
  }

  /** The home link is active exactly on "/", and a sub-page keeps its
      section's link active. */
  lemma ActiveRules(location: string, href: string, rest: string)
    ensures IsActive(location, Root) <==> location == Root
    ensures href != Root ==> IsActive(href + rest, href)
  {
    assert (href + rest)[..|href|] == href;
  }

  /** On each page of the bar exactly its own link is highlighted. */
  lemma OneActiveLinkPerPage(i: nat, j: nat)
    requires i < |NavHrefs| && j < |NavHrefs|
    ensures IsActive(NavHrefs[i], NavHrefs[j]) <==> i == j
  {
    var hs := NavHrefs;
    assert hs[1][1] == 'a' && hs[2][1] == 't' && hs[3][1] == 'e' && hs[4][1] == 'b' && hs[5][1] == 'c';
    if i == j {
      ActiveOnOwnPage(hs[i]);
    } else if j != 0 {
      if i != 0 {
        assert hs[i][1] != hs[j][1];
      } else {
        assert |hs[i]| < |hs[j]|;
      }
    }
  }

  /** The bar's state: the location and whether the mobile menu is open. */
  datatype NavState = NavState(location: string, menuOpen: bool)

  function InitialState(location: string): NavState {
    NavState(location, false)
  }

  /** The menu button flips the menu. */
  function ToggleMenu(st: NavState): (r: NavState)
    ensures r.location == st.location
    ensures r.menuOpen != st.menuOpen
  {
    st.(menuOpen := !st.menuOpen)
  }

  /** A change of location closes an open menu; an unchanged location changes nothing. */
  function Navigate(st: NavState, location: string): (r: NavState)
    ensures r.location == location
    ensures location != st.location ==> !r.menuOpen
    ensures location == st.location ==> r == st
  {
    if location != st.location then NavState(location, false) else st
  }

  /** The mobile link list is drawn only when the menu is open on a narrow screen. */
  function MobileMenuShown(st: NavState, isMobile: bool): (r: bool)
    ensures r ==> st.menuOpen
    ensures !isMobile ==> !r
    ensures st.menuOpen && isMobile ==> r
  {
    st.menuOpen && isMobile
  }

  /** Toggling twice restores the state, and after moving to another page
      the mobile menu is no longer drawn. */
  lemma MenuLaws(st: NavState, location: string, isMobile: bool)
    ensures ToggleMenu(ToggleMenu(st)) == st
    ensures location != st.location ==> !MobileMenuShown(Navigate(st, location), isMobile)
    ensures !MobileMenuShown(InitialState(location), isMobile)
  {
  }
}
