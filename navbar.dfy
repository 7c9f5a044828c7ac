/** The navigation bar: which dropdown is open, whether the mobile menu is
    open, and which links are listed. */
module Navbar {
  import opened Wrappers
  import opened Selection

  datatype NavLink = Link(to: string, name: string) | Dropdown(name: string, items: seq<NavLink>)

  /** `navLinks`: the links everyone sees. */
  const NavLinks: seq<NavLink> := [
    Link("/", "Home"), Link("/pricing", "Pricing"), Link("/blog", "Insights"),
    Link("/features", "Features"),
    Dropdown("More", [Link("/contributors", "Contributors"), Link("/contactus", "Contact Us"), Link("/faq", "FAQ")])
  ]

  const MemberLinks: seq<NavLink> := [Link("/dashboard", "Dashboard"), Link("/leaderboard", "Leaderboard")]

  /** `linksToRender`: signed-in users get the member links appended. */
  function LinksToRender(signedIn: bool): (r: seq<NavLink>)
    ensures |NavLinks| <= |r| && r[..|NavLinks|] == NavLinks
    ensures !signedIn ==> r == NavLinks
    ensures signedIn ==> r[|NavLinks|..] == MemberLinks
  {
    if signedIn then NavLinks + MemberLinks else NavLinks
  }

  /** Signing in only adds links: every anonymous link stays listed. */
  lemma SignInOnlyAdds(l: NavLink)
    requires l in LinksToRender(false)
    ensures l in LinksToRender(true)
  {
    var i :| 0 <= i < |NavLinks| && NavLinks[i] == l;
    assert LinksToRender(true)[i] == l;
  }

  /** The desktop menu is rendered on every page but the dashboard. */
  function DesktopMenuShown(path: string): (r: bool)
    ensures r <==> path != "/dashboard"
  {
    !(path == "/dashboard")
  }

  class NavState {
    /** The label of the open dropdown, `None` for `null`. */
    var openDropdown: Option<string>
    var mobileOpen: bool

    constructor ()
      ensures openDropdown.None? && !mobileOpen
    {
      openDropdown := None;
      mobileOpen := false;
    }

    /** `handleDropdownEnter(label)`. */
    method DropdownEnter(name: string)
      modifies this
      ensures openDropdown == Some(name) && mobileOpen == old(mobileOpen)
    {
      openDropdown := Some(name);
    }

    /** The delayed close scheduled by `handleDropdownLeave`, when it fires. */
    method DropdownLeaveFires()
      modifies this
      ensures openDropdown.None? && mobileOpen == old(mobileOpen)
    {
      openDropdown := None;
    }

    /** `handleDropdownClick(label)`. */
    method DropdownClick(name: string)
      modifies this
      ensures openDropdown == Click(old(openDropdown), name) && mobileOpen == old(mobileOpen)
    {
      openDropdown := if openDropdown == Some(name) then None else Some(name);
    }

    /** `toggleMobileMenu`. */
    method ToggleMobile()
      modifies this
      ensures mobileOpen == !old(mobileOpen) && openDropdown == old(openDropdown)
    {
      mobileOpen := !mobileOpen;
    }

    /** `closeMobileMenu`. */
    method CloseMobile()
      modifies this
      ensures !mobileOpen && openDropdown.None?
    {
      mobileOpen := false;
      openDropdown := None;
    }

    /** The document `keydown` listener. */
    method OnKeyDown(key: string)
      modifies this
      ensures key == "Escape" ==> openDropdown.None?
      ensures key != "Escape" ==> openDropdown == old(openDropdown)
      ensures mobileOpen == old(mobileOpen)
    {
      if key == "Escape" {
        openDropdown := None;
      }
    }

    /** The document `click` listener; `insideDropdown` says whether the
        target lies inside a `.dropdown-container`. An open label that is
        the empty string is falsy and is left alone. */
    method OnDocumentClick(insideDropdown: bool)
      modifies this
      ensures !insideDropdown && old(openDropdown) != Some("") ==> openDropdown.None?
      ensures insideDropdown || old(openDropdown) == Some("") ==> openDropdown == old(openDropdown)
      ensures mobileOpen == old(mobileOpen)
    {
      if openDropdown.Some? && openDropdown.value != "" && !insideDropdown {
        openDropdown := None;
      }
    }

    /** `handleLogout`, given whether signing out succeeded: on success it
        navigates home and closes the menus; on failure nothing changes. */
    method HandleLogout(signOutSucceeded: bool) returns (navigate: Option<string>)
      modifies this
      ensures signOutSucceeded ==> navigate == Some("/") && !mobileOpen && openDropdown.None?
      ensures !signOutSucceeded ==> navigate.None? && mobileOpen == old(mobileOpen) && openDropdown == old(openDropdown)
    {
      if !signOutSucceeded {
        return None;
      }
      CloseMobile();
      return Some("/");
    }
  }
}
