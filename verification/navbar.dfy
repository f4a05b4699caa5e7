/** The navigation bar (`components/Navbar.jsx`): menu links, the active
    menu label, the mobile menu and the theme switch. */
module Navbar {

  /** The menu labels, in display order. */
  const MenuItems: seq<string> := ["Explore NFTs", "Listed NFTs", "My NFTs"]

  /** The two themes the switch moves between. */
  const Themes: set<string> := {"light", "dark"}

  /** `generateLink`: the page a menu index links to; an index with no
      menu item links to the home page. */
  function GenerateLink(index: int): (path: string)
    ensures path == "/" || path == "/listed-nfts" || path == "/my-nfts"
    ensures !(0 <= index < |MenuItems|) ==> path == "/"
  {
    match index
    case 0 => "/"
    case 1 => "/listed-nfts"
    case 2 => "/my-nfts"
    case _ => "/"
  }

  /** The label `checkActive` settles on for a path: a menu label for the
      three menu pages, and "" for "/create-nft" and any other path. */
  function ActiveFor(pathname: string): (active: string)
    ensures active == "" || active in MenuItems
    ensures active != "" ==> exists i :: 0 <= i < |MenuItems| && MenuItems[i] == active && GenerateLink(i) == pathname
  {
    if pathname == "/" then
      assert GenerateLink(0) == pathname;
      "Explore NFTs"
    else if pathname == "/listed-nfts" then
      assert GenerateLink(1) == pathname;
      "Listed NFTs"
    else if pathname == "/my-nfts" then
      assert GenerateLink(2) == pathname;
      "My NFTs"
    else ""
  }

  /** Round trip: following a menu item's link marks that item active. */
  lemma LinkRoundTrip(index: int)
    requires 0 <= index < |MenuItems|
    ensures ActiveFor(GenerateLink(index)) == MenuItems[index]
  {
  }

  /** The theme switch: "light" becomes "dark" and anything else "light". */
  function NextTheme(theme: string): (next: string)
    ensures next in Themes
    ensures theme in Themes ==> next != theme
  {
    if theme == "light" then "dark" else "light"
  }

  /** Toggling twice from either theme returns to it. */
  lemma ToggleTwice(theme: string)
    requires theme in Themes
    ensures NextTheme(NextTheme(theme)) == theme
  {
  }

  class NavbarState {
    /** The highlighted menu label, or "" for none. */
    var active: string
    /** Whether the mobile menu is open. */
    var isOpen: bool
    /** The colour theme held by the theme provider. */
    var theme: string

    ghost predicate Valid()
      reads this
    {
      (active == "" || active in MenuItems) && theme in Themes
    }

    /** Mounting on `pathname`: `active` starts as "Explore NFTs" and
        `isOpen` as false, then the mount effects set the theme to "dark"
        and run `checkActive`. */
    constructor (pathname: string)
      ensures Valid()
      ensures active == ActiveFor(pathname) && !isOpen && theme == "dark"
    {
      active := "Explore NFTs";
      isOpen := false;
      theme := "dark";
      new;
      var _ := CheckActive(pathname);
    }

    /** `checkActive`, run when the path changes: a menu page sets its
        label only if it is not already active; any other path clears it.
        `wrote` tells whether `setActive` was called. */
    method CheckActive(pathname: string) returns (wrote: bool)
      modifies this
      ensures active == ActiveFor(pathname)
      ensures isOpen == old(isOpen) && theme == old(theme)
      ensures wrote <==> old(active) != ActiveFor(pathname) || ActiveFor(pathname) == ""
      ensures old(Valid()) ==> Valid()
    {
      wrote := false;
      if pathname == "/" {
        if active != "Explore NFTs" { active := "Explore NFTs"; wrote := true; }
      } else if pathname == "/listed-nfts" {
        if active != "Listed NFTs" { active := "Listed NFTs"; wrote := true; }
      } else if pathname == "/my-nfts" {
        if active != "My NFTs" { active := "My NFTs"; wrote := true; }
      } else {
        active := "";
        wrote := true;
      }
    }

    /** Clicking the menu item at `index`. The mobile list closes the menu;
        the desktop list is rendered without `setIsOpen`, so there only
        `setActive` takes effect. */
    method ClickMenuItem(index: nat, mobile: bool)
      requires index < |MenuItems|
      requires Valid()
      modifies this
      ensures Valid()
      ensures active == MenuItems[index] && theme == old(theme)
      ensures isOpen == (if mobile then false else old(isOpen))
    {
      active := MenuItems[index];
      if mobile {
        isOpen := false;
      }
    }

    /** Clicking the logo of the wide layout. */
    method ClickLogo()
      requires Valid()
      modifies this
      ensures Valid()
      ensures active == "Explore NFTs" && isOpen == old(isOpen) && theme == old(theme)
    {
      active := "Explore NFTs";
    }

    /** Clicking the logo of the narrow layout, which also closes the menu. */
    method ClickCompactLogo()
      requires Valid()
      modifies this
      ensures Valid()
      ensures active == "Explore NFTs" && !isOpen && theme == old(theme)
    {
      active := "Explore NFTs";
      isOpen := false;
    }

    /** The "Create" button: no menu label is active and the menu closes
        (the navigation to "/create-nft" is left to the router). */
    method ClickCreate()
      requires Valid()
      modifies this
      ensures Valid()
      ensures active == "" && !isOpen && theme == old(theme)
    {
      active := "";
      isOpen := false;
    }

    /** The menu and close icons of the narrow layout. */
    method SetMenuOpen(open: bool)
      requires Valid()
      modifies this
      ensures Valid()
      ensures isOpen == open && active == old(active) && theme == old(theme)
    {
      isOpen := open;
    }

    /** The theme checkbox. */
    method ToggleTheme()
      requires Valid()
      modifies this
      ensures Valid()
      ensures theme == NextTheme(old(theme)) && theme != old(theme)
      ensures active == old(active) && isOpen == old(isOpen)
    {
      theme := NextTheme(theme);
    }
  }
}
