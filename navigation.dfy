/** The navigation bar: the mobile menu's open/closed state with the page
    scroll lock that follows it, and the navbar shadow chosen on scroll. */
module Navigation {

  /** `document.body.style.overflow` for a menu that is open or closed. */
  function BodyOverflow(open: bool): string {
    if open then "hidden" else ""
  }

  class MobileMenu {
    /** Whether `.menu-toggle` carries the class `active`. */
    var toggleActive: bool
    /** Whether `.nav-menu` carries the class `active`; the menu is open. */
    var menuActive: bool
    /** `document.body.style.overflow`. */
    var bodyOverflow: string

    /** The button and the menu agree, and the page scrolls exactly when the
        menu is closed. */
    ghost predicate Valid()
      reads this
    {
      toggleActive == menuActive && bodyOverflow == BodyOverflow(menuActive)
    }

    /** The page as its markup is assumed to load: neither the button nor
        the menu carries `active`, and no overflow is set. */
    constructor ()
      ensures Valid() && !menuActive
    {
      toggleActive := false;
      menuActive := false;
      bodyOverflow := BodyOverflow(false);
    }

    /** A click on the toggle button flips both classes independently and
        then sets the overflow from the menu's new state. */
    method ToggleClick()
      modifies this
      ensures toggleActive == !old(toggleActive) && menuActive == !old(menuActive)
      ensures bodyOverflow == BodyOverflow(menuActive)
      ensures old(Valid()) ==> Valid()
    {
      toggleActive := !toggleActive;
      menuActive := !menuActive;
      bodyOverflow := BodyOverflow(menuActive);
    }

    /** A click on any `.nav-link` closes the menu, whatever its state. */
    method LinkClick()
      modifies this
      ensures Valid() && !menuActive
    {
      toggleActive := false;
      menuActive := false;
      bodyOverflow := BodyOverflow(false);
    }

    /** The document-wide click listener: a click whose target is not inside
        `.nav-container` closes an open menu; any other click, and any click
        while the menu is closed, changes nothing. */
    method DocumentClick(insideNavContainer: bool)
      modifies this
      ensures menuActive == (old(menuActive) && insideNavContainer)
      ensures insideNavContainer || !old(menuActive) ==> unchanged(this)
      ensures !insideNavContainer && old(menuActive) ==> !toggleActive && bodyOverflow == BodyOverflow(false)
      ensures old(Valid()) ==> Valid()
    {
      if !insideNavContainer && menuActive {
        toggleActive := false;
        menuActive := false;
        bodyOverflow := BodyOverflow(false);
      }
    }
  }

  /** Scroll offset past which the navbar gets its stronger shadow. */
  const ShadowOffset := 100

  const RaisedShadow := "0 2px 10px rgba(0, 0, 0, 0.1)"
  const FlatShadow := "0 1px 3px rgba(0, 0, 0, 0.05)"

  /** The navbar's `box-shadow` for a scroll offset. */
  function NavbarShadow(pageYOffset: int): string {
    if pageYOffset > ShadowOffset then RaisedShadow else FlatShadow
  }

  /** The shadow is raised exactly past the threshold. */
  lemma NavbarShadowThreshold(pageYOffset: int)
    ensures NavbarShadow(pageYOffset) == RaisedShadow <==> pageYOffset > ShadowOffset
  {
  }

  /** Scrolling further down never lowers a raised shadow again. */
  lemma NavbarShadowMonotone(pageYOffset: int, further: int)
    requires pageYOffset <= further
    ensures NavbarShadow(pageYOffset) == RaisedShadow ==> NavbarShadow(further) == RaisedShadow
  {
  }
}
