/**
 * The mobile menu of main.js (lines 161-233): the `active` class on the
 * hamburger button, the nav and the link list, the button's `aria-expanded`,
 * the nav's `aria-hidden` and whether the body's scrolling is locked
 * (`overflow: hidden`).
 */
module MobileMenu {
  import opened Wrappers

  /** The widest window, in CSS pixels, that counts as mobile. */
  const MobileMaxWidth: int := 768

  /** `isMobile()`: `window.innerWidth <= 768`. */
  predicate IsMobile(width: int) {
    width <= MobileMaxWidth
  }

  /** The menu's observable state. */
  datatype MenuState = MenuState(hamburgerActive: bool, navActive: bool, linksActive: bool,
                                 ariaExpanded: bool, ariaHidden: bool, scrollLocked: bool)

  /** All parts of the menu say the same thing: open, or closed. */
  predicate Consistent(m: MenuState) {
    m.hamburgerActive == m.navActive && m.linksActive == m.navActive
    && m.ariaExpanded == m.navActive && m.ariaHidden == !m.navActive && m.scrollLocked == m.navActive
  }

  /** The menu everywhere open or everywhere closed. */
  function Displayed(open: bool): (m: MenuState)
    ensures Consistent(m) && m.navActive == open
  {
    MenuState(open, open, open, open, !open, open)
  }

  /** Line 177: the argument when one is given, otherwise the opposite of whether the nav is open. */
  function NextOpen(open: Option<bool>, navActive: bool): (r: bool)
    ensures open.Some? ==> r == open.value
    ensures open.None? ==> r == !navActive
  {
    if open.Some? then open.value else !navActive
  }

  /** `toggleMenu(open)` at window width `width`. */
  function Toggled(m: MenuState, open: Option<bool>, width: int): MenuState {
    if !IsMobile(width) then m else Displayed(NextOpen(open, m.navActive))
  }

  /** On a wide window nothing changes; otherwise every part ends in the same new state. */
  lemma ToggleEffect(m: MenuState, open: Option<bool>, width: int)
    ensures !IsMobile(width) ==> Toggled(m, open, width) == m
    ensures IsMobile(width) ==> Consistent(Toggled(m, open, width))
    ensures IsMobile(width) && open.Some? ==> Toggled(m, open, width).navActive == open.value
    ensures IsMobile(width) && open.None? ==> Toggled(m, open, width).navActive == !m.navActive
  {
  }

  /** Two clicks on the hamburger give back a consistent menu. */
  lemma ToggleTwiceRestores(m: MenuState, width: int)
    requires Consistent(m)
    ensures Toggled(Toggled(m, None, width), None, width) == m
  {
  }

  /** Closing a closed menu, or opening an open one, changes nothing. */
  lemma SetIdempotent(m: MenuState, open: bool, width: int)
    ensures Toggled(Toggled(m, Some(open), width), Some(open), width) == Toggled(m, Some(open), width)
  {
  }

  /** Lines 225-232 as written: on a wide window the handler calls `toggleMenu(false)`, which returns at once there. */
  function ResizedAsWritten(m: MenuState, width: int): MenuState {
    if !IsMobile(width) then Toggled(m, Some(false), width) else m
  }

  /** A menu opened on a phone-width window stays open, with page scrolling locked, after the window is widened past 768 pixels. */
  lemma ResizeLeavesMenuOpen()
    ensures var r := ResizedAsWritten(Toggled(Displayed(false), None, 500), 1024);
            r.navActive && r.scrollLocked
  {
  }

  /** The evident intent of that handler: a wide window closes the menu and unlocks scrolling. */
  function Resized(m: MenuState, width: int): (r: MenuState)
    ensures !IsMobile(width) ==> r == Displayed(false)
    ensures IsMobile(width) ==> r == m
  {
    if !IsMobile(width) then Displayed(false) else m
  }

  /** After the corrected reset, a wide window never shows an open menu or a locked page, whatever came before. */
  lemma ResizeCloses(m: MenuState, width: int)
    requires !IsMobile(width)
    ensures !Resized(m, width).navActive && !Resized(m, width).scrollLocked && Consistent(Resized(m, width))
  {
  }

  /** The page's menu elements. */
  class Menu {
    var hamburgerActive: bool
    var navActive: bool
    var linksActive: bool
    var ariaExpanded: bool
    var ariaHidden: bool
    var scrollLocked: bool

    function State(): MenuState
      reads this
    {
      MenuState(hamburgerActive, navActive, linksActive, ariaExpanded, ariaHidden, scrollLocked)
    }

    /** Lines 170-172 on a page whose markup starts with no `active` classes: a closed menu. */
    constructor ()
      ensures State() == Displayed(false)
    {
      hamburgerActive, navActive, linksActive := false, false, false;
      ariaExpanded, ariaHidden, scrollLocked := false, true, false;
    }

    /** Lines 174-193: `toggleMenu(open)`. */
    method Toggle(open: Option<bool>, width: int)
      modifies this
      ensures State() == Toggled(old(State()), open, width)
    {
      if !IsMobile(width) {
        return;
      }
      var isOpen := if open.Some? then open.value else !navActive;
      ariaExpanded := isOpen;
      ariaHidden := !isOpen;
      if isOpen {
        hamburgerActive, navActive, linksActive := true, true, true;
        scrollLocked := true;
      } else {
        hamburgerActive, navActive, linksActive := false, false, false;
        scrollLocked := false;
      }
    }

    /** Lines 196-199: a click on the hamburger. */
    method OnHamburgerClick(width: int)
      modifies this
      ensures State() == Toggled(old(State()), None, width)
    {
      Toggle(None, width);
    }

    /** Lines 202-221: a link click, a click outside the open menu, or Escape in the open menu, all on a narrow window. */
    method Close(width: int)
      modifies this
      ensures State() == Toggled(old(State()), Some(false), width)
    {
      Toggle(Some(false), width);
    }

    /** The window reset of lines 225-232, as its evident intent: a wide window closes the menu. */
    method OnResize(width: int)
      modifies this
      ensures State() == Resized(old(State()), width)
    {
      if !IsMobile(width) {
        hamburgerActive, navActive, linksActive := false, false, false;
        ariaExpanded, ariaHidden, scrollLocked := false, true, false;
      }
    }
  }
}
