/**
 * Navigation: the mobile menu's `active` flags, the scroll handler that finds the
 * current section and highlights its link, and the arrow-key section index.
 */
module Navigation {
  import opened Wrappers

  // ---------------------------------------------------------------------------
  // Mobile menu

  /** The `active` class of the hamburger button and of the navigation menu. */
  class NavMenu {
    var hamburgerActive: bool
    var menuActive: bool

    /** The button and the menu show the same state. */
    predicate InStep()
      reads this
    {
      hamburgerActive == menuActive
    }

    constructor ()
      ensures !hamburgerActive && !menuActive
    {
      hamburgerActive := false;
      menuActive := false;
    }

    /** A click on the hamburger toggles both flags, each on its own. */
    method HamburgerClick()
      modifies this
      ensures hamburgerActive == !old(hamburgerActive) && menuActive == !old(menuActive)
      ensures old(InStep()) ==> InStep()
    {
      hamburgerActive := !hamburgerActive;
      menuActive := !menuActive;
    }

    /** A click on a navigation link closes the menu. */
    method LinkClick()
      modifies this
      ensures !hamburgerActive && !menuActive
    {
      hamburgerActive := false;
      menuActive := false;
    }

    /** Escape closes the menu when it is open and otherwise changes nothing. */
    method EscapeKey()
      modifies this
      ensures old(menuActive) ==> !hamburgerActive && !menuActive
      ensures !old(menuActive) ==>
        hamburgerActive == old(hamburgerActive) && menuActive == old(menuActive)
      ensures old(InStep()) ==> InStep()
    {
      if menuActive {
        menuActive := false;
        hamburgerActive := false;
      }
    }
  }

  // ---------------------------------------------------------------------------
  // Current section

  /** A `section` element: its `id` attribute (absent gives `null`) and `offsetTop`. */
  datatype Section = Section(id: Option<string>, offsetTop: int)

  /** The scroll position has reached a section when it is at most 200 pixels above it. */
  predicate Reached(s: Section, scrollY: real) {
    scrollY >= (s.offsetTop - 200) as real
  }

  /** The value of `current` after the scan: `''` until a reached section is seen,
      then that section's `id` attribute, which is `null` when it has none. */
  method CurrentSection(sections: seq<Section>, scrollY: real) returns (current: Option<string>)
    ensures (forall k :: 0 <= k < |sections| ==> !Reached(sections[k], scrollY)) ==>
      current == Some("")
    ensures forall k ::
      (0 <= k < |sections| && Reached(sections[k], scrollY)
       && forall m :: k < m < |sections| ==> !Reached(sections[m], scrollY))
      ==> current == sections[k].id
  {
    current := Some("");
    var j := 0;
    while j < |sections|
      invariant 0 <= j <= |sections|
      invariant (forall k :: 0 <= k < j ==> !Reached(sections[k], scrollY)) ==> current == Some("")
      invariant forall k ::
        (0 <= k < j && Reached(sections[k], scrollY)
         && forall m :: k < m < j ==> !Reached(sections[m], scrollY))
        ==> current == sections[k].id
    {
      if Reached(sections[j], scrollY) {
        current := sections[j].id;
      }
      j := j + 1;
    }
  }

  /** The link target compared with each item: `#` and the current value as a
      template literal prints it. */
  function CurrentHref(current: Option<string>): (href: string)
    ensures |href| >= 1 && href[0] == '#'
    ensures current.Some? ==> href[1..] == current.value
    ensures current.None? ==> href[1..] == "null"
  {
    "#" + (if current.None? then "null" else current.value)
  }

  /** Each navigation item's `active` class is removed, then added back exactly when
      its `href` attribute equals the current target. */
  method HighlightNav(hrefs: seq<Option<string>>, active: array<bool>, current: Option<string>)
    requires active.Length == |hrefs|
    modifies active
    ensures forall k :: 0 <= k < |hrefs| ==> (active[k] <==> hrefs[k] == Some(CurrentHref(current)))
  {
    var target := CurrentHref(current);
    var j := 0;
    while j < |hrefs|
      invariant 0 <= j <= |hrefs|
      invariant forall k :: 0 <= k < j ==> (active[k] <==> hrefs[k] == Some(target))
    {
      active[j] := false;
      if hrefs[j] == Some(target) {
        active[j] := true;
      }
      j := j + 1;
    }
  }

  /** When no section is reached, an item is active only if its `href` is `#`;
      a section without an id makes `#null` the target. */
  lemma TargetsOfSpecialValues()
    ensures CurrentHref(Some("")) == "#"
    ensures CurrentHref(None) == "#null"
    ensures forall id :: CurrentHref(Some(id)) == "#" + id
  {
  }

  // ---------------------------------------------------------------------------
  // Arrow keys

  datatype ArrowKey = ArrowDown | ArrowUp

  /** The index the key moves to: one further down clamped to the last section, or
      one further up clamped to the first; `currentIndex` is -1 when the current
      section was not found. */
  function NextIndex(key: ArrowKey, currentIndex: int, count: nat): (next: int)
    ensures key == ArrowDown ==>
      next <= currentIndex + 1 && next <= count - 1 && (next == currentIndex + 1 || next == count - 1)
    ensures key == ArrowUp ==>
      next >= currentIndex - 1 && next >= 0 && (next == currentIndex - 1 || next == 0)
  {
    match key
    case ArrowDown => if currentIndex + 1 <= count - 1 then currentIndex + 1 else count - 1
    case ArrowUp => if currentIndex - 1 >= 0 then currentIndex - 1 else 0
  }

  /** The section scrolled into view, if `sections[nextIndex]` exists. */
  function ScrollTarget(key: ArrowKey, currentIndex: int, count: nat): (target: Option<nat>)
    requires -1 <= currentIndex < count
    ensures count == 0 <==> target.None?
    ensures target.Some? ==> target.value < count
    ensures target.Some? && key == ArrowDown ==>
      target.value == if currentIndex + 1 < count then currentIndex + 1 else count - 1
    ensures target.Some? && key == ArrowUp ==>
      target.value == if currentIndex >= 1 then currentIndex - 1 else 0
  {
    var next := NextIndex(key, currentIndex, count);
    if 0 <= next < count then Some(next) else None
  }

  /** From a found section the keys move by at most one, ArrowDown never moves up,
      ArrowUp never moves down, and the only section a key stays on is the last
      (ArrowDown) or the first (ArrowUp). */
  lemma ArrowMovesOneStep(key: ArrowKey, currentIndex: nat, count: nat)
    requires currentIndex < count
    ensures var t := ScrollTarget(key, currentIndex, count).value;
      && (key == ArrowDown ==> currentIndex <= t <= currentIndex + 1)
      && (key == ArrowUp ==> currentIndex - 1 <= t <= currentIndex)
      && (t == currentIndex <==>
            (key == ArrowDown && currentIndex == count - 1) || (key == ArrowUp && currentIndex == 0))
  {
  }
}
