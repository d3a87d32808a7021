/**
 * The navigation header (src/components/Header.tsx): a scroll-spy that marks
 * the section under the fixed header as active, and the mobile menu flag.
 *
 * The document is abstracted to a `Layout`: the sections that exist, each with
 * its integer `offsetTop` and `offsetHeight`.  A section id missing from the
 * layout is one for which the document has no element.
 */
module Header {
  import opened Optional

  /** The navigation ids, in the order the scroll-spy tries them. */
  const NavIds: seq<string> := ["home", "about", "skills", "projects", "contact"]

  /** Added to the scroll offset to compensate for the fixed header. */
  const HeaderOffset: int := 100

  /** The position and height of a section's element. */
  datatype Box = Box(offsetTop: int, offsetHeight: int)

  /** The sections present in the document. */
  type Layout = map<string, Box>

  /** The half-open range `[offsetTop, offsetTop + offsetHeight)` holds `pos`. */
  predicate Covers(b: Box, pos: int) {
    b.offsetTop <= pos < b.offsetTop + b.offsetHeight
  }

  /** Section `id` exists and its range holds `pos`. */
  predicate Matches(layout: Layout, id: string, pos: int) {
    id in layout && Covers(layout[id], pos)
  }

  /** The first id, in order, whose section holds `pos`; `None` if there is none. */
  function FirstMatch(ids: seq<string>, layout: Layout, pos: int): (r: Option<string>)
    ensures r.Some? ==> r.value in ids && Matches(layout, r.value, pos)
    ensures r.None? <==> forall k :: 0 <= k < |ids| ==> !Matches(layout, ids[k], pos)
  {
    if ids == [] then None
    else if Matches(layout, ids[0], pos) then Some(ids[0])
    else FirstMatch(ids[1..], layout, pos)
  }

  /**
   * The section that holds `pos` and is preceded by no other that holds it
   * is the one selected: where ranges overlap, the earlier section wins.
   */
  lemma {:induction false} EarliestMatchWins(ids: seq<string>, layout: Layout, pos: int, k: nat)
    requires k < |ids| && Matches(layout, ids[k], pos)
    requires forall j :: 0 <= j < k ==> !Matches(layout, ids[j], pos)
    ensures FirstMatch(ids, layout, pos) == Some(ids[k])
  {
    if k > 0 {
      assert !Matches(layout, ids[0], pos);
      assert forall j :: 0 <= j < k - 1 ==> ids[1..][j] == ids[j + 1];
      EarliestMatchWins(ids[1..], layout, pos, k - 1);
    }
  }

  /** Whatever is selected, no section before it holds `pos`. */
  lemma {:induction false} NothingEarlierMatches(ids: seq<string>, layout: Layout, pos: int, k: nat)
    requires k < |ids| && FirstMatch(ids, layout, pos) == Some(ids[k])
    requires forall j :: 0 <= j < k ==> ids[j] != ids[k]
    ensures forall j :: 0 <= j < k ==> !Matches(layout, ids[j], pos)
  {
    if k > 0 {
      assert ids[0] != ids[k];
      assert !Matches(layout, ids[0], pos);
      assert ids[1..][k - 1] == ids[k];
      NothingEarlierMatches(ids[1..], layout, pos, k - 1);
    }
  }

  /** A section without an element is never selected. */
  lemma MissingSectionNeverSelected(layout: Layout, pos: int, id: string)
    requires id !in layout
    ensures FirstMatch(NavIds, layout, pos) != Some(id)
  {
  }

  /** The range is half-open: its end belongs to the next section, not to this one. */
  lemma RangeIsHalfOpen(layout: Layout, id: string)
    requires id in layout
    ensures !Matches(layout, id, layout[id].offsetTop + layout[id].offsetHeight)
  {
  }

  /** Home at [0, 800), about at [800, 1400), skills at [1400, 2000). */
  const ExampleLayout: Layout :=
    map["home" := Box(0, 800), "about" := Box(800, 600), "skills" := Box(1400, 600)]

  lemma ExampleScrollPositions()
    ensures FirstMatch(NavIds, ExampleLayout, 650 + HeaderOffset) == Some("home")
    ensures FirstMatch(NavIds, ExampleLayout, 750 + HeaderOffset) == Some("about")
    ensures FirstMatch(NavIds, ExampleLayout, 1900 + HeaderOffset) == None
  {
    EarliestMatchWins(NavIds, ExampleLayout, 750, 0);
    EarliestMatchWins(NavIds, ExampleLayout, 850, 1);
  }

  /** The header's state: the active section and whether the mobile menu is open. */
  class Navigation {
    var activeSection: string
    var isMenuOpen: bool

    /** The active section is always one of the navigation ids. */
    predicate Valid()
      reads this
    {
      activeSection in NavIds
    }

    constructor ()
      ensures activeSection == "home" && !isMenuOpen && Valid()
    {
      activeSection, isMenuOpen := "home", false;
    }

    /**
     * The scroll listener: the first section, in navigation order, whose range
     * holds `scrollY + 100` becomes active; if none does, nothing changes.
     */
    method HandleScroll(scrollY: int, layout: Layout)
      requires Valid()
      modifies this
      ensures Valid() && isMenuOpen == old(isMenuOpen)
      ensures activeSection == match FirstMatch(NavIds, layout, scrollY + HeaderOffset)
                               case Some(id) => id
                               case None => old(activeSection)
    {
      var scrollPosition := scrollY + HeaderOffset;
      for i := 0 to |NavIds|
        invariant FirstMatch(NavIds[i..], layout, scrollPosition) == FirstMatch(NavIds, layout, scrollPosition)
        invariant activeSection == old(activeSection)
      {
        var section := NavIds[i];
        if section in layout {
          var element := layout[section];
          if scrollPosition >= element.offsetTop && scrollPosition < element.offsetTop + element.offsetHeight {
            activeSection := section;
            break;
          }
        }
        assert NavIds[i..][1..] == NavIds[i + 1..];
      }
    }

    /**
     * A navigation click: scrolls to the section if it exists (the scrolling
     * itself is not modelled) and always closes the menu.
     */
    method ScrollToSection(sectionId: string, layout: Layout)
      requires Valid()
      modifies this
      ensures Valid() && !isMenuOpen && activeSection == old(activeSection)
    {
      isMenuOpen := false;
    }

    /** The menu button. */
    method ToggleMenu()
      requires Valid()
      modifies this
      ensures Valid() && isMenuOpen == !old(isMenuOpen) && activeSection == old(activeSection)
    {
      isMenuOpen := !isMenuOpen;
    }
  }
}
