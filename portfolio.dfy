/** The state machine of the portfolio page (`Portfolio` in app/page.tsx):
    its React state hooks, the event handlers that update them, and the values
    the markup derives from them.

    The abstract state is the datatype `PortfolioState`; `Step` says what one
    event does to it and `Run` folds a sequence of events. The class
    `PortfolioController` holds the same state in mutable fields, and each of
    its handler methods is proved to move its state exactly as `Step` does. */
module Portfolio {
  import opened Chrome

  /** Ids of the sections the intersection observer watches. */
  const SectionIds: set<string> := {"hero", "work", "about", "skills", "mentoring"}

  /** Number of entries in the testimonials list. */
  const TestimonialCount: nat := 2

  /** Number of accordion panels (experience entries 0, 1 and 2). */
  const PanelCount: nat := 3

  /** Number of entries in the skills list. */
  const SkillCount: nat := 7

  /** What the intersection observer delivers per watched section: the
      target's id and whether it currently intersects the viewport band. */
  datatype IntersectionEntry = IntersectionEntry(targetId: string, isIntersecting: bool)

  datatype PortfolioState = PortfolioState(
    isMenuOpen: bool,
    isDarkMode: bool,
    scrollY: int,
    visibleSections: set<string>,
    mousePosition: Point,
    isHoveringProject: bool,
    isHoveringText: bool,
    openDropdown: Option<int>,
    testimonialIndex: int)

  /** The values the state hooks start with. The first accordion panel starts
      open. */
  function Initial(): (s: PortfolioState)
  {
    PortfolioState(false, true, 0, {}, Point(0, 0), false, false, Some(0), 0)
  }

  /** The carousel index names an entry of the testimonials list, so
      `testimonials[testimonialIndex]` is defined. Every handler keeps this. */
  predicate IndexInRange(s: PortfolioState)
  {
    0 <= s.testimonialIndex < TestimonialCount
  }

  /** What every state reachable by the page's own events satisfies: the
      carousel index stays inside the list, an open panel is one of the three,
      and only watched sections are ever revealed. */
  predicate Inv(s: PortfolioState)
  {
    && IndexInRange(s)
    && (s.openDropdown.Some? ==> 0 <= s.openDropdown.value < PanelCount)
    && s.visibleSections <= SectionIds
  }

  lemma InitialInv()
    ensures Inv(Initial())
    ensures Initial().openDropdown == Some(0) && Initial().isDarkMode && Initial().visibleSections == {}
  {
  }

  // ---------------------------------------------------------------------
  // Reveal on scroll: the intersection callback as a one-way latch

  /** True when some entry reports `id` as intersecting. */
  predicate Reports(entries: seq<IntersectionEntry>, id: string)
  {
    exists k :: 0 <= k < |entries| && entries[k] == IntersectionEntry(id, true)
  }

  /** The visible set after the callback has handled `entries` in order: each
      intersecting entry adds its target's id, the others change nothing. */
  function Revealed(visible: set<string>, entries: seq<IntersectionEntry>): (revealed: set<string>)
    decreases |entries|
  {
    if entries == [] then visible
    else
      var before := Revealed(visible, entries[..|entries| - 1]);
      var e := entries[|entries| - 1];
      if e.isIntersecting then before + {e.targetId} else before
  }

  /** An id is visible after the callback iff it was visible before or some
      entry reported it intersecting. */
  lemma {:induction false} RevealedMembers(visible: set<string>, entries: seq<IntersectionEntry>, id: string)
    ensures id in Revealed(visible, entries) <==> id in visible || Reports(entries, id)
    decreases |entries|
  {
    if entries != [] {
      var init := entries[..|entries| - 1];
      RevealedMembers(visible, init, id);
      forall k | 0 <= k < |init|
        ensures init[k] == entries[k]
      {
      }
    }
  }

  /** The callback never removes a section from the visible set. */
  lemma RevealedGrows(visible: set<string>, entries: seq<IntersectionEntry>)
    ensures visible <= Revealed(visible, entries)
  {
    forall id | id in visible
      ensures id in Revealed(visible, entries)
    {
      RevealedMembers(visible, entries, id);
    }
  }

  /** A batch in which no entry intersects leaves the visible set unchanged. */
  lemma RevealedIgnoresNonIntersecting(visible: set<string>, entries: seq<IntersectionEntry>)
    requires forall k :: 0 <= k < |entries| ==> !entries[k].isIntersecting
    ensures Revealed(visible, entries) == visible
  {
    forall id
      ensures id in Revealed(visible, entries) <==> id in visible
    {
      RevealedMembers(visible, entries, id);
      forall k | 0 <= k < |entries|
        ensures entries[k] != IntersectionEntry(id, true)
      {
      }
    }
  }

  /** Delivering the same batch again changes nothing: re-adding an id that
      is already visible is a no-op. */
  lemma RevealedIdempotent(visible: set<string>, entries: seq<IntersectionEntry>)
    ensures Revealed(Revealed(visible, entries), entries) == Revealed(visible, entries)
  {
    var once := Revealed(visible, entries);
    forall id
      ensures id in Revealed(once, entries) <==> id in once
    {
      RevealedMembers(once, entries, id);
      RevealedMembers(visible, entries, id);
    }
  }

  /** Entries that come from watched sections only reveal watched sections. */
  lemma RevealedWithin(visible: set<string>, entries: seq<IntersectionEntry>, ids: set<string>)
    requires visible <= ids
    requires forall k :: 0 <= k < |entries| ==> entries[k].targetId in ids
    ensures Revealed(visible, entries) <= ids
  {
    forall id | id in Revealed(visible, entries)
      ensures id in ids
    {
      RevealedMembers(visible, entries, id);
      if id !in visible {
        var k :| 0 <= k < |entries| && entries[k] == IntersectionEntry(id, true);
        assert entries[k].targetId in ids;
      }
    }
  }

  // ---------------------------------------------------------------------
  // The testimonial carousel

  /** JavaScript's `%`: the remainder truncates toward zero, so it takes the
      sign of the dividend (unlike Dafny's Euclidean `%`). */
  function JsRemainder(a: int, n: int): (r: int)
    requires n > 0
    ensures a == (if a >= 0 then a / n else -((-a) / n)) * n + r
    ensures a >= 0 ==> 0 <= r < n
    ensures a < 0 ==> -n < r <= 0
  {
    if a >= 0 then a % n else -((-a) % n)
  }

  /** Why "previous" adds the list length before taking the remainder: in
      JavaScript `(0 - 1) % 2` is -1, not an index of the list. */
  lemma JsRemainderKeepsSign()
    ensures JsRemainder(0 - 1, TestimonialCount) == -1
    ensures JsRemainder(0 - 1 + TestimonialCount, TestimonialCount) == 1
  {
  }

  /** The "next" button: `(i + 1) % testimonials.length`. */
  function NextIndex(i: int): (next: int)
  {
    JsRemainder(i + 1, TestimonialCount)
  }

  /** The "previous" button: `(i - 1 + testimonials.length) % testimonials.length`. */
  function PrevIndex(i: int): (prev: int)
  {
    JsRemainder(i - 1 + TestimonialCount, TestimonialCount)
  }

  /** "Next" advances by one and wraps from the last testimonial to the first;
      "previous" steps back by one and wraps from the first to the last. Both
      keep the index inside the list. */
  lemma CarouselWraps(i: int)
    requires 0 <= i < TestimonialCount
    ensures NextIndex(i) == if i == TestimonialCount - 1 then 0 else i + 1
    ensures PrevIndex(i) == if i == 0 then TestimonialCount - 1 else i - 1
  {
  }

  /** Each carousel button undoes the other. */
  lemma CarouselRoundTrip(i: int)
    requires 0 <= i < TestimonialCount
    ensures 0 <= NextIndex(i) < TestimonialCount && 0 <= PrevIndex(i) < TestimonialCount
    ensures PrevIndex(NextIndex(i)) == i
    ensures NextIndex(PrevIndex(i)) == i
  {
    CarouselWraps(i);
    CarouselWraps(NextIndex(i));
    CarouselWraps(PrevIndex(i));
  }

  // ---------------------------------------------------------------------
  // The accordion

  /** A panel's toggle button: it closes the panel when it is the open one
      and otherwise opens it, which closes whichever panel was open. */
  function Toggled(open: Option<int>, panel: int): (toggled: Option<int>)
  {
    if open == Some(panel) then None else Some(panel)
  }

  /** After toggling `panel`, it is open iff it was closed, and no other panel
      is open. */
  lemma ToggledOpensOnlyPanel(open: Option<int>, panel: int, other: int)
    requires other != panel
    ensures Toggled(open, panel) == Some(panel) <==> open != Some(panel)
    ensures Toggled(open, panel) != Some(other)
  {
  }

  /** Toggling the same panel twice restores the accordion exactly when that
      panel was the open one or none was open; if another panel was open,
      the second toggle leaves all panels closed. */
  lemma ToggledTwice(open: Option<int>, panel: int)
    ensures Toggled(Toggled(open, panel), panel) == open <==> open == None || open == Some(panel)
    ensures open != None && open != Some(panel) ==> Toggled(Toggled(open, panel), panel) == None
  {
  }

  // ---------------------------------------------------------------------
  // Events and their effect

  /** The page's event handlers, one variant per handler. */
  datatype PortfolioEvent =
    | Scroll(scrollY: int)
    | MouseMove(clientX: int, clientY: int)
    | Intersect(entries: seq<IntersectionEntry>)
    | HoverProject(hovering: bool)
    | HoverText(hovering: bool)
    | ToggleDropdown(panel: int)
    | PrevTestimonial
    | NextTestimonial
    | ToggleTheme
    | ToggleMenu
    | CloseMenu

  /** What the page itself can deliver: the accordion has buttons for panels
      0 to 2 only, and the observer watches only the sections in SectionIds. */
  predicate FromPage(e: PortfolioEvent)
  {
    match e
    case ToggleDropdown(panel) => 0 <= panel < PanelCount
    case Intersect(entries) => forall k :: 0 <= k < |entries| ==> entries[k].targetId in SectionIds
    case _ => true
  }

  /** One handler invocation; each changes its own hook and nothing else. */
  function Step(s: PortfolioState, e: PortfolioEvent): (s': PortfolioState)
  {
    match e
    case Scroll(y) => s.(scrollY := y)
    case MouseMove(x, y) => s.(mousePosition := Point(x, y))
    case Intersect(entries) => s.(visibleSections := Revealed(s.visibleSections, entries))
    case HoverProject(h) => s.(isHoveringProject := h)
    case HoverText(h) => s.(isHoveringText := h)
    case ToggleDropdown(panel) => s.(openDropdown := Toggled(s.openDropdown, panel))
    case PrevTestimonial => s.(testimonialIndex := PrevIndex(s.testimonialIndex))
    case NextTestimonial => s.(testimonialIndex := NextIndex(s.testimonialIndex))
    case ToggleTheme => s.(isDarkMode := !s.isDarkMode)
    case ToggleMenu => s.(isMenuOpen := !s.isMenuOpen)
    case CloseMenu => s.(isMenuOpen := false)
  }

  /** The state after handling `events` in order. */
  function Run(s: PortfolioState, events: seq<PortfolioEvent>): (s': PortfolioState)
    decreases |events|
  {
    if events == [] then s else Run(Step(s, events[0]), events[1..])
  }

  lemma StepInv(s: PortfolioState, e: PortfolioEvent)
    requires Inv(s) && FromPage(e)
    ensures Inv(Step(s, e))
  {
    match e {
      case Intersect(entries) =>
        RevealedWithin(s.visibleSections, entries, SectionIds);
      case PrevTestimonial =>
        CarouselRoundTrip(s.testimonialIndex);
      case NextTestimonial =>
        CarouselRoundTrip(s.testimonialIndex);
      case _ =>
    }
  }

  /** Every state reachable from a valid one by page events is valid: in
      particular the carousel index never leaves [0, 2). */
  lemma {:induction false} RunInv(s: PortfolioState, events: seq<PortfolioEvent>)
    requires Inv(s)
    requires forall k :: 0 <= k < |events| ==> FromPage(events[k])
    ensures Inv(Run(s, events))
    decreases |events|
  {
    if events != [] {
      StepInv(s, events[0]);
      RunInv(Step(s, events[0]), events[1..]);
    }
  }

  /** True when the event is an intersection callback that reports `id`. */
  predicate RevealsSection(e: PortfolioEvent, id: string)
  {
    e.Intersect? && Reports(e.entries, id)
  }

  /** Over any sequence of events, a section is visible at the end iff it was
      visible at the start or some intersection callback reported it: the
      visible set only grows, and a section never reported stays hidden. */
  lemma {:induction false} RunVisibleSections(s: PortfolioState, events: seq<PortfolioEvent>, id: string)
    ensures id in Run(s, events).visibleSections <==>
            id in s.visibleSections || exists k :: 0 <= k < |events| && RevealsSection(events[k], id)
    decreases |events|
  {
    if events != [] {
      var e, rest := events[0], events[1..];
      RunVisibleSections(Step(s, e), rest, id);
      if e.Intersect? {
        RevealedMembers(s.visibleSections, e.entries, id);
      }
      if exists k :: 0 <= k < |rest| && RevealsSection(rest[k], id) {
        var k :| 0 <= k < |rest| && RevealsSection(rest[k], id);
        assert events[k + 1] == rest[k];
      }
      if exists k :: 0 <= k < |events| && RevealsSection(events[k], id) {
        var k :| 0 <= k < |events| && RevealsSection(events[k], id);
        if k > 0 {
          assert rest[k - 1] == events[k];
        }
      }
    }
  }

  /** The monotone half on its own: no sequence of events hides a section. */
  lemma RunVisibleGrows(s: PortfolioState, events: seq<PortfolioEvent>)
    ensures s.visibleSections <= Run(s, events).visibleSections
  {
    forall id | id in s.visibleSections
      ensures id in Run(s, events).visibleSections
    {
      RunVisibleSections(s, events, id);
    }
  }

  /** The last scroll event decides the scroll offset; without one it keeps
      its earlier value. */
  function LastScroll(start: int, events: seq<PortfolioEvent>): (scrollY: int)
    decreases |events|
  {
    if events == [] then start
    else if events[|events| - 1].Scroll? then events[|events| - 1].scrollY
    else LastScroll(start, events[..|events| - 1])
  }

  /** Handling one more event after a run is one more step. (ComingSoon has
      the same lemma for its own event type.) */
  lemma {:induction false} RunAppend(s: PortfolioState, events: seq<PortfolioEvent>, e: PortfolioEvent)
    ensures Run(s, events + [e]) == Step(Run(s, events), e)
    decreases |events|
  {
    if events != [] {
      assert (events + [e])[1..] == events[1..] + [e];
      RunAppend(Step(s, events[0]), events[1..], e);
    }
  }

  /** Scroll handling is last-write-wins, and the header style follows the
      last delivered offset. */
  lemma {:induction false} RunScrollIsLastWrite(s: PortfolioState, events: seq<PortfolioEvent>)
    ensures Run(s, events).scrollY == LastScroll(s.scrollY, events)
    ensures HeaderBackground(Run(s, events).scrollY) <==> LastScroll(s.scrollY, events) > 50
    decreases |events|
  {
    if events != [] {
      var init := events[..|events| - 1];
      assert events == init + [events[|events| - 1]];
      RunAppend(s, init, events[|events| - 1]);
      RunScrollIsLastWrite(s, init);
    }
  }

  /** The last text-hover event decides the text-hover flag; without one it
      keeps its earlier value. */
  function LastHoverText(start: bool, events: seq<PortfolioEvent>): (hovering: bool)
    decreases |events|
  {
    if events == [] then start
    else if events[|events| - 1].HoverText? then events[|events| - 1].hovering
    else LastHoverText(start, events[..|events| - 1])
  }

  /** The last project-hover event decides the project-hover flag. */
  function LastHoverProject(start: bool, events: seq<PortfolioEvent>): (hovering: bool)
    decreases |events|
  {
    if events == [] then start
    else if events[|events| - 1].HoverProject? then events[|events| - 1].hovering
    else LastHoverProject(start, events[..|events| - 1])
  }

  /** The last mousemove event decides the pointer position. */
  function LastPointer(start: Point, events: seq<PortfolioEvent>): (p: Point)
    decreases |events|
  {
    if events == [] then start
    else if events[|events| - 1].MouseMove? then
      Point(events[|events| - 1].clientX, events[|events| - 1].clientY)
    else LastPointer(start, events[..|events| - 1])
  }

  /** Hover enter/leave and pointer moves are last-write-wins: after any
      sequence of events each of the two hover flags and the pointer hold the
      value their last event delivered, and so the cursor follows them. */
  lemma {:induction false} RunHoverIsLastWrite(s: PortfolioState, events: seq<PortfolioEvent>)
    ensures Run(s, events).isHoveringText == LastHoverText(s.isHoveringText, events)
    ensures Run(s, events).isHoveringProject == LastHoverProject(s.isHoveringProject, events)
    ensures Run(s, events).mousePosition == LastPointer(s.mousePosition, events)
    decreases |events|
  {
    if events != [] {
      var init := events[..|events| - 1];
      assert events == init + [events[|events| - 1]];
      RunAppend(s, init, events[|events| - 1]);
      RunHoverIsLastWrite(s, init);
    }
  }

  /** The testimonial carousel: "next" then "previous", or the other way
      round, returns to the same testimonial and changes nothing else. */
  lemma CarouselStepsUndo(s: PortfolioState)
    requires Inv(s)
    ensures Run(s, [NextTestimonial, PrevTestimonial]) == s
    ensures Run(s, [PrevTestimonial, NextTestimonial]) == s
  {
    CarouselRoundTrip(s.testimonialIndex);
    assert [NextTestimonial, PrevTestimonial][1..] == [PrevTestimonial];
    assert [PrevTestimonial, NextTestimonial][1..] == [NextTestimonial];
  }

  /** The theme and menu buttons are involutions. */
  lemma TogglesUndo(s: PortfolioState)
    ensures Step(Step(s, ToggleTheme), ToggleTheme) == s
    ensures Step(Step(s, ToggleMenu), ToggleMenu) == s
    ensures !Step(s, CloseMenu).isMenuOpen
  {
  }

  // ---------------------------------------------------------------------
  // Derived view

  /** How far up and left of the pointer the ring is drawn: 50 over a
      project card (where it is enlarged), 25 elsewhere. */
  function RingRadius(isHoveringProject: bool): (radius: int)
  {
    if isHoveringProject then 50 else 25
  }

  /** The custom cursors the page draws, in document order: the ring when
      not over text, the text bar when over text. */
  function Cursors(s: PortfolioState): (drawn: seq<Cursor>)
  {
    DrawnIf(!s.isHoveringText, RingAt(s.mousePosition, RingRadius(s.isHoveringProject), s.isHoveringProject))
    + DrawnIf(s.isHoveringText, TextBarAt(s.mousePosition))
  }

  /** Exactly one custom cursor is drawn: the text bar iff the pointer is over
      text, otherwise the ring, offset by 50 over a project and 25 elsewhere. */
  lemma ExactlyOneCursor(s: PortfolioState)
    ensures |Cursors(s)| == 1
    ensures Cursors(s)[0].TextBar? <==> s.isHoveringText
    ensures s.isHoveringText ==>
              Cursors(s)[0] == TextBar(s.mousePosition.x - 2, s.mousePosition.y - 20)
    ensures !s.isHoveringText && s.isHoveringProject ==>
              Cursors(s)[0] == Ring(s.mousePosition.x - 50, s.mousePosition.y - 50, true)
    ensures !s.isHoveringText && !s.isHoveringProject ==>
              Cursors(s)[0] == Ring(s.mousePosition.x - 25, s.mousePosition.y - 25, false)
  {
  }

  /** Transition delay, in milliseconds, of the skill at `index`. */
  function SkillDelay(index: nat): (ms: nat)
  {
    200 + index * 100
  }

  /** The skills fade in one after another, 100 ms apart, from 200 ms for the
      first to 800 ms for the seventh. */
  lemma SkillDelaysStagger(i: nat, j: nat)
    requires i < j < SkillCount
    ensures SkillDelay(j) - SkillDelay(i) == 100 * (j - i)
    ensures SkillDelay(0) == 200 && SkillDelay(SkillCount - 1) == 800
  {
  }

  // ---------------------------------------------------------------------
  // The controller

  /** The page's state hooks as mutable fields; each method is one handler. */
  class PortfolioController {
    var isMenuOpen: bool
    var isDarkMode: bool
    var scrollY: int
    var visibleSections: set<string>
    var mousePosition: Point
    var isHoveringProject: bool
    var isHoveringText: bool
    var openDropdown: Option<int>
    var testimonialIndex: int

    /** The abstract value of the fields. */
    function State(): (s: PortfolioState)
      reads this
    {
      PortfolioState(isMenuOpen, isDarkMode, scrollY, visibleSections, mousePosition,
                     isHoveringProject, isHoveringText, openDropdown, testimonialIndex)
    }

    ghost predicate Valid()
      reads this
    {
      IndexInRange(State())
    }

    constructor ()
      ensures Valid() && State() == Initial()
    {
      isMenuOpen, isDarkMode, scrollY := false, true, 0;
      visibleSections, mousePosition := {}, Point(0, 0);
      isHoveringProject, isHoveringText := false, false;
      openDropdown, testimonialIndex := Some(0), 0;
    }

    /** The window's scroll listener. */
    method OnScroll(y: int)
      requires Valid()
      modifies this
      ensures Valid() && State() == Step(old(State()), Scroll(y))
    {
      scrollY := y;
    }

    /** The window's mousemove listener. */
    method OnMouseMove(clientX: int, clientY: int)
      requires Valid()
      modifies this
      ensures Valid() && State() == Step(old(State()), MouseMove(clientX, clientY))
    {
      mousePosition := Point(clientX, clientY);
    }

    /** The intersection observer's callback: walks the entries in order and
      adds every intersecting target to the visible set. */
    method OnIntersection(entries: seq<IntersectionEntry>)
      requires Valid()
      modifies this
      ensures Valid() && State() == Step(old(State()), Intersect(entries))
      ensures old(visibleSections) <= visibleSections
    {
      var visible := visibleSections;
      var i := 0;
      while i < |entries|
        invariant 0 <= i <= |entries|
        invariant visible == Revealed(visibleSections, entries[..i])
      {
        assert entries[..i + 1][..i] == entries[..i];
        if entries[i].isIntersecting {
          visible := visible + {entries[i].targetId};
        }
        i := i + 1;
      }
      assert entries[..i] == entries;
      RevealedGrows(visibleSections, entries);
      visibleSections := visible;
    }

    /** Pointer entering (true) or leaving (false) a project card. */
    method SetHoveringProject(hovering: bool)
      requires Valid()
      modifies this
      ensures Valid() && State() == Step(old(State()), HoverProject(hovering))
    {
      isHoveringProject := hovering;
    }

    /** Pointer entering (true) or leaving (false) a text element. */
    method SetHoveringText(hovering: bool)
      requires Valid()
      modifies this
      ensures Valid() && State() == Step(old(State()), HoverText(hovering))
    {
      isHoveringText := hovering;
    }

    /** The plus button of accordion panel `panel`. */
    method OnToggleDropdown(panel: int)
      requires Valid()
      modifies this
      ensures Valid() && State() == Step(old(State()), ToggleDropdown(panel))
      ensures openDropdown == Some(panel) <==> old(openDropdown) != Some(panel)
    {
      openDropdown := if openDropdown == Some(panel) then None else Some(panel);
    }

    /** The carousel's "previous testimonial" button. */
    method OnPrevTestimonial()
      requires Valid()
      modifies this
      ensures Valid() && State() == Step(old(State()), PrevTestimonial)
    {
      CarouselRoundTrip(testimonialIndex);
      testimonialIndex := JsRemainder(testimonialIndex - 1 + TestimonialCount, TestimonialCount);
    }

    /** The carousel's "next testimonial" button. */
    method OnNextTestimonial()
      requires Valid()
      modifies this
      ensures Valid() && State() == Step(old(State()), NextTestimonial)
    {
      CarouselRoundTrip(testimonialIndex);
      testimonialIndex := JsRemainder(testimonialIndex + 1, TestimonialCount);
    }

    /** Either theme button (navigation bar or open menu). */
    method OnToggleTheme()
      requires Valid()
      modifies this
      ensures Valid() && State() == Step(old(State()), ToggleTheme)
    {
      isDarkMode := !isDarkMode;
    }

    /** The hamburger button. */
    method OnToggleMenu()
      requires Valid()
      modifies this
      ensures Valid() && State() == Step(old(State()), ToggleMenu)
    {
      isMenuOpen := !isMenuOpen;
    }

    /** The menu's close button and each of its links. */
    method OnCloseMenu()
      requires Valid()
      modifies this
      ensures Valid() && State() == Step(old(State()), CloseMenu) && !isMenuOpen
    {
      isMenuOpen := false;
    }
  }
}
