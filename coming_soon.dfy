/** The state machine of the coming-soon page (`ComingSoon` in
    app/coming-soon/page.tsx) and of its animation loader
    (`ComingSoonLottie`). It shares the scroll threshold and the cursor shapes
    with the portfolio page; unlike that page it draws a custom cursor only on
    large screens and never enlarges the ring. */
module ComingSoon {
  import opened Chrome

  /** The narrowest window, in CSS pixels, that counts as a large screen. */
  const LargeScreenWidth: int := 1024

  /** The resize listener's test on `window.innerWidth`. */
  function IsLargeScreen(innerWidth: int): (large: bool)
  {
    innerWidth >= LargeScreenWidth
  }

  /** The boundary is exact: 1023 pixels is small and 1024 is large. */
  lemma LargeScreenBoundary()
    ensures !IsLargeScreen(1023) && IsLargeScreen(1024)
  {
  }

  datatype ComingSoonState = ComingSoonState(
    isDarkMode: bool,
    scrollY: int,
    mousePosition: Point,
    isHoveringText: bool,
    isLargeScreen: bool,
    isMenuOpen: bool)

  /** The values the state hooks start with, before the mount-time screen
      check has run. */
  function Initial(): (s: ComingSoonState)
  {
    ComingSoonState(true, 0, Point(0, 0), false, true, false)
  }

  /** The page's event handlers. `Resize` is both the mount-time screen
      check and the window's resize listener. */
  datatype ComingSoonEvent =
    | Scroll(scrollY: int)
    | MouseMove(clientX: int, clientY: int)
    | Resize(innerWidth: int)
    | HoverText(hovering: bool)
    | ToggleTheme
    | ToggleMenu
    | CloseMenu

  function Step(s: ComingSoonState, e: ComingSoonEvent): (s': ComingSoonState)
  {
    match e
    case Scroll(y) => s.(scrollY := y)
    case MouseMove(x, y) => s.(mousePosition := Point(x, y))
    case Resize(w) => s.(isLargeScreen := IsLargeScreen(w))
    case HoverText(h) => s.(isHoveringText := h)
    case ToggleTheme => s.(isDarkMode := !s.isDarkMode)
    case ToggleMenu => s.(isMenuOpen := !s.isMenuOpen)
    case CloseMenu => s.(isMenuOpen := false)
  }

  function Run(s: ComingSoonState, events: seq<ComingSoonEvent>): (s': ComingSoonState)
    decreases |events|
  {
    if events == [] then s else Run(Step(s, events[0]), events[1..])
  }

  /** The width reported by the last resize event, if any. */
  function LastWidth(events: seq<ComingSoonEvent>): (width: Option<int>)
    decreases |events|
  {
    if events == [] then None
    else if events[|events| - 1].Resize? then Some(events[|events| - 1].innerWidth)
    else LastWidth(events[..|events| - 1])
  }

  /** Handling one more event after a run is one more step. (Portfolio has
      the same lemma for its own event type.) */
  lemma {:induction false} RunAppend(s: ComingSoonState, events: seq<ComingSoonEvent>, e: ComingSoonEvent)
    ensures Run(s, events + [e]) == Step(Run(s, events), e)
    decreases |events|
  {
    if events != [] {
      assert (events + [e])[1..] == events[1..] + [e];
      RunAppend(Step(s, events[0]), events[1..], e);
    }
  }

  /** The screen flag follows the last reported width; with no resize event
      the flag keeps its value. */
  lemma {:induction false} RunScreenIsLastWidth(s: ComingSoonState, events: seq<ComingSoonEvent>)
    ensures Run(s, events).isLargeScreen ==
              match LastWidth(events)
              case None => s.isLargeScreen
              case Some(w) => w >= 1024
    decreases |events|
  {
    if events != [] {
      var init := events[..|events| - 1];
      assert events == init + [events[|events| - 1]];
      RunAppend(s, init, events[|events| - 1]);
      RunScreenIsLastWidth(s, init);
    }
  }

  /** The menu: the hamburger flips it, the close button and every menu link
      close it whatever it was, and the theme button flips the theme, so
      pressing it twice restores it. */
  lemma MenuAndTheme(s: ComingSoonState)
    ensures Step(s, ToggleMenu).isMenuOpen == !s.isMenuOpen
    ensures !Step(s, CloseMenu).isMenuOpen
    ensures Step(Step(s, CloseMenu), CloseMenu) == Step(s, CloseMenu)
    ensures Step(Step(s, ToggleTheme), ToggleTheme) == s
    ensures Initial().isDarkMode && !Initial().isMenuOpen
  {
  }

  /** The custom cursors the page draws: none on a small screen; on a large
      one the ring (always 25 pixels up and left, never enlarged) when not
      over text, the text bar when over text. */
  function Cursors(s: ComingSoonState): (drawn: seq<Cursor>)
  {
    DrawnIf(s.isLargeScreen && !s.isHoveringText, RingAt(s.mousePosition, 25, false))
    + DrawnIf(s.isLargeScreen && s.isHoveringText, TextBarAt(s.mousePosition))
  }

  /** Cursor gating: no custom cursor on a small screen, exactly one on a
      large screen, chosen by whether the pointer is over text. */
  lemma CursorGating(s: ComingSoonState)
    ensures |Cursors(s)| == if s.isLargeScreen then 1 else 0
    ensures s.isLargeScreen && s.isHoveringText ==>
              Cursors(s)[0] == TextBar(s.mousePosition.x - 2, s.mousePosition.y - 20)
    ensures s.isLargeScreen && !s.isHoveringText ==>
              Cursors(s)[0] == Ring(s.mousePosition.x - 25, s.mousePosition.y - 25, false)
  {
  }

  /** The page's state hooks as mutable fields; each method is one handler. */
  class ComingSoonController {
    var isDarkMode: bool
    var scrollY: int
    var mousePosition: Point
    var isHoveringText: bool
    var isLargeScreen: bool
    var isMenuOpen: bool

    function State(): (s: ComingSoonState)
      reads this
    {
      ComingSoonState(isDarkMode, scrollY, mousePosition, isHoveringText, isLargeScreen, isMenuOpen)
    }

    constructor ()
      ensures State() == Initial()
    {
      isDarkMode, scrollY, mousePosition := true, 0, Point(0, 0);
      isHoveringText, isLargeScreen, isMenuOpen := false, true, false;
    }

    method OnScroll(y: int)
      modifies this
      ensures State() == Step(old(State()), Scroll(y))
    {
      scrollY := y;
    }

    method OnMouseMove(clientX: int, clientY: int)
      modifies this
      ensures State() == Step(old(State()), MouseMove(clientX, clientY))
    {
      mousePosition := Point(clientX, clientY);
    }

    /** The screen-size check, run at mount and on every resize. */
    method CheckScreenSize(innerWidth: int)
      modifies this
      ensures State() == Step(old(State()), Resize(innerWidth))
      ensures isLargeScreen <==> innerWidth >= 1024
    {
      isLargeScreen := innerWidth >= LargeScreenWidth;
    }

    /** Pointer entering (true) or leaving (false) a text element. */
    method SetHoveringText(hovering: bool)
      modifies this
      ensures State() == Step(old(State()), HoverText(hovering))
    {
      isHoveringText := hovering;
    }

    /** Either theme button (navigation bar or open menu). */
    method OnToggleTheme()
      modifies this
      ensures State() == Step(old(State()), ToggleTheme)
      ensures isDarkMode == !old(isDarkMode)
    {
      isDarkMode := !isDarkMode;
    }

    /** The hamburger button. */
    method OnToggleMenu()
      modifies this
      ensures State() == Step(old(State()), ToggleMenu)
      ensures isMenuOpen == !old(isMenuOpen)
    {
      isMenuOpen := !isMenuOpen;
    }

    /** The menu's close button and each of its links. */
    method OnCloseMenu()
      modifies this
      ensures State() == Step(old(State()), CloseMenu) && !isMenuOpen
    {
      isMenuOpen := false;
    }
  }

  // ---------------------------------------------------------------------
  // The animation loader

  /** The parsed JSON payload as far as rendering cares: the loader tests it
      with JavaScript truthiness, so null, false, 0 and "" count as absent. */
  datatype Payload =
    | Null
    | Bool(b: bool)
    | Number(n: int)
    | Text(s: string)
    | Structured

  predicate Truthy(p: Payload)
  {
    match p
    case Null => false
    case Bool(b) => b
    case Number(n) => n != 0
    case Text(t) => t != ""
    case Structured => true
  }

  /** What the loader renders: a pulsing placeholder box, or the looping,
      autoplaying animation of the loaded payload. */
  datatype LoaderView =
    | Placeholder
    | Animation(data: Payload, loop: bool, autoplay: bool)

  function Render(animationData: Payload): (view: LoaderView)
  {
    if !Truthy(animationData) then Placeholder else Animation(animationData, true, true)
  }

  /** The placeholder is shown exactly while no usable payload is loaded; once
      an animation document (a JSON object) has loaded, the animation plays,
      looping and autoplaying. */
  lemma RenderPlaceholderIff(animationData: Payload)
    ensures Render(animationData).Placeholder? <==> !Truthy(animationData)
    ensures Render(Null).Placeholder?
    ensures Render(Structured) == Animation(Structured, true, true)
    ensures Render(animationData).Animation? ==>
              Render(animationData).data == animationData && Render(animationData).loop && Render(animationData).autoplay
  {
  }

  /** The loader's one state hook. */
  class LottieLoader {
    var animationData: Payload

    constructor ()
      ensures animationData == Null && Render(animationData) == Placeholder
    {
      animationData := Null;
    }

    /** The fetch resolved and its body parsed: the payload is stored. */
    method OnLoaded(data: Payload)
      modifies this
      ensures animationData == data
      ensures Truthy(data) ==> Render(animationData) == Animation(data, true, true)
    {
      animationData := data;
    }

    /** The fetch or the parse failed: the error is logged and the state is
        left as it was, so the placeholder stays. */
    method OnLoadFailed()
      modifies this
      ensures animationData == old(animationData)
    {
    }
  }
}
