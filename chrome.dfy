/** UI pieces shared by the portfolio page and the coming-soon page: the
    nullable value, pointer coordinates, the scroll threshold that switches
    the header style, and the two custom cursors with their pixel offsets. */
module Chrome {

  /** A value that may be absent; TypeScript's `T | null`. */
  datatype Option<T> = None | Some(value: T)

  /** Last pointer position in viewport pixels (`clientX`, `clientY`). */
  datatype Point = Point(x: int, y: int)

  /** A custom cursor as it is drawn: a ring or a thin text bar, each placed
      at a `left`/`top` offset; `enlarged` is the ring's `scale-150` state. */
  datatype Cursor =
    | Ring(left: int, top: int, enlarged: bool)
    | TextBar(left: int, top: int)

  /** Scroll offset beyond which the navigation bar gets its background. */
  const HeaderThreshold: int := 50

  /** The header is styled once the page has scrolled strictly past the
      threshold. It depends on the current offset alone, so there is no
      hysteresis. */
  function HeaderBackground(scrollY: int): (styled: bool)
  {
    scrollY > HeaderThreshold
  }

  /** The boundary is exact: 50 leaves the header transparent, 51 styles it. */
  lemma HeaderBackgroundBoundary()
    ensures !HeaderBackground(50) && HeaderBackground(51)
  {
  }

  /** Scrolling further down never removes the header background. */
  lemma HeaderBackgroundMonotone(y1: int, y2: int)
    requires y1 <= y2 && HeaderBackground(y1)
    ensures HeaderBackground(y2)
  {
  }

  /** The ring cursor centred on the pointer: it is drawn `radius` pixels
      up and left of the pointer. */
  function RingAt(mouse: Point, radius: int, enlarged: bool): (c: Cursor)
  {
    Ring(mouse.x - radius, mouse.y - radius, enlarged)
  }

  /** The text-bar cursor: 2 pixels left of and 20 pixels above the pointer. */
  function TextBarAt(mouse: Point): (c: Cursor)
  {
    TextBar(mouse.x - 2, mouse.y - 20)
  }

  /** A conditional element of the page: drawn once when `shown`, else not. */
  function DrawnIf(shown: bool, c: Cursor): (drawn: seq<Cursor>)
  {
    if shown then [c] else []
  }
}
