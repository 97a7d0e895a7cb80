# Portfolio site UI controllers, modelled in Dafny

The site has two interactive pages: the portfolio page (`Portfolio` in
`app/page.tsx`) and the coming-soon page (`ComingSoon` in
`app/coming-soon/page.tsx`, with its animation loader `ComingSoonLottie`).
Each keeps a handful of React state hooks that its event handlers overwrite.
The markup then derives a few values from those hooks: the header style, the
custom cursor and where it is drawn, and the sections revealed on scroll.

This project models that state machine:

- `chrome.dfy` (module `Chrome`) holds what both pages share: the header
  threshold (`scrollY > 50`), pointer coordinates, and the two cursor shapes
  with their pixel offsets.
- `portfolio.dfy` (module `Portfolio`) holds the portfolio page. Its nine
  hooks form the datatype `PortfolioState`. One datatype variant per handler
  forms `PortfolioEvent`. `Step` gives the effect of one event and `Run`
  folds a sequence of events. The class `PortfolioController` keeps the same
  hooks in mutable fields, and each handler method is proved to change its
  state exactly as `Step` does. The pure layer covers the reveal-on-scroll
  latch (`Revealed`), the carousel arithmetic with JavaScript's truncating
  `%` (`JsRemainder`, `NextIndex`, `PrevIndex`), the accordion toggle
  (`Toggled`), the cursor choice (`Cursors`) and the skill fade-in delays
  (`SkillDelay`).
- `coming_soon.dfy` (module `ComingSoon`) holds the smaller coming-soon
  controller. It adds the large-screen flag that gates the custom cursor.
  The class `LottieLoader` holds the loader's state, which goes from no
  payload to a loaded payload.

Every sequence of the page's own events, starting from the initial state,
keeps three facts, proved in
`Portfolio.RunInv` and `Portfolio.RunVisibleSections`:

- the carousel index stays in [0, 2);
- an open accordion panel is one of the three;
- the visible set only grows, and it holds exactly the ids some
  intersection callback reported.

Three behaviours of the code worth knowing:

- The coming-soon page computes a `targetDate` 30 days ahead
  (`app/coming-soon/page.tsx:56-57`) but never reads it; no timer runs on it.
- The hover state is two independent flags, `isHoveringProject` and
  `isHoveringText`. Both can be true at once; the text flag then decides
  the cursor.
- Toggling the same accordion panel twice restores the accordion only when
  that panel was the open one or none was open. If another panel was open,
  the first toggle closes that other one, so the pair ends with all panels
  closed (`Portfolio.ToggledTwice`).

## Model

| member | source | states |
|---|---|---|
| `Chrome.HeaderBackgroundBoundary` | app/page.tsx:77 | the header is styled iff `scrollY > 50`: 50 leaves it transparent, 51 styles it |
| `Chrome.HeaderBackgroundMonotone` | app/coming-soon/page.tsx:87 | on both pages, scrolling further down never removes the header background |
| `Portfolio.InitialInv` | app/page.tsx:10-23 | the initial state is valid, with the first accordion panel open, dark mode on and no section visible |
| `Portfolio.RevealedMembers` | app/page.tsx:58-64 | after the intersection callback, an id is visible iff it was visible before or some entry reported it intersecting |
| `Portfolio.RevealedGrows` | app/page.tsx:58-64 | the callback never removes an id from the visible set |
| `Portfolio.RevealedIgnoresNonIntersecting` | app/page.tsx:60-61 | a batch with no intersecting entry leaves the visible set unchanged |
| `Portfolio.RevealedIdempotent` | app/page.tsx:61 | delivering the same batch again changes nothing; re-adding a visible id does nothing |
| `Portfolio.RevealedWithin` | app/page.tsx:66-72 | entries from the observed sections reveal only observed sections |
| `Portfolio.JsRemainder` | app/page.tsx:919 | JavaScript `%`: `a == n * trunc(a / n) + r`, with `r` in [0, n) for a non-negative dividend and in (-n, 0] for a negative one, which fixes `r` exactly |
| `Portfolio.JsRemainderKeepsSign` | app/page.tsx:919 | without adding the list length, "previous" from 0 would give -1; with it, it gives 1 |
| `Portfolio.CarouselWraps` | app/page.tsx:919-935 | "next" advances by one and wraps from the last testimonial to the first; "previous" steps back and wraps from the first to the last |
| `Portfolio.CarouselRoundTrip` | app/page.tsx:919-935 | both buttons keep the index in [0, 2), and each undoes the other |
| `Portfolio.ToggledOpensOnlyPanel` | app/page.tsx:650-657 | after toggling panel i, i is open iff it was closed before, and no other panel is open |
| `Portfolio.ToggledTwice` | app/page.tsx:650 | toggling i twice restores the accordion iff i was open or none was; otherwise all panels end closed |
| `Portfolio.StepInv` | app/page.tsx:33-935 | every handler the page can invoke keeps the state invariant: scroll, pointer and intersection (33-75), theme and menu (142-198), accordion (650, 700, 750), carousel (919, 935) |
| `Portfolio.RunInv` | app/page.tsx:17-23 | from a valid state, any sequence of page events keeps the carousel index in range, the open panel among the three, and the visible set among the watched sections |
| `Portfolio.RunVisibleSections` | app/page.tsx:58-64 | over any event sequence, a section ends visible iff it started visible or some callback reported it intersecting |
| `Portfolio.RunVisibleGrows` | app/page.tsx:58-64 | no event sequence ever hides a revealed section |
| `Portfolio.RunScrollIsLastWrite` | app/page.tsx:34-36 | the scroll offset after any event sequence is the one the last scroll event delivered, and the header style follows it |
| `Portfolio.RunHoverIsLastWrite` | app/page.tsx:43-46 | after any event sequence, the pointer, the text-hover flag and the project-hover flag each hold the value of their last event, or their earlier value if none came |
| `Portfolio.CarouselStepsUndo` | app/page.tsx:915-939 | "next" then "previous", or the other order, restores the whole state |
| `Portfolio.TogglesUndo` | app/page.tsx:142-198 | the theme and menu buttons are involutions, and the menu's close button always closes it |
| `Portfolio.ExactlyOneCursor` | app/page.tsx:84-125 | exactly one custom cursor is drawn: the text bar at (x-2, y-20) iff over text; otherwise the ring at offset 50 (enlarged) over a project and 25 elsewhere |
| `Portfolio.SkillDelaysStagger` | app/page.tsx:809-823 | the seven skills fade in 100 ms apart, from 200 ms to 800 ms |
| `Portfolio.PortfolioController.constructor` | app/page.tsx:10-23 | the controller starts in the initial state |
| `Portfolio.PortfolioController.OnScroll` | app/page.tsx:34-36 | stores the scroll offset and changes nothing else |
| `Portfolio.PortfolioController.OnMouseMove` | app/page.tsx:43-46 | stores the pointer position and changes nothing else |
| `Portfolio.PortfolioController.OnIntersection` | app/page.tsx:58-64 | walks the entries in order, adding each intersecting target, for any entries delivered; the new visible set is `Revealed` of the old one and contains it |
| `Portfolio.PortfolioController.SetHoveringProject` | app/page.tsx:408-409 | project-card enter and leave overwrite the project-hover flag |
| `Portfolio.PortfolioController.SetHoveringText` | app/page.tsx:314-315 | text enter and leave overwrite the text-hover flag |
| `Portfolio.PortfolioController.OnToggleDropdown` | app/page.tsx:646-653 | the panel becomes open iff it was not the open one |
| `Portfolio.PortfolioController.OnPrevTestimonial` | app/page.tsx:919 | moves to `(i - 1 + 2) % 2` and keeps the index in range |
| `Portfolio.PortfolioController.OnNextTestimonial` | app/page.tsx:935 | moves to `(i + 1) % 2` and keeps the index in range |
| `Portfolio.PortfolioController.OnToggleTheme` | app/page.tsx:142 | negates the dark-mode flag |
| `Portfolio.PortfolioController.OnToggleMenu` | app/page.tsx:154 | negates the menu flag |
| `Portfolio.PortfolioController.OnCloseMenu` | app/page.tsx:198-218 | the close button and each menu link leave the menu closed |
| `ComingSoon.LargeScreenBoundary` | app/coming-soon/page.tsx:80 | a large screen is `innerWidth >= 1024`: 1023 is small, 1024 is large |
| `ComingSoon.RunScreenIsLastWidth` | app/coming-soon/page.tsx:78-85 | after any event sequence the screen flag follows the last reported width, or keeps its value if none was reported |
| `ComingSoon.MenuAndTheme` | app/coming-soon/page.tsx:142-215 | the hamburger flips the menu; the close button and links close it whatever it was; toggling the theme twice restores it; dark mode starts on and the menu closed |
| `ComingSoon.CursorGating` | app/coming-soon/page.tsx:96-125 | no custom cursor on a small screen; on a large one exactly one, the text bar at (x-2, y-20) iff over text, else the ring at (x-25, y-25), never enlarged |
| `ComingSoon.RenderPlaceholderIff` | app/coming-soon/page.tsx:21-43 | the placeholder is rendered iff the stored payload is falsy (null before loading); a loaded animation document plays, looping and autoplaying |
| `ComingSoon.ComingSoonController.constructor` | app/coming-soon/page.tsx:48-53 | the controller starts in the initial state |
| `ComingSoon.ComingSoonController.OnScroll` | app/coming-soon/page.tsx:60-62 | stores the scroll offset and changes nothing else |
| `ComingSoon.ComingSoonController.OnMouseMove` | app/coming-soon/page.tsx:69-72 | stores the pointer position and changes nothing else |
| `ComingSoon.ComingSoonController.CheckScreenSize` | app/coming-soon/page.tsx:79-82 | sets the large-screen flag iff the width is at least 1024 |
| `ComingSoon.ComingSoonController.SetHoveringText` | app/coming-soon/page.tsx:217-218 | text enter and leave overwrite the text-hover flag |
| `ComingSoon.ComingSoonController.OnToggleTheme` | app/coming-soon/page.tsx:142 | negates the dark-mode flag |
| `ComingSoon.ComingSoonController.OnToggleMenu` | app/coming-soon/page.tsx:152 | negates the menu flag |
| `ComingSoon.ComingSoonController.OnCloseMenu` | app/coming-soon/page.tsx:195-215 | the close button and each menu link leave the menu closed |
| `ComingSoon.LottieLoader.constructor` | app/coming-soon/page.tsx:11 | the loader starts with no payload, and the placeholder shows |
| `ComingSoon.LottieLoader.OnLoaded` | app/coming-soon/page.tsx:15-17 | stores the parsed payload; a truthy payload is rendered as the animation |
| `ComingSoon.LottieLoader.OnLoadFailed` | app/coming-soon/page.tsx:18 | a failed fetch or parse leaves the payload as it was |

## Left out

- Markup, Tailwind class strings, copy text, images and links: these are presentation only.
- The intersection geometry (threshold 0.1, a root margin of -10% top and bottom): a browser primitive. The model takes the boolean it delivers per section id.
- Subscribing and unsubscribing the window listeners, and disconnecting the observer: runtime plumbing with no state. This includes the cleanup at app/page.tsx:49, which removes a "scroll" listener where the mousemove listener was meant.
- The fetch of the animation file and its JSON parsing: network I/O. Only the stored result, or its absence after a failure, is modelled.
- `targetDate` (app/coming-soon/page.tsx:56-57): a date computed at each render and never read, so it has no effect on any state or view.
- Scroll offsets and pointer coordinates are browser floating-point numbers; the model uses integers.
- `ComingSoon.Truthy`: models JavaScript truthiness for null, booleans, integers, strings and structured values. It does not model NaN or -0.
- app/footer/page.tsx, app/layout.tsx and next.config.ts: a resize flag, a constant theme, page metadata and build settings, with no behaviour of the core.
- React's scheduling, that is, state updates batched until the next render: each handler's effect is modelled as applied at once, in order.
