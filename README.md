# Retro desktop and dashboard state, in Dafny

This project models the two pieces of real state logic in a nostalgia-themed
React front end:

- **The Windows 7 desktop** (`RetroWindows7`). The desktop keeps an ordered
  table of windows `{id, title, pos, zIndex}`. Closing a window filters it out
  of the table. Focusing a window gives it the largest zIndex plus one. Each
  window also keeps its own drag state (`position`, `isDragging`,
  `dragOffset`), driven by mouse-down, mouse-move and mouse-up.
- **The Xbox dashboard carousel** (`XboxDashboard`). It has a fixed table of
  five slides and an active index that starts at 2 ("games"). There are two
  containers of navigation buttons. Clicking a button sets the index and
  scrolls the viewport to `slideWidth * index`. The buttons of slides
  `0..index` then move to the left container and the rest to the right one.

Files:

- `wrappers.dfy`: `Option`.
- `geometry.dfy`, module `Geometry`: screen points and their sum and difference.
- `window_table.dfy`, module `WindowTable`: the window records, `Close`,
  `Focus` and `MaxZ` as pure functions over `seq<WindowRecord>`, and lemmas.
  The source also writes these as list transforms that return a new array.
- `window_drag.dfy`, module `WindowDrag`: the drag state machine.
  `Press`, `Drag` and `Release` are functions on a `DragState` value, and
  `Run` replays a sequence of mouse events. The class `Window` holds the
  three mutable fields. Each event handler is proved to update them exactly
  as the matching function says.
- `carousel.dfy`, module `Carousel`: the slide table, the buttons, `Partition`
  and `ScrollOffset`. The class `Dashboard` holds `currentIndex`, `left` and
  `right`. Its `MoveButtons` keeps the source's clear-then-append loops and is
  proved against `Partition`.

Inputs the browser supplies become parameters:

- The two `closest(...)` hit-tests become a `Target`: `Content` for a match
  of `.window-content`, `Controls` for a match of `.window-controls`, and
  `Chrome` otherwise. The part of the window that was pressed is a `Region`:
  the title bar, the content area or the control buttons. `HitTest` maps a
  region to the target the handler is written for. `HitTestAsWritten` maps it
  to what the markup actually produces (see "## Findings").
- `getBoundingClientRect()` becomes `rect: Option<Point>`, the window's
  top-left corner. It is `None` when the element is not mounted. The source
  then still sets `isDragging`, but it leaves the offset alone and does not
  focus the window. The model does the same.
- `offsetWidth` becomes `slideWidth: nat`. The `scrollTo` call becomes the
  returned offset.

Each button carries the index its click handler passes on. The left buttons
are rendered from `slides.slice(0, 3)` and pass 0, 1, 2. The right ones are
rendered from `slides.slice(3)` and pass `index + 3`, that is 3 and 4. The
buttons keep these handlers when `moveButtons` moves them between containers.

In `moveButtons`, `appendChild` of a button that does not exist throws. That
happens for `index >= 5` and for `index < -1`. The model reports it as
`ok == false`, together with what was appended before the throw. An index of
-1 is accepted and puts every button on the right.

## Model

| member | source | states |
|---|---|---|
| WindowTable.Close | src/components/RetroWindows7.tsx:202-204 | the result holds exactly the windows of the input whose id differs from the closed id, and is no longer than the input |
| WindowTable.CloseConcat | src/components/RetroWindows7.tsx:203 | closing distributes over concatenation, so survivors keep their relative order |
| WindowTable.CloseAbsent | src/components/RetroWindows7.tsx:203 | closing an id that no window has returns the list unchanged |
| WindowTable.CloseIdempotent | src/components/RetroWindows7.tsx:203 | closing the same id twice gives the same list as closing it once |
| WindowTable.CloseRemovesOne | src/components/RetroWindows7.tsx:203 | on a list with unique ids, closing a present id removes exactly one window |
| WindowTable.CloseWellFormed | src/components/RetroWindows7.tsx:203 | closing keeps ids unique and zIndex values distinct |
| WindowTable.MaxZ | src/components/RetroWindows7.tsx:207 | the result is the zIndex of some window and no window has a larger one |
| WindowTable.Focus | src/components/RetroWindows7.tsx:206-209 | same length, ids, titles, positions and order; windows with another id are unchanged; the focused window's new zIndex is one more than the maximum zIndex before the call; afterwards it is strictly above every window with another id |
| WindowTable.FocusAbsent | src/components/RetroWindows7.tsx:208 | focusing an id that no window has returns the list unchanged |
| WindowTable.FocusWellFormed | src/components/RetroWindows7.tsx:206-209 | focusing keeps ids unique and zIndex values distinct |
| WindowTable.TopmostSurvivesClose | src/components/RetroWindows7.tsx:202-209 | a window that is above all others stays above all others when some other window is closed |
| WindowTable.InitialWindowsShape | src/components/RetroWindows7.tsx:186-200 | the initial desktop has ids 1..5 and zIndex 1..5, with unique ids and distinct zIndex values |
| WindowTable.FocusScenario | src/components/RetroWindows7.tsx:206-209 | on the initial desktop, focusing window 1 gives zIndex 6, 2, 3, 4, 5 and keeps the ids 1..5 in order |
| WindowDrag.Press | src/components/RetroWindows7.tsx:21-33 | a press whose target is content or controls changes nothing and does not focus; a press on the chrome starts a drag; it requests focus exactly when the chrome was hit and the rectangle is known, and then the stored offset is pointer minus corner; otherwise the offset is unchanged; the position never changes |
| WindowDrag.HitTestAsWritten | src/components/RetroWindows7.tsx:22-23 | with the markup as written, no press is classified as controls, and only the content area is classified as content |
| WindowDrag.HitTest | src/components/RetroWindows7.tsx:22-23 | with the intended markup, only the title bar is chrome and exactly the control buttons are controls |
| WindowDrag.ControlPressAsWritten | src/components/RetroWindows7.tsx:22-31 | as written, a press on a control button starts a drag, stores pointer minus corner as the offset and requests focus |
| WindowDrag.ControlPressIgnored | src/components/RetroWindows7.tsx:22-23 | with the intended hit-test, a press on a control button leaves the state unchanged and does not focus |
| WindowDrag.Drag | src/components/RetroWindows7.tsx:35-40 | while dragging, position plus offset equals the pointer; the dragging flag and offset are unchanged; when not dragging, nothing changes |
| WindowDrag.Release | src/components/RetroWindows7.tsx:42-44 | the drag ends and position and offset are unchanged |
| WindowDrag.ReleaseIdempotent | src/components/RetroWindows7.tsx:42-44 | releasing twice is the same as releasing once |
| WindowDrag.DragScenario | src/components/RetroWindows7.tsx:24-39 | a press at (100,100) on a window at (50,50) stores offset (50,50), and a move to (120,130) puts the window at (70,80) |
| WindowDrag.MovesFollowPointer | src/components/RetroWindows7.tsx:35-40 | during a drag, any run of moves leaves the window at the last pointer minus the stored offset, with flag and offset unchanged |
| WindowDrag.DragTranslates | src/components/RetroWindows7.tsx:21-40 | a press on the chrome followed by moves puts the window at the rectangle's corner plus the pointer's displacement since the press; when that corner is the window's position, the window shifts by exactly the pointer's displacement |
| WindowDrag.IdleIgnoresMoves | src/components/RetroWindows7.tsx:36 | when no drag is active, any run of moves and releases leaves the state unchanged |
| WindowDrag.Window.constructor | src/components/RetroWindows7.tsx:15-17 | a new window sits at its initial position, is not dragging and has offset (0,0) |
| WindowDrag.Window.HandleMouseDown | src/components/RetroWindows7.tsx:21-33 | the new fields and the focus request are those Press gives for the pressed region, classified by the intended hit-test |
| WindowDrag.Window.HandleMouseMove | src/components/RetroWindows7.tsx:35-40 | the new fields are those given by Drag |
| WindowDrag.Window.HandleMouseUp | src/components/RetroWindows7.tsx:42-44 | the new fields are those given by Release |
| Carousel.Partition | src/components/XboxDashboard.tsx:41-46 | left followed by right is the whole sequence; left has index+1 elements and right has the remaining N-index-1 |
| Carousel.PartitionPlaces | src/components/XboxDashboard.tsx:41-46 | element k is on the left at position k when k <= index, otherwise on the right at position k-index-1 |
| Carousel.PartitionStable | src/components/XboxDashboard.tsx:35-46 | partitioning the concatenation of a layout again at the same index gives the same layout |
| Carousel.PartitionScenario | src/components/XboxDashboard.tsx:41-46 | with five buttons and index 2 the groups are [0,1,2] and [3,4] |
| Carousel.ButtonWiring | src/components/XboxDashboard.tsx:59-91 | the k-th button in document order carries the id of slide k and passes index k to the click handler |
| Carousel.ButtonTargetsInRange | src/components/XboxDashboard.tsx:60-86 | every button passes an index between 0 and 4 |
| Carousel.InitialLayout | src/components/XboxDashboard.tsx:12-18 | the statically rendered groups slice(0,3) and slice(3) equal the partition at the initial index 2 |
| Carousel.ScrollOffset | src/components/XboxDashboard.tsx:21-27 | with a positive slide width the offset is a whole number of slide widths, and dividing it by the width gives back the slide index |
| Carousel.ScrollOffsetStart | src/components/XboxDashboard.tsx:21-27 | the first slide is at offset 0 |
| Carousel.ScrollOffsetMonotone | src/components/XboxDashboard.tsx:21-27 | the offset never decreases as the index grows |
| Carousel.ScrollOffsetDistinct | src/components/XboxDashboard.tsx:21-27 | with a positive slide width, a larger index gives a strictly larger offset |
| Carousel.Dashboard.constructor | src/components/XboxDashboard.tsx:12-18 | starts at index 2 with the static groups; the moveButtons call made on mount leaves them unchanged; the dashboard invariant holds |
| Carousel.Dashboard.MoveButtons | src/components/XboxDashboard.tsx:32-48 | succeeds exactly when -1 <= index < N, and then the containers hold the partition of the old document order at index; otherwise right is empty and left holds what was appended before the throw |
| Carousel.Dashboard.HandleButtonClick | src/components/XboxDashboard.tsx:51-54 | the active index becomes the clicked index and the emitted offset is slideWidth times that index |
| Carousel.Dashboard.ClickButton | src/components/XboxDashboard.tsx:16-18 | clicking the k-th button makes k the active index and scrolls to slide k; the index stays in [0,4]; the containers again hold the partition at the new index; document order is unchanged |

## Findings

| source | as written | input that shows it | evidently intended | confidence | as-written member | corrected member |
|---|---|---|---|---|---|---|
| src/components/RetroWindows7.tsx:22-23, 147 | the handler skips presses inside `.window-controls`, but the div holding Minimize, Maximize and Close has no class name, so that test never matches | a mouse-down on the Close button of a mounted window | a press on the control buttons neither starts a drag nor focuses the window | high (the class name is missing from the markup); not executed | WindowDrag.ControlPressAsWritten | WindowDrag.ControlPressIgnored |

`WindowDrag.HitTestAsWritten` is the classification as the markup stands;
`WindowDrag.HitTest` is the intended one. `Press` and `Step` take a
`Target`, the outcome of the hit-test. `Window.HandleMouseDown` takes the
pressed region and classifies it with `HitTest`, so a press on the control
buttons is the no-op that line 23 intends.

## Left out

- WindowDrag.Window.HandleMouseDown: classifies the pressed region with the
  intended hit-test. As written, a press on the control buttons starts a drag
  and focuses the window; `WindowDrag.ControlPressAsWritten` states that
  behaviour (see "## Findings").

- Positions, pointer coordinates and offsets are integers here. In the browser
  they are floating-point numbers, and rounding is not modelled.
- The rendered content of each window and all markup and styling are left
  out. This includes `buttonStyle`, `buttonBeforeStyle`, `iconStyle`,
  `getButtonIcon` and the hover state.
- Registering and removing the `mousemove`/`mouseup` listeners is left out,
  as is React's re-rendering. The model applies move and up events straight
  to the window's state. The source attaches these listeners only while
  dragging, and the model's handlers do nothing then, so the result is the
  same.
- Closing a window unmounts its `Window` component, and that discards its
  drag state. The model keeps the desktop table and each window's drag state
  separate, so it does not tie a closed id to the discarded state.
- `focusWindow` reads the `windows` array captured at render time. The model
  applies each call to the current table and does not model stale closures.
- The `slider-wrapper` element and the two containers are assumed to exist.
  This drops the source's null checks around `scrollTo` and around
  `moveButtons`. The smooth-scroll animation is not modelled.
- The audio players, the login screens and the page bootstrapping are not
  part of this model. They are audio playback, timers and mounting, with no
  state logic.
