# Exhibition page scripts, modelled in Dafny

This project models the page logic of three scripts from an exhibition site about
disappearing urban greenery:

- **Plant density page** (`Plantdensity/sketch.js`):
  - The loader reads an ASCII PLY point cloud into the page's global `vertices`
    and `colors` buffers (module `PlantCloud`, file `plant_cloud.dfy`).
  - The rotation controller does one automatic full turn, then drag-only
    rotation. It also activates the text containers of the angular segment the
    cloud is turned to (module `PlantRotation`, file `plant_rotation.dfy`).
- **Lost Green map page** (`Lostgreen/script.js`):
  - The placement of a pin's popup card and the open/close/toggle behaviour of
    the cards (module `PinPopups`, file `lostgreen_popup.dfy`).
  - The typing intro (module `IntroTyping`, file `lostgreen_intro.dfy`).
- **Main scroll page** (`Main/main.js`): the bottom-of-page detection, the
  overlay and back-to-top control, the modal that opens by itself once, and
  once more after each back-to-top click, and the filter that picks which green links get a handler
  (module `ScrollPage`, file `main_scroll.dfy`).

Modelling choices:

- **State the scripts change in place is a class.** The classes are
  `PointCloud`, `Viewer`, `MapCards` and `Page`. Their methods carry `modifies`
  clauses, and each class has a `Valid()` invariant.
- **The segment containers are two `bool` arrays** of length 10 (the `active`
  class of `container-<k>-top` and `container-<k>-bottom`).
- **Pure computations are functions** with lemmas about them. These are string
  splitting, the points a file yields, the angle arithmetic, the card placement
  and the typed prefix.
- **Inputs the browser supplies are parameters.** These are `mouseX`, the
  bounding rectangles, the viewport size, `scrollY` and the file text.
- **`parseFloat` is a parameter** `parse: string -> Option<real>`. `None`
  stands for NaN. A missing field (`data[k]` past the end) reads as NaN.
- **Numbers are exact reals.**
  - `2 * Math.PI` is taken as 6.283185307179586, the shortest decimal that
    reads back as that double, read as an exact rational. The double itself is
    6.28318530717958623…, so the model's turn differs from it below 10^-15.
  - JavaScript's `%` truncates toward zero. It is written out as `FMod`, with
    its sign behaviour.

## Model

| member | source | states |
|---|---|---|
| `PlantCloud.Split` | Plantdensity/sketch.js:212 | `split` with a one-character separator yields at least one piece, and no piece contains the separator |
| `PlantCloud.JoinSplit` | Plantdensity/sketch.js:212 | splitting loses nothing: joining the pieces with the separator gives back the text |
| `PlantCloud.SplitAppend` | Plantdensity/sketch.js:212 | text after the last newline becomes the last piece, and the pieces before it are those of the text before it |
| `PlantCloud.HeaderSeenIff` | Plantdensity/sketch.js:215-221 | the `header` flag is down before line n exactly when one of the first n lines contains `end_header` |
| `PlantCloud.LinePoint` | Plantdensity/sketch.js:224-232 | a body line yields a point exactly when its first three space-separated fields all parse as numbers |
| `PlantCloud.CloudPoints` | Plantdensity/sketch.js:217-245 | the first n lines yield at most n points |
| `PlantCloud.SkipStep` | Plantdensity/sketch.js:218-232 | a header line, an `end_header` line or a body line that does not parse adds no point and leaves the buffers unchanged; only `end_header` lowers the flag |
| `PlantCloud.AcceptStep` | Plantdensity/sketch.js:234-243 | an accepted line appends its point, its three transformed coordinates and three 1.0 colour channels |
| `PlantCloud.Vertices` | Plantdensity/sketch.js:234-236 | the coordinate buffer holds exactly three numbers per point |
| `PlantCloud.White` | Plantdensity/sketch.js:239-241 | the colour buffer holds three channels per point, every one 1.0 |
| `PlantCloud.VertexLayout` | Plantdensity/sketch.js:226-236 | point k sits at slots 3k, 3k+1, 3k+2 as (x·scale+xAdd, −y·scale+yAdd, z·scale+zAdd): y is negated before scaling |
| `PlantCloud.NoPointsInHeader` | Plantdensity/sketch.js:215-223 | no line up to and including the first `end_header` line adds a point |
| `PlantCloud.PointOrigin` | Plantdensity/sketch.js:217-243 | every stored point is the parse of an accepted line: after the header, not an `end_header` line, all three fields numbers |
| `PlantCloud.PrefixDetermines` | Plantdensity/sketch.js:217 | what the loop reads from the first n lines does not depend on later lines |
| `PlantCloud.LastPieceIgnored` | Plantdensity/sketch.js:212-217 | the last piece of `data.split("\n")` is never examined: the points of `body + "\n" + t` are those of all lines of `body` |
| `PlantCloud.ReadLines` | Plantdensity/sketch.js:215-245 | the loop's pushes are the transformed coordinates of exactly the accepted lines, in file order, and three white channels each; `pointCount` is their number |
| `PlantCloud.PointCloud.constructor` | Plantdensity/sketch.js:32-33 | the buffers start empty |
| `PlantCloud.PointCloud.ParsePointCloud` | Plantdensity/sketch.js:211-247 | appends the file's points to `vertices` and white channels to `colors`; both buffers stay equal in length and a multiple of 3 |
| `PlantRotation.Trunc` | Plantdensity/sketch.js:172 | rounding toward zero, which JavaScript's `%` uses: the result is within 1 of x, on 0's side |
| `PlantRotation.RemainderFacts` | Plantdensity/sketch.js:172 | the remainder over the truncated quotient keeps the dividend's sign and is smaller than the divisor |
| `PlantRotation.FMod` | Plantdensity/sketch.js:172 | `a % b` lies in [0, b) for a ≥ 0 and in (−b, 0] for a < 0, and differs from a by whole multiples of b |
| `PlantRotation.Normalize` | Plantdensity/sketch.js:172-173 | the normalised angle lies in [0, 2π) and differs from the manual angle by whole turns |
| `PlantRotation.SameTurn` | Plantdensity/sketch.js:172-173 | two angles in [0, 2π) that differ by whole turns are equal |
| `PlantRotation.NormalizeInRange` | Plantdensity/sketch.js:172-173 | an angle already in [0, 2π) is left unchanged |
| `PlantRotation.NormalizePeriodic` | Plantdensity/sketch.js:172-173 | turning by whole turns does not change the normalised angle |
| `PlantRotation.SegmentOf` | Plantdensity/sketch.js:174 | the segment lies in 0..9 and its angular interval [s·2π/10, (s+1)·2π/10) contains the normalised angle |
| `PlantRotation.Viewer.constructor` | Plantdensity/sketch.js:5-20 | the initial globals: automatic turn running, not dragging, segment 0, previous segment −1, no container active |
| `PlantRotation.Viewer.UpdateContainers` | Plantdensity/sketch.js:250-266 | afterwards exactly segment s's top and bottom containers are active |
| `PlantRotation.Viewer.Draw` | Plantdensity/sketch.js:144-186 | the automatic turn adds 0.01 per frame and completes on exactly the 629th frame, with angle 0, manual angle 0 and only segment 0 active; afterwards the manual angle moves by `deltaX * 0.01` only while dragging, `lastMouseX` records the mouse position, the segment is always `SegmentOf` the manual angle, and the containers change only when a new segment is entered |
| `PlantRotation.Viewer.MousePressed` | Plantdensity/sketch.js:269-274 | dragging starts, and the mouse position is recorded, only after the automatic turn |
| `PlantRotation.Viewer.MouseReleased` | Plantdensity/sketch.js:276-278 | dragging stops; nothing else changes |
| `PlantRotation.AutoTurnFromLoad` | Plantdensity/sketch.js:144-166 | from page load, 629 frames without a press end the automatic turn: angle 0, segment 0 with exactly its two containers active, no drag |
| `PinPopups.Clamp` | Lostgreen/script.js:154 | the result is ≤ hi; it is ≥ lo when lo ≤ hi; a value already in [lo, hi] is returned unchanged, a value below lo gives lo, and an empty range (hi < lo) gives hi; the result is v, lo or hi |
| `PinPopups.ChooseSide` | Lostgreen/script.js:134-136 | right exactly when `pin.right + 15 + w <= vw`; left exactly when right does not fit and `pin.left - 15 - w > 0`; above otherwise |
| `PinPopups.Preferred` | Lostgreen/script.js:134-151 | right: `left = pin.right + 15`, vertically centred, the card's right edge inside the viewport (`left + w <= vw`); left: `left = pin.left - w - 15 > 0`, centred; above: `left = pin.left`, `top = pin.top - h - 15` |
| `PinPopups.PositionCard` | Lostgreen/script.js:101-170 | `left` is the preferred left when that lies in [12, vw − w − 12], 12 when it is below, vw − w − 12 when it is above or the card is too wide; `mashapaug` is shifted up by 290 and not clamped vertically; every other card's top follows the same three cases in [12, vh − h − 12] |
| `PinPopups.InsideMarginsKept` | Lostgreen/script.js:154-165 | the card of an ordinary pin whose preferred position already lies inside the safe margins is placed exactly there |
| `PinPopups.RightCardClearOfPin` | Lostgreen/script.js:134-157 | a card placed right of its pin stays at least 3 px right of the pin after the horizontal clamp |
| `PinPopups.LeftCardClearOfPin` | Lostgreen/script.js:136-157 | a card placed left of its pin ends more than 3 px left of the pin after the horizontal clamp |
| `PinPopups.MapCards.constructor` | Lostgreen/script.js:71-76 | one hidden card per pin, each at the given starting position |
| `PinPopups.MapCards.OpenCard` | Lostgreen/script.js:172-176 | card i is positioned by `PositionCard` and shown; no other card changes |
| `PinPopups.MapCards.CloseCard` | Lostgreen/script.js:178-181 | card i is hidden and nothing else changes; closing a hidden card changes nothing |
| `PinPopups.MapCards.ToggleCard` | Lostgreen/script.js:183-192 | a shown card is hidden; a hidden one becomes the only shown card, at its new position |
| `PinPopups.MapCards.CloseAll` | Lostgreen/script.js:96-98 | the document click leaves every card hidden, positions untouched |
| `PinPopups.MapCards.Handle` | Lostgreen/script.js:75-98 | enter opens, leave closes, a pin click or touch toggles (and does not reach the document), a document click closes all; only opening (enter, or a tap on a hidden card) moves a card, to `PositionCard` of its layout, and every other event leaves all positions alone |
| `PinPopups.MapCards.Resize` | Lostgreen/script.js:195-202 | every shown card is re-positioned by `PositionCard`; since `positionCard` hides the card (lines 114-115) and nothing shows it again, every card ends hidden; hidden cards keep their positions |
| `IntroTyping.Typed` | Lostgreen/script.js:33-41 | after k ticks a span shows a prefix of its text, no longer than the text, and the whole text once k ≥ its length |
| `IntroTyping.TypedGrows` | Lostgreen/script.js:33-41 | what a span shows only ever grows |
| `IntroTyping.TypeSpan` | Lostgreen/script.js:33-41 | running the interval callback k times shows the first min(k, n) characters; the interval is cleared exactly when k > n |
| `IntroTyping.LongestTyping` | Lostgreen/script.js:29-30 | `maxDuration` bounds every span's `length * 50` and equals one of them (0 for no spans) |
| `IntroTyping.SetupIntroAnimation` | Lostgreen/script.js:9-63 | the running maximum equals `LongestTyping`, and the wipe timer is set 400 ms after it |
| `IntroTyping.TypingDoneBeforeWipe` | Lostgreen/script.js:29-63 | by the time the wipe starts, every span shows its whole text and its interval has been cleared |
| `ScrollPage.AtBottomMonotone` | Main/main.js:25-28 | scrolling further down or a taller window keeps the reader at the bottom |
| `ScrollPage.Page.constructor` | Main/main.js:13 | the once-flag starts down; overlay and modal are hidden |
| `ScrollPage.Page.HandleScroll` | Main/main.js:15-52 | `--scroll` is `floor(scrollY)`; overlay and back-to-top are shown exactly at the bottom; the modal opens by itself exactly when at the bottom with the flag down, which then rises; otherwise the modal and the flag are unchanged |
| `ScrollPage.Page.BackToTopClick` | Main/main.js:127-139 | the once-flag is re-armed; nothing else changes |
| `ScrollPage.Page.ModalButtonClick` | Main/main.js:80-83 | the modal and navigation box are shown |
| `ScrollPage.Page.ModalClick` | Main/main.js:86-91 | only a click on the backdrop itself closes the modal and hides the navigation box |
| `ScrollPage.ReplayEvents` | Main/main.js:13-52 | from page load, over any sequence of events, the modal opens by itself at most once more than the number of back-to-top clicks |
| `ScrollPage.SetupGreenLinks` | Main/main.js:55-71 | exactly the green links with index ≥ 5 get a click handler |

## Left out

- IntroTyping.TypeSpan / LongestTyping: lengths count characters (Unicode
  scalar values), while `fullText.length` and `fullText[i++]` count UTF-16 code
  units. The two agree for text in the Basic Multilingual Plane; a character
  outside it takes two ticks and 100 ms in the page, one tick and 50 ms here.
- WebGL program setup, buffer upload and drawing; p5's `camera`, `rotateY` and
  `background`; the canvas wheel blocker. These are graphics and event API
  calls.
- `httpGet` of the PLY file. This is network I/O; `parsePointCloud` is modelled
  on a given string.
- `console.log` output.
- PlantCloud.LinePoint: exact `parseFloat` is left abstract.
  - Its prefix parsing and `Infinity` results are not captured.
  - The model assumes that `isNaN(-parseFloat(s))` agrees with
    `isNaN(parseFloat(s))`. That holds in IEEE arithmetic.
- Floating-point rounding of the scaled coordinates and of the accumulated
  angles. Reals are exact here.
- PlantRotation.Viewer.Draw: the containers are assumed present in the page.
  `getElementById` returning `null` is not modelled, except that a segment
  outside 0..9 activates nothing.
- PlantRotation.Viewer.constructor: the initial `active` classes come from the
  page's HTML, which is not part of this model. The model starts with none
  active.
- PinPopups.MapCards.constructor: the script sets no visibility on the cards
  when it attaches the handlers; they start hidden because of the page's style
  sheet, which is not part of this model. The model starts them hidden.
- DOM measurement (`getBoundingClientRect`, `offsetWidth`, `getComputedStyle`)
  and the style writes. Rectangles and sizes are inputs, and card visibility is
  one boolean per card.
- PinPopups.MapCards.ToggleCard: the card's visibility is read from the
  model's own flag. The flag assumes the style sheet's computed visibility
  agrees with the inline style.
- PinPopups.PositionCard: a pin without a `data-pin` attribute is modelled by
  any name other than `mashapaug`.
- The `position-*` classes removed in `positionCard`, and the measuring of the
  card, have no effect on the computed position.
- The map page's own `setupModal` (show on button click, hide on a backdrop
  click). It is a two-state toggle with the same shape as the main page's modal,
  and is not part of this model.
- Timers:
  - `setInterval` and `setTimeout` scheduling.
  - The `animationend` handler and its 850 ms fallback that hide the intro
    screen.
  - The width measurement that fixes each span's minimum width.
  - Typing is counted in interval ticks.
- `--visible` with its `toFixed(1)` formatting, the title tooltip, and the
  `alert` inside the green-link handler.
- `setupAmbientSounds`: audio playback, autoplay retries and `Math.random`
  scheduling.
- `window.scrollTo`. The smooth scroll it starts reaches the page as later
  scroll events.
