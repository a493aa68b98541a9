# clockfloat core, modelled in Dafny

clockfloat is a floating, always-on-top macOS overlay. It shows a pomodoro
countdown with a status symbol that changes as time passes. When the pointer
touches the overlay, it jumps to another corner of the screen. This project
models the two pieces of logic inside its Cocoa code and proves properties of
them:

- **The countdown** (`InsolentPomoTimer.swift`, the variant the application's
  entry point `main.swift` instantiates, and `Clock.swift`, a variant it does
  not instantiate). Given the instant `now`, a
  timer computes:
  - the remaining seconds;
  - a status: good, then grace, then overtime;
  - a symbol from a status-specific palette;
  - the label text.
  Reading the clock (`Date()`) becomes the explicit parameter `now`, so every
  operation is a pure function.
- **The evasive window** (`EvasiveWindow.swift`). This is a window that sits
  in one of four screen corners and advances clockwise on hover or
  right-click. A window may be stuck to an anchor window. A stuck window
  passes interactions on to its anchor and is placed directly against it.

Files:

- `swift_numerics.dfy` (module `SwiftNumerics`): Swift's `round`
  (halves away from zero), `Int(x)` (truncation toward zero) and `%`
  (truncating remainder, sign of the dividend), written out over `real` and
  `int`. Dafny's own `%` is Euclidean and is used on non-negative
  operands, except in `Clock.OvertimeIndex`, the corrected overtime index,
  where the non-negative remainder of a negative dividend is the correction.
- `countdown.dfy` (module `Countdown`): what both variants share. This covers
  the timer's two instants, the strict status thresholds, the elapsed time
  derived from the *rounded* remaining time, the saturating index, the
  wrapping index, and palette subscripting that traps out of range.
- `pomo_timer.dfy` (module `PomoTimer`): the 40-minute variant. Its constants
  are 5 minutes of grace, a 4 s grace period and a 1 s overtime period. Its
  label is whole minutes followed by the prefix symbol.
- `clock.dfy` (module `Clock`): the 6-second variant. Its constants are one
  minute of grace, a 2 s grace period and a 1 s overtime period. Its
  overtime index has its own formula.
- `decimal.dfy` (module `Decimal`): Swift's `String(n)` for a non-negative
  `Int`, with its inverse.
- `evasive_window.dfy` (module `EvasiveWindows`): the `EvasiveWindow` class
  with fields `orientation`, `origin`, `stuckToMe` (mutable) and `stickTo`,
  `width`, `height`, `screen` (fixed at creation). It also holds the corner
  and stuck-placement functions and the mouse-event dispatch.
- `wrappers.dfy` (module `Wrappers`): `Option`. In the countdown modules
  `None` marks a computation where the Swift code would trap.

Time is measured in seconds, as exact reals. An indicator function returns
`None` exactly where the Swift code would trap: an array subscript out of
range, or a remainder by an empty palette's length.

Three details of the code:

- A stuck window whose pair is in a top corner (orientation 0 or 1) is placed
  **below** its anchor (`y = anchor.y - height`). In a bottom corner it is
  placed **above** (`y = anchor.y + anchor.height`), so the pair always
  extends toward the middle of the screen (`StuckPairStaysOnScreen`).
- The good index truncates toward zero (`Int(x)`). `InsolentPomoTimer` then
  takes `abs` of it; `Clock` does not.
- A palette is never checked when the timer is created. An empty one traps
  only when it is used: the suffix palettes are empty, so the suffix
  indicator traps at every instant (`TickerSuffixIndicator`).

## Model

| member | source | states |
|---|---|---|
| `SwiftNumerics.Round` | clockfloat/InsolentPomoTimer.swift:195 | the result is the integer nearest to x, halves going away from zero, so it keeps the sign of x |
| `SwiftNumerics.Trunc` | clockfloat/InsolentPomoTimer.swift:203 | the result is x truncated toward zero |
| `SwiftNumerics.Abs` | clockfloat/InsolentPomoTimer.swift:203 | `abs` on an `Int` is non-negative and equals x or -x |
| `SwiftNumerics.Rem` | clockfloat/InsolentPomoTimer.swift:210 | a = q·b + r for a quotient q truncated toward zero (q has the dividend's sign); r lies strictly between -b and b, takes the dividend's sign, and equals Dafny's `%` for a non-negative dividend |
| `SwiftNumerics.AbsReal` | clockfloat/InsolentPomoTimer.swift:120 | `abs` on a Double is non-negative and equals x or -x |
| `Countdown.StartTimer` | clockfloat/InsolentPomoTimer.swift:64-65 | a timer started at `now` ends exactly `durationSeconds` after its start |
| `Countdown.Remaining` | clockfloat/InsolentPomoTimer.swift:97-101 | the remaining time r is such that `now + r` is the end instant; it is positive exactly before the end instant |
| `Countdown.Classify` | clockfloat/InsolentPomoTimer.swift:130-147 | good iff remaining > 0; grace iff 0 >= remaining > -grace; overtime otherwise (both thresholds strict) |
| `Countdown.Elapsed` | clockfloat/InsolentPomoTimer.swift:194-196 | the elapsed time from the rounded remaining time is within half a second of the exact elapsed time, and the total less it is whole seconds |
| `Countdown.StatusNeverRegresses` | clockfloat/InsolentPomoTimer.swift:136-143 | as `now` advances the status only moves forward: good, then grace, then overtime |
| `Countdown.ElapsedBounds` | clockfloat/InsolentPomoTimer.swift:194-196 | with the remaining time in [0, total] and a whole total, elapsed = total - round(remaining) lies in [0, total] |
| `Countdown.ElapsedMonotone` | clockfloat/InsolentPomoTimer.swift:195-196 | less remaining time never gives less elapsed time |
| `Countdown.SaturatingIndex` | clockfloat/InsolentPomoTimer.swift:199-203 | the good-palette index is at most the last index, and non-negative for non-negative elapsed time |
| `Countdown.SaturatingIndexMonotone` | clockfloat/InsolentPomoTimer.swift:201-203 | the saturating index never decreases as elapsed time grows |
| `Countdown.CyclicIndex` | clockfloat/InsolentPomoTimer.swift:208-210 | for non-negative elapsed time, round(elapsed / period) % count lies in [0, count) |
| `Countdown.Pick` | clockfloat/InsolentPomoTimer.swift:205 | subscripting yields the symbol exactly when the index is in range, and traps otherwise |
| `PomoTimer.Start` | clockfloat/InsolentPomoTimer.swift:61-65 | the end instant is the start plus 40 × 60 = 2400 seconds |
| `PomoTimer.Status` | clockfloat/InsolentPomoTimer.swift:130-147 | good iff remaining > 0; grace iff 0 >= remaining > -300; overtime iff remaining <= -300 |
| `PomoTimer.GoodIndex` | clockfloat/InsolentPomoTimer.swift:199-203 | `abs(min(Int(elapsed / (2400 / count)), count - 1))` is never negative and, for non-negative elapsed time, at most `count - 1`; `GoodIndexSteps`, `GoodIndexSaturates` and `GoodIndexInRangeIff` fix its values |
| `PomoTimer.GraceIndex` | clockfloat/InsolentPomoTimer.swift:206-210 | for non-negative elapsed time the grace index lies in [0, count) |
| `PomoTimer.OvertimeIndex` | clockfloat/InsolentPomoTimer.swift:213-217 | for non-negative elapsed time the overtime index lies in [0, count) |
| `PomoTimer.TickerIndicator` | clockfloat/InsolentPomoTimer.swift:186-221 | a symbol, when there is one, comes from the palette of the current status |
| `PomoTimer.TickerPrefixIndicator` | clockfloat/InsolentPomoTimer.swift:186-221 | the label's symbol, when there is one, is one of the prefix symbols of the current status |
| `PomoTimer.TickerSuffixIndicator` | clockfloat/InsolentPomoTimer.swift:149-184 | with the empty suffix palettes the suffix indicator traps at every instant |
| `PomoTimer.AdjustedRemainingMins` | clockfloat/InsolentPomoTimer.swift:104-109 | the adjusted minutes are the remaining time plus 15 seconds, in minutes |
| `PomoTimer.DisplayMinutes` | clockfloat/InsolentPomoTimer.swift:104-120 | the shown minutes m satisfy 60m <= abs(remaining + 15) < 60(m + 1), so they are never negative |
| `PomoTimer.RemainingTimeAsString` | clockfloat/InsolentPomoTimer.swift:118-126 | the label exists exactly when the prefix indicator does not trap |
| `PomoTimer.GoodIndexInRangeIff` | clockfloat/InsolentPomoTimer.swift:199-205 | the good index is a valid subscript of the 5 symbols iff elapsed > -2400 (`abs` folds small negatives back) |
| `PomoTimer.GoodIndexSteps` | clockfloat/InsolentPomoTimer.swift:199-205 | the good index is k for elapsed in [480k, 480(k + 1)), k < 4; it is 0 at elapsed 0 |
| `PomoTimer.GoodIndexSaturates` | clockfloat/InsolentPomoTimer.swift:203 | from 1920 s elapsed the good index stays at 4 |
| `PomoTimer.GoodIndexNonDecreasing` | clockfloat/InsolentPomoTimer.swift:194-205 | from the start instant on, the good index never decreases as `now` advances |
| `PomoTimer.LastHalfSecondShowsLastGoodSymbol` | clockfloat/InsolentPomoTimer.swift:194-205 | for remaining in (0, 0.5) the status is good, the elapsed time is 2400 and the last good symbol is shown |
| `PomoTimer.GraceIndexInRange` | clockfloat/InsolentPomoTimer.swift:206-212 | in grace the elapsed time lies in [2400, 2700] and the grace index in [0, 2] |
| `PomoTimer.GraceIndexPeriodic` | clockfloat/InsolentPomoTimer.swift:206-212 | the grace index repeats every 12 s of elapsed time |
| `PomoTimer.GraceShowsEverySymbol` | clockfloat/InsolentPomoTimer.swift:206-212 | grace symbol k is shown 4k seconds after the end instant, for each of the 3 symbols |
| `PomoTimer.OvertimeIndexInRange` | clockfloat/InsolentPomoTimer.swift:213-219 | in overtime the elapsed time is at least 2700 and the overtime index lies in [0, 3] |
| `PomoTimer.OvertimeIndexPeriodic` | clockfloat/InsolentPomoTimer.swift:213-219 | the overtime index repeats every 4 s of elapsed time |
| `PomoTimer.OvertimeShowsEverySymbol` | clockfloat/InsolentPomoTimer.swift:213-219 | overtime symbol k is shown 300 + k seconds after the end instant, for each of the 4 symbols |
| `PomoTimer.PrefixIndicatorDefined` | clockfloat/InsolentPomoTimer.swift:186-221 | from the start instant on, the prefix indicator never traps |
| `PomoTimer.DisplayReadsBack` | clockfloat/InsolentPomoTimer.swift:118-126 | the label is decimal digits only (no minus sign) that read back as the shown minutes, followed by the prefix symbol |
| `PomoTimer.DisplayAtStart` | clockfloat/InsolentPomoTimer.swift:118-126 | at launch the label is "40" followed by the first good symbol |
| `Decimal.FromNat` | clockfloat/InsolentPomoTimer.swift:120 | `String(n)` is non-empty, all digits, with no leading zero |
| `Decimal.FromNatRoundTrip` | clockfloat/InsolentPomoTimer.swift:120 | reading `String(n)` back gives n |
| `Clock.Start` | clockfloat/Clock.swift:55-59 | the end instant is the start plus 0.1 × 60 = 6 seconds |
| `Clock.Status` | clockfloat/Clock.swift:102-119 | good iff remaining > 0; grace iff 0 >= remaining > -60; overtime iff remaining <= -60 |
| `Clock.GoodIndex` | clockfloat/Clock.swift:133-141 | without `abs`, the good index is at most `count - 1`, and non-negative for non-negative elapsed time; `GoodIndexSaturates` and `GoodIndexInRangeIff` fix its values |
| `Clock.GraceIndex` | clockfloat/Clock.swift:145-150 | for non-negative elapsed time the grace index lies in [0, count) |
| `Clock.TickerIndicatorAsWritten` | clockfloat/Clock.swift:121-179 | the indicator as written: a symbol, when there is one, comes from the palette of the current status |
| `Clock.TickerIndicator` | clockfloat/Clock.swift:121-179 | the indicator with the corrected overtime index: a symbol comes from the current status's palette |
| `Clock.OvertimeIndexAsWritten` | clockfloat/Clock.swift:166-171 | as written, with a rounded remaining time at most 0 the index lies in [count - 1, 2·count - 2], so it reaches past the palette; with one at least 0 it lies in [0, count) |
| `Clock.OvertimeIndex` | clockfloat/Clock.swift:166-172 | the corrected overtime index always lies in [0, count) |
| `Clock.RemainingTimeAsString` | clockfloat/Clock.swift:181-188 | the label as written is the formatted time followed by the indicator as written, and exists iff that indicator does not trap |
| `Clock.RemainingTimeAsStringCorrected` | clockfloat/Clock.swift:181-188 | the label with the corrected indicator: the formatted time followed by the symbol, and exists iff the corrected indicator does not trap |
| `Clock.GoodIndexInRangeIff` | clockfloat/Clock.swift:133-144 | without `abs`, the good index is a valid subscript iff elapsed > -1.2 |
| `Clock.GoodIndexInRange` | clockfloat/Clock.swift:128-144 | from the start instant on, in good status the elapsed time lies in [0, 6] and the good index in [0, 4] |
| `Clock.GoodIndexSaturates` | clockfloat/Clock.swift:141 | from 4.8 s elapsed the good index stays at 4 |
| `Clock.GoodIndexNonDecreasing` | clockfloat/Clock.swift:128-144 | the good index never decreases as `now` advances |
| `Clock.GraceIndexInRange` | clockfloat/Clock.swift:145-165 | in grace the elapsed time lies in [6, 66] and the grace index in [0, 2] |
| `Clock.GraceIndexPeriodic` | clockfloat/Clock.swift:145-165 | the grace index repeats every 6 s of elapsed time |
| `Clock.OvertimeIndexAsWrittenRange` | clockfloat/Clock.swift:166-172 | as written, the overtime index lies in [4, 8], and it is below 5 iff the rounded remaining time is a multiple of 5 (tested as `(-remainS) % 5 == 0`) |
| `Clock.OvertimeTrapsAsWritten` | clockfloat/Clock.swift:166-188 | 61 s after the end instant the index as written is 5, and the indicator and the label trap |
| `Clock.OvertimeTrapsAsWrittenEveryCycle` | clockfloat/Clock.swift:166-172 | as written, the indicator traps 1 to 4 s after each 5 s step of overtime (61 to 64 s, plus any multiple of 5 s, after the end instant) |
| `Clock.OvertimeIndexPeriodic` | clockfloat/Clock.swift:166-172 | the corrected overtime index repeats every 5 s |
| `Clock.OvertimeShowsEverySymbol` | clockfloat/Clock.swift:166-172 | with the correction, overtime symbol k is shown 61 + k seconds after the end instant, for each of the 5 symbols |
| `Clock.IndicatorDefined` | clockfloat/Clock.swift:121-188 | from the start instant on, the corrected indicator and the corrected label never trap |
| `EvasiveWindows.EvasiveWindow.constructor` | clockfloat/EvasiveWindow.swift:44-99 | a new window starts in orientation 2 and is placed at once; a stuck window takes its anchor's width and becomes the anchor's only registered dependent; the anchor's position is untouched |
| `EvasiveWindows.EvasiveWindow.GetOrientation` | clockfloat/EvasiveWindow.swift:117-124 | a window's orientation is that of the free window at the end of its chain of anchors |
| `EvasiveWindows.EvasiveWindow.RefreshOrigin` | clockfloat/EvasiveWindow.swift:126-177 | afterwards the window is at its corner (free) or against its anchor (stuck); only its origin changes |
| `EvasiveWindows.EvasiveWindow.Move` | clockfloat/EvasiveWindow.swift:101-115 | the root of the chain advances one corner and is placed there; its dependent is re-placed against it; a stuck window's own orientation is unchanged; nothing else is written |
| `EvasiveWindows.EvasiveWindow.MoveFullCircle` | clockfloat/EvasiveWindow.swift:101-115 | four moves of a placed free window bring back its orientation and its origin |
| `EvasiveWindows.EvasiveWindow.HandleMouse` | clockfloat/EvasiveWindow.swift:185-206 | hover-enter and right-click move the window; mouse-exit and left mouse-down change nothing |
| `EvasiveWindows.Next` | clockfloat/EvasiveWindow.swift:105 | the next corner is the following one, wrapping from 3 back to 0 |
| `EvasiveWindows.ScreenFrame` | clockfloat/EvasiveWindow.swift:146-149 | the screen's frame when there is a screen, and the all-zero frame of the `?? 0` fallback otherwise |
| `EvasiveWindows.CornerOrigin` | clockfloat/EvasiveWindow.swift:157-172 | corner 0 or 3 puts the window against the left edge, 1 or 2 against the right, 0 or 1 against the top, 2 or 3 against the bottom, each padded by 5 |
| `EvasiveWindows.StuckOrigin` | clockfloat/EvasiveWindow.swift:129-142 | a stuck window has its anchor's x; its top edge is the anchor's bottom in a top corner, its bottom edge the anchor's top in a bottom corner |
| `EvasiveWindows.TriggersMove` | clockfloat/EvasiveWindow.swift:185-206 | an event leaves the window where it is exactly when it is a mouse-exit or a left mouse-down |
| `EvasiveWindows.FourMovesRestore` | clockfloat/EvasiveWindow.swift:105 | four moves restore the orientation and the corner origin; one, two or three never restore the orientation |
| `EvasiveWindows.CornerInsideScreen` | clockfloat/EvasiveWindow.swift:146-174 | on a screen with room, every corner placement stays inside the padded screen |
| `EvasiveWindows.MoveEvadesPointer` | clockfloat/EvasiveWindow.swift:157-172 | on a screen at least twice the window's size, the next corner shares no point with the current one |
| `EvasiveWindows.StuckBesideAnchor` | clockfloat/EvasiveWindow.swift:129-142 | a stuck window has its anchor's x, touches the anchor along a horizontal edge and shares no point with it |
| `EvasiveWindows.StuckPairStaysOnScreen` | clockfloat/EvasiveWindow.swift:129-172 | with room for both windows stacked, the stuck window stays inside the padded screen in every corner |

## Left out

- Floating point: `Double` and `CGFloat` values are exact reals. Rounding
  errors (for example in `0.1 * 60` or the 1.2 s period) are not modelled.
- The clock: `Date()` is the parameter `now`. Nothing requires successive
  reads to increase, and the lemmas that need a start instant assume it.
- Several clock reads within one computation are collapsed to a single
  instant. The source reads `Date()` again for the status and for the index
  (InsolentPomoTimer.swift:195 and 198, Clock.swift:129 and 132), and again
  for the minutes and for the symbol (InsolentPomoTimer.swift:120 and 122,
  Clock.swift:183 and 185). The model evaluates all of them at one `now`.
- `getRemainingTimeAsDate` and `DateFormatter`: this is a foreign library.
  In `Clock.RemainingTimeAsString` the formatter's output is an opaque string
  parameter. In `PomoTimer` it feeds the second label, the one whose format
  is not "mins" (InsolentPomoTimer.swift:265), which is label wiring and not
  part of this model.
- Label and font sizing (`initLabel`, `fittingSize × 1.3`, pixels per point):
  these are floating-point layout over Cocoa. A window's width and height are
  constructor inputs.
- Cocoa plumbing is left out:
  - application start-up, `main.swift` and `Logger.swift`;
  - the loop over `NSScreen.screens` and the screen-change observer;
  - `close`, `orderFrontRegardless`, window level, colours;
  - the label-centring code and `VerticallyCenteredTextFieldCell.swift`;
  - the repeating `Timer`s, `killTimer` and `deinit`;
  - every `print`.
  None of these compute anything the core uses.
- `InsolentPomoTimer.initDater`/`initTimer`: GUI wiring that assigns
  properties the class does not declare.
- EvasiveWindows.EvasiveWindow.Move: only the root's registered dependent is
  re-placed. The source does the same, so two further cases keep a stale
  origin after the anchor moves:
  - a window stuck to a stuck window;
  - an earlier dependent whose registration a later window overwrote.
- `stickTo`, the size and the target screen are immutable (`const`) fields.
  The source declares them `var` but assigns them only during creation.
- User drags: the window is movable by its background
  (EvasiveWindow.swift:92), so a drag changes its origin outside `move` and
  `refreshOrigin`. `Placed` and `Adjacent` therefore hold right after a move
  or a refresh, not at every moment.
- EvasiveWindows.EvasiveWindow.Move: its frame names the root's dependent,
  or the root again when there is none. A frame expression cannot name a
  field of a possibly-absent object.

## Findings

| source | as written | input that shows it | evidently intended | confidence | as-written member | corrected member |
|---|---|---|---|---|---|---|
| clockfloat/Clock.swift:171 | `tickArray.count - (Int(round(tickPeriod)) % tickArray.count) - 1`, where `tickPeriod` is the rounded remaining time (at most -60 in overtime). Swift's `%` keeps the dividend's sign, so the index is 4 to 8 on a 5-symbol palette | `now` = end instant + 61 s: rounded remaining -61, `-61 % 5 = -1`, index 5, subscript out of range | an index in 0..4 for every overtime second, cycling through the palette, as a non-negative remainder gives | not executed | `Clock.OvertimeTrapsAsWritten` | `Clock.OvertimeIndex` |
