# Rasterization lab in Dafny

A verified model of `lab3/main.py`, a small pygame program that draws lines and circles on a
grid of 5-pixel cells. It has two parts:

- The rasterisers:
  - `bresenham_line`, the all-octant integer Bresenham line;
  - `bresenham_circle`, the midpoint circle that emits eight reflections per octant offset;
  - `step_by_step` and `dda_algorithm`, two floating-point line walks.
- The interaction state machine of the `RasterizationApp` class. A click in the drawing area
  starts or completes a gesture. A click in the 200-pixel sidebar toggles the radius box or
  picks a tool row. A key press edits the radius buffer. Each completed gesture appends one
  rasterisation to the list of drawn cells.

Modules:

- `Geometry` (`geometry.dfy`): cells, `Abs`/`Max`/`Min`, the bounding box and the "touching
  cells" relation.
- `Lines` (`lines.dfy`):
  - `BresenhamLine` is the loop of `bresenham_line`, as an imperative method.
  - It is proved equal to `BresenhamLinePoints`, a recursive walk over the loop state.
  - The walk is then shown to end at the target, to visit touching cells, to stay in the
    box, and to stay within half a cell of the true segment.
  - The key invariant ties the error term to the current cell. Let `a` and `b` be the steps
    still to take along x and y. Then `err == dx - dy + (dy*a - dx*b)`, and twice the
    bracket is bounded by `max(dx, dy)`.
- `Circles` (`circles.dfy`):
  - `BresenhamCircle` is the loop of `bresenham_circle`, inner eight-way loop included.
  - It is proved equal to `CirclePoints`, the reflections of the octant offsets that the
    decision variable visits.
  - `CirclePoints` is then proved to be symmetric and close to the radius.
- `Incremental` (`incremental.dfy`):
  - the integer branch of `step_by_step` (a vertical segment);
  - the guard structure of `dda_algorithm`.
  - The floating-point walks are parameters.
- `App` (`app.dfy`):
  - the program state as a `State` value;
  - pure transition functions (`Press`, `SelectRow`, `Click`, `KeyDown`, `Draw`);
  - a `RasterizationApp` class whose methods update its fields in place. Each method is
    proved to produce exactly the transition function's result.

Quirks of the code that the model keeps:

- `bresenham_line` is not endpoint-reversal symmetric. (0,0)→(2,1) passes through (1,0), and
  (2,1)→(0,0) passes through (1,1). See `Lines.BresenhamLineNotReversible`.
- A Circle click uses the radius text still in the input buffer, not the last committed
  radius. Once Enter has emptied the buffer, a Circle click only moves the centre. See
  `App.CircleAfterEnterDrawsNothing`.
- A non-digit key never reaches the buffer. Typing `a`, `7`, Enter commits 7.
- Clear does not end a started line gesture. The next click completes a line from (0,0). See
  `App.ClearThenLine`.
- Clear keeps the last execution time.
- Pixel row 240 lies in both the Circle row and the Clear row. Such a click does both.
- Radius 0 draws the centre cell eight times.
- `dda_algorithm` divides by zero when both clicks hit the same cell, which ends the program.
  It is the one quirk in this list that the model does not keep. `Incremental.DdaAsWritten`
  records the crash. The app draws with the guarded `Incremental.Dda`, which yields that single
  cell (see Findings, `App.DdaSameCellGesture` and Left out).

## Model

| member | source | states |
|---|---|---|
| Lines.BresenhamLine | lab3/main.py:68-86 | the loop terminates and returns exactly the cell list `BresenhamLinePoints` describes |
| Lines.BresenhamLinePoints | lab3/main.py:68-86 | the line has max(abs(dx), abs(dy))+1 cells, starts at the first end point and ends at the second |
| Lines.StartInv | lab3/main.py:69-73 | the initial `dx`, `dy`, `sx`, `sy`, `err` satisfy the loop invariant; the distance to go is max(abs(dx), abs(dy)) |
| Lines.StepArith | lab3/main.py:79-85 | the two error tests never overshoot; they cut the Chebyshev distance by exactly one; they keep twice the deviation within max(dx,dy) |
| Lines.NoOvershoot | lab3/main.py:79-85 | once x (resp. y) has reached the target, the `e2 > -dy` (resp. `e2 < dx`) test is false |
| Lines.StepLemma | lab3/main.py:79-85 | one pass keeps the invariant, moves to a touching cell and brings the target one step closer |
| Lines.Step | lab3/main.py:79-85 | defines one pass of the loop body after the end test: the two error-driven moves and their `err` updates; `Lines.StepLemma` states its properties |
| Lines.LineFrom | lab3/main.py:75-86 | defines the cells the loop emits from a given loop state; `Lines.LineFromShape`, `Lines.LineFromNeighbours` and `Lines.LineFromRests` state its properties |
| Lines.LineFromShape | lab3/main.py:75-86 | from any loop state, the emitted cells run from the current cell to the target, one per unit of remaining distance |
| Lines.LineFromNeighbours | lab3/main.py:75-85 | consecutive emitted cells touch |
| Lines.LineFromRests | lab3/main.py:75-85 | every emitted cell lies between the current cell and the target, within half a cell of the ideal line |
| Lines.BresenhamLineConnected | lab3/main.py:68-86 | consecutive cells of the line touch and are distinct |
| Lines.BresenhamLineInBox | lab3/main.py:68-86 | every cell lies in the box spanned by the two end points |
| Lines.BresenhamLineAccuracy | lab3/main.py:68-86 | for every cell p, twice the absolute cross product of p−p0 with p1−p0 ≤ max(abs(dx), abs(dy)), i.e. half a cell off the segment along the minor axis |
| Lines.BresenhamLineExample | lab3/main.py:68-86 | (0,0)→(5,2), placed anywhere, gives (0,0),(1,0),(2,1),(3,1),(4,2),(5,2) |
| Lines.BresenhamLineNotReversible | lab3/main.py:71-72 | swapping the end points of (0,0)–(2,1) does not reverse the list |
| Lines.BresenhamVerticalAgrees | lab3/main.py:33-34 | on an upward vertical segment, Bresenham gives exactly the cells of `step_by_step`'s vertical branch |
| Circles.Reflections | lab3/main.py:95-96 | defines the eight cells emitted for one offset, in the order of the literal list; `Circles.ReflectionsClosed` states their symmetry |
| Circles.Walk | lab3/main.py:94-102 | defines the offsets the outer loop visits from a loop state (x, y, d); `Circles.WalkShape` and `Circles.WalkNearCircle` state their properties |
| Circles.CirclePoints | lab3/main.py:88-103 | defines the list `bresenham_circle` returns; `Circles.CircleShape`, `Circles.CircleOctants`, `Circles.CircleSymmetric` and `Circles.CircleNearRadius` state its properties |
| Circles.ReflectionsClosed | lab3/main.py:95-96 | the eight cells of one offset are closed under the vertical mirror, the horizontal mirror and the diagonal swap about the centre |
| Circles.WalkShape | lab3/main.py:94-102 | the k-th visited offset has y = k and stays in the octant 0 ≤ y ≤ x ≤ r |
| Circles.ReflectAllGroups | lab3/main.py:94-96 | the output comes in groups of eight; group k is the reflection set of offset k |
| Circles.BresenhamCircle | lab3/main.py:88-103 | the loops return exactly `CirclePoints`: the eight reflections of each visited offset, in order |
| Circles.CircleShape | lab3/main.py:88-103 | the length is a multiple of 8; r < 0 gives no cells; r ≥ 0 includes the four axis cells at distance r; r = 0 gives the centre eight times |
| Circles.CircleOctants | lab3/main.py:88-103 | there are eight cells per visited offset; each group reflects an offset with 0 ≤ y ≤ x ≤ r |
| Circles.CircleSymmetric | lab3/main.py:95-96 | the set of drawn cells is symmetric under the eight reflections about the centre |
| Circles.MidpointStep | lab3/main.py:97-102 | both `d` updates keep d = (y+1)² + x² − x − r² and the near-circle bound |
| Circles.WalkNearCircle | lab3/main.py:94-102 | every visited offset satisfies r² − x ≤ x² + y² ≤ r² + x |
| Circles.ReflectionNorm | lab3/main.py:95-96 | each reflection keeps the squared distance from the centre and the larger coordinate offset |
| Circles.CircleNearRadius | lab3/main.py:88-103 | every cell's squared distance from the centre is within max(abs(u), abs(v)) of r² |
| Incremental.VerticalSpan | lab3/main.py:33-34 | the vertical branch lists abs(y1−y0)+1 cells of column x0, from min(y0,y1) up to max(y0,y1), one row apart |
| Incremental.StepByStep | lab3/main.py:32-54 | a vertical segment yields exactly `VerticalSpan`: every row from the lower to the higher end point, ascending, both end points included and nothing outside them; any other segment goes to the slope walk |
| Incremental.DdaAsWritten | lab3/main.py:55-66 | the code fails exactly when the end points coincide, and otherwise yields the walk |
| Incremental.Dda | lab3/main.py:55-66 | the guarded DDA yields the single cell for coincident end points, and the walk otherwise |
| Incremental.DdaCoincidentCrashes | lab3/main.py:56-58 | the same cell clicked twice with DDA selected fails as written, and gives one cell when guarded |
| Incremental.DdaAgreesWhenDefined | lab3/main.py:55-66 | wherever the code does not fail, the guarded DDA gives the same cells |
| App.Initial | lab3/main.py:106-115 | the state `__init__` builds: consistent, with no drawing, no gesture started and the radius box inactive |
| App.Rasterize | lab3/main.py:121-131 | the cells of the selected algorithm: a Bresenham line runs from the start cell to the end cell; a circle has whole groups of eight and is empty exactly for a negative radius; a DDA segment with coincident end points is that one cell (guarded, see Left out); a vertical step-by-step segment is its column |
| App.Draw | lab3/main.py:117-134 | `draw_algorithm` keeps the earlier cells as a prefix of the drawing, stores the elapsed time and changes nothing else |
| App.Press | lab3/main.py:171-191 | a sidebar click changes only the radius-box flag; a drawing-area click leaves the flag and the buffer alone; no press removes drawn cells; consistency is kept |
| App.ApplyRows | lab3/main.py:207-215 | the first n passes of the tool-row loop change only the algorithm, the end points and the drawing, and leave the drawing either unchanged or empty |
| App.SelectRow | lab3/main.py:204-215 | defines the whole tool-row loop; `App.SelectRowEffect` states its effect |
| App.Click | lab3/main.py:171-215 | other buttons do nothing; the drawing only grows, unless Clear empties it; the buffer stays all digits and the radius non-negative |
| App.KeyDown | lab3/main.py:192-202 | keys do nothing while the radius box is inactive; only the radius and the buffer change; the buffer stays all digits and the radius non-negative |
| App.SelectRowEffect | lab3/main.py:204-215 | the tool-row loop selects the last algorithm row hit, and the Clear row empties the drawing and resets both end points; nothing else changes |
| App.EnterCommits | lab3/main.py:194-197 | Enter commits the buffer only if it is a non-empty digit string, and always empties it; no other field changes |
| App.EditingKeys | lab3/main.py:198-202 | a digit string is appended; anything else is ignored; Backspace removes the last character and does nothing on an empty buffer; neither key changes the radius or any other field |
| App.LineGesture | lab3/main.py:184-191 | with a line tool, the first click records the start; the second appends one rasterisation after the earlier cells, records the time and ends the gesture |
| App.CircleClick | lab3/main.py:179-183 | a Circle click moves the centre; only if the buffer is a digit string does it commit that radius and append the circle |
| App.SidebarClick | lab3/main.py:171-215 | a sidebar click toggles or closes the radius box and applies the tool rows, never touching the gesture, radius, buffer or timing |
| App.ClearKeepsTool | lab3/main.py:207-213 | Clear empties the drawing and resets the end points, keeping the tool, a started gesture, the radius, the buffer and the timing |
| App.BresenhamGestureExample | lab3/main.py:184-191 | with Bresenham, a click and a second click 25 pixels right and 10 down append the six cells of (0,0)→(5,2), shifted to the first click's cell |
| App.DdaSameCellGesture | lab3/main.py:184-191 | with DDA, a second click in the start cell is exactly the input on which `dda_algorithm` as written fails; the model appends that one cell |
| App.RadiusEntryExample | lab3/main.py:192-202 | 7, Enter commits 7; a, 7, Enter commits 7 as well |
| App.CircleAfterEnterDrawsNothing | lab3/main.py:179-197 | after Enter, a Circle click draws nothing, because the buffer is empty |
| App.ClearThenLine | lab3/main.py:184-215 | Clear in the middle of a line gesture leaves exactly one line, from the origin to the next click |
| App.RasterizationApp.constructor | lab3/main.py:106-115 | the new object holds the initial state and satisfies the invariant |
| App.RasterizationApp.DrawAlgorithm | lab3/main.py:117-134 | appends the selected algorithm's cells (DDA guarded, see Left out) and stores the elapsed time; changes nothing else |
| App.RasterizationApp.SelectToolRow | lab3/main.py:204-215 | the row loop leaves the fields as `SelectRow` describes |
| App.RasterizationApp.HandlePress | lab3/main.py:172-191 | the primary-button event branch leaves the fields as `Press` describes |
| App.RasterizationApp.HandleClick | lab3/main.py:171-215 | a click (event branch, then the tool-row check) leaves the fields as `Click` describes and keeps the invariant |
| App.RasterizationApp.HandleKey | lab3/main.py:192-202 | a key press leaves the fields as `KeyDown` describes and keeps the invariant |

## Left out

- App.RasterizationApp.DrawAlgorithm: draws DDA with the guarded `Incremental.Dda`. A DDA
  gesture whose two clicks hit the same cell therefore appends that cell. The code instead
  raises ZeroDivisionError at lab3/main.py:58, which nothing catches, so the program ends.
- App.Rasterize: uses the same guarded DDA, so the crash above is not modelled.
- App.Draw, App.Press, App.Click, App.RasterizationApp.HandlePress and
  App.RasterizationApp.HandleClick: build on `App.Rasterize`, so they do not model that crash
  either. `App.DdaSameCellGesture` names the gesture.

- The floating-point walks are not modelled. These are the sloped branch of `step_by_step`
  (lines 36-54) and the loop of `dda_algorithm` (lines 59-66), with Python's `round`. They are
  opaque functions (`Config.slopeWalk`, `Config.ddaWalk`). Only the branching around them is
  modelled.
- `time.time()` is not modelled. The measured duration of `draw_algorithm` is the `elapsed`
  parameter.
- All rendering is left out, because it is pure output: `draw_grid`, `draw_pixel`,
  `draw_sidebar`, `redraw_all`, `screen.fill`, the display flip and the frame clock.
- QUIT is left out: it ends the process.
- The frame loop is modelled as one event per frame, with the mouse at the click position.
  This misses several behaviours of the code:
  - its tool-row check (lines 204-215) reads the frame's last event and the current mouse
    position;
  - with several events in a frame, or a pointer that moved, the row test can use another
    position;
  - on a frame with no new events, the previous frame's click is checked again against the
    hovering pointer.
- The radius buffer accepts only ASCII digits. Python's `str.isdigit` also accepts other
  Unicode digits, some of which `int()` rejects; those keys are not modelled.
- App.KeyDown, App.Press, App.Click, App.EnterCommits, App.CircleClick: commit any digit
  buffer as its value, however long. Since Python 3.11, `int()` raises ValueError on a decimal
  string of more than 4300 digits, while `str.isdigit` still accepts it. Enter (line 196) or a
  Circle click (line 182) on such a buffer then ends the program; the model does not capture
  that limit. The same holds for App.RasterizationApp.HandleKey, App.RasterizationApp.HandlePress
  and App.RasterizationApp.HandleClick, which follow these functions.
- Cell coordinates use Dafny's `/`, which equals Python's `//` here because `GRID_SIZE` is
  positive.

## Findings

| source | as written | input that shows it | evidently intended | confidence | as-written member | corrected member |
|---|---|---|---|---|---|---|
| lab3/main.py:55-58 | `steps = max(abs(dx), abs(dy))`, then `dx / steps` | DDA selected, both clicks in the same cell: steps = 0, ZeroDivisionError ends the program | a degenerate segment yields its single cell | high (not executed) | Incremental.DdaAsWritten | Incremental.Dda |
