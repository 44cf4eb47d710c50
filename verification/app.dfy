/**
 * The interaction state machine of lab3/main.py: RasterizationApp, its draw_algorithm and the
 * mouse and keyboard handling of its run loop.
 */
module App {
  import opened Geometry
  import Lines
  import Circles
  import Incremental

  const WIDTH := 800
  const GRID_SIZE := 5
  const SIDE_PANEL_WIDTH := 200

  datatype Algorithm = StepByStep | DDA | Bresenham | Circle

  /** A row of the sidebar's tool list: an algorithm to select, or Clear. */
  datatype Row = Select(algorithm: Algorithm) | Clear

  /** The tool rows, top to bottom; row i spans pixel rows 120 + 30i to 150 + 30i. */
  const ROWS: seq<Row> := [Select(StepByStep), Select(DDA), Select(Bresenham), Select(Circle), Clear]

  /** A key press: Enter, Backspace, or any other key with the text it types (possibly empty). */
  datatype Key = Return | Backspace | Typed(text: string)

  /** The two floating-point walks the model does not look into. */
  datatype Config = Config(slopeWalk: Incremental.Walker, ddaWalk: Incremental.Walker)

  /** Every field of a RasterizationApp. */
  datatype State = State(
    algorithm: Algorithm,
    startPoint: Point,
    endPoint: Point,
    drawing: bool,
    radius: int,
    inputActive: bool,
    inputRadius: string,
    drawnPoints: seq<Point>,
    executionTime: real)

  predicate IsDigit(c: char)
  {
    '0' <= c <= '9'
  }

  predicate AllDigits(s: string)
  {
    forall i :: 0 <= i < |s| ==> IsDigit(s[i])
  }

  /** Python's str.isdigit: at least one character, and digits only. */
  predicate IsDigitString(s: string)
  {
    |s| > 0 && AllDigits(s)
  }

  /** Python's int() on an ASCII digit string, without the interpreter's limit on digit count. */
  function DigitsValue(s: string): nat
    requires AllDigits(s)
  {
    if s == [] then 0 else 10 * DigitsValue(s[..|s| - 1]) + (s[|s| - 1] as int - '0' as int)
  }

  /** What the program keeps true: the radius buffer holds digits only and the radius is not negative. */
  predicate Consistent(s: State)
  {
    AllDigits(s.inputRadius) && s.radius >= 0
  }

  /** The state __init__ builds. */
  function Initial(): (r: State)
    ensures Consistent(r) && r.drawnPoints == [] && !r.drawing && !r.inputActive
  {
    State(Bresenham, Point(0, 0), Point(0, 0), false, 0, false, "", [], 0.0)
  }

  /** The points the selected algorithm yields for the current gesture. */
  function Rasterize(s: State, cfg: Config): (r: seq<Point>)
    ensures s.algorithm == Bresenham ==>
      |r| > 0 && r[0] == s.startPoint && r[|r| - 1] == s.endPoint
    ensures s.algorithm == Circle ==> |r| % 8 == 0 && (s.radius >= 0 <==> r != [])
    ensures s.algorithm == DDA && s.startPoint == s.endPoint ==> r == [s.startPoint]
    ensures s.algorithm == StepByStep && s.startPoint.x == s.endPoint.x ==>
      r == Incremental.VerticalSpan(s.startPoint.x, s.startPoint.y, s.endPoint.y)
  {
    match s.algorithm
    case Circle =>
      Circles.CircleShape(s.startPoint.x, s.startPoint.y, s.radius);
      Circles.CirclePoints(s.startPoint.x, s.startPoint.y, s.radius)
    case StepByStep => Incremental.StepByStep(s.startPoint, s.endPoint, cfg.slopeWalk)
    case DDA => Incremental.Dda(s.startPoint, s.endPoint, cfg.ddaWalk)
    case Bresenham => Lines.BresenhamLinePoints(s.startPoint.x, s.startPoint.y, s.endPoint.x, s.endPoint.y)
  }

  /** draw_algorithm: append the rasterisation and overwrite the timing with the measured duration. */
  function Draw(s: State, cfg: Config, elapsed: real): (r: State)
    ensures r == s.(drawnPoints := r.drawnPoints, executionTime := elapsed)
    ensures |s.drawnPoints| <= |r.drawnPoints| && r.drawnPoints[..|s.drawnPoints|] == s.drawnPoints
  {
    s.(executionTime := elapsed, drawnPoints := s.drawnPoints + Rasterize(s, cfg))
  }

  function CellOf(px: int, py: int): Point
  {
    Point(px / GRID_SIZE, py / GRID_SIZE)
  }

  predicate InSidebar(px: int)
  {
    WIDTH - SIDE_PANEL_WIDTH < px < WIDTH
  }

  /** The primary-button branch of the event loop. */
  function Press(s: State, cfg: Config, px: int, py: int, elapsed: real): (r: State)
    ensures InSidebar(px) ==> r == s.(inputActive := r.inputActive)
    ensures !InSidebar(px) ==> r.inputActive == s.inputActive && r.inputRadius == s.inputRadius
    ensures s.drawnPoints <= r.drawnPoints
    ensures Consistent(s) ==> Consistent(r)
  {
    if InSidebar(px) then
      s.(inputActive := if 50 <= py <= 80 then !s.inputActive else false)
    else if s.algorithm == Circle then
      var s1 := s.(startPoint := CellOf(px, py));
      if IsDigitString(s.inputRadius) then Draw(s1.(radius := DigitsValue(s.inputRadius)), cfg, elapsed) else s1
    else if !s.drawing then
      s.(startPoint := CellOf(px, py), drawing := true)
    else
      Draw(s.(endPoint := CellOf(px, py)), cfg, elapsed).(drawing := false)
  }

  predicate RowHit(i: int, py: int)
  {
    120 + i * 30 <= py <= 120 + (i + 1) * 30
  }

  function ApplyRow(s: State, row: Row): State
  {
    match row
    case Clear => s.(startPoint := Point(0, 0), endPoint := Point(0, 0), drawnPoints := [])
    case Select(a) => s.(algorithm := a)
  }

  /** The tool-row loop after its first n rows: every row the y coordinate hits is applied, in order. */
  function ApplyRows(s: State, py: int, n: nat): (r: State)
    requires n <= |ROWS|
    ensures r == s.(algorithm := r.algorithm, startPoint := r.startPoint, endPoint := r.endPoint,
                    drawnPoints := r.drawnPoints)
    ensures r.drawnPoints == [] || r.drawnPoints == s.drawnPoints
  {
    if n == 0 then s
    else
      var t := ApplyRows(s, py, n - 1);
      if RowHit(n - 1, py) then ApplyRow(t, ROWS[n - 1]) else t
  }

  function SelectRow(s: State, py: int): State
  {
    ApplyRows(s, py, |ROWS|)
  }

  /**
   * A mouse-button press: the event branch, then the tool-row check for the same position.
   * Other buttons do nothing; the drawing only grows, unless Clear empties it; the buffer stays
   * all digits and the radius non-negative.
   */
  function Click(s: State, cfg: Config, button: int, px: int, py: int, elapsed: real): (r: State)
    ensures button != 1 ==> r == s
    ensures r.drawnPoints == [] || s.drawnPoints <= r.drawnPoints
    ensures Consistent(s) ==> Consistent(r)
  {
    if button != 1 then s
    else
      var t := Press(s, cfg, px, py, elapsed);
      if px > WIDTH - SIDE_PANEL_WIDTH then SelectRow(t, py) else t
  }

  /**
   * The KEYDOWN branch of the event loop. Nothing happens while the radius box is inactive, only
   * the radius and the buffer can change, and the buffer never holds anything but digits.
   */
  function KeyDown(s: State, k: Key): (r: State)
    ensures !s.inputActive ==> r == s
    ensures r == s.(radius := r.radius, inputRadius := r.inputRadius)
    ensures Consistent(s) ==> Consistent(r)
  {
    if !s.inputActive then s
    else match k
      case Return =>
        s.(radius := if IsDigitString(s.inputRadius) then DigitsValue(s.inputRadius) else s.radius,
           inputRadius := "")
      case Backspace =>
        s.(inputRadius := if s.inputRadius == [] then [] else s.inputRadius[..|s.inputRadius| - 1])
      case Typed(u) =>
        if IsDigitString(u) then s.(inputRadius := s.inputRadius + u) else s
  }

  /** The algorithm a sidebar row selection leaves: where two rows meet, the later row wins. */
  function RowAlgorithm(py: int, current: Algorithm): Algorithm
  {
    if 210 <= py <= 240 then Circle
    else if 180 <= py <= 210 then Bresenham
    else if 150 <= py <= 180 then DDA
    else if 120 <= py <= 150 then StepByStep
    else current
  }

  predicate ClearRow(py: int)
  {
    240 <= py <= 270
  }

  /**
   * The tool-row loop agrees with a direct reading of the rows: the last algorithm row hit is
   * selected, and the Clear row empties the drawing and resets both end points; nothing else changes.
   */
  lemma {:induction false} SelectRowEffect(s: State, py: int)
    ensures var t := SelectRow(s, py);
      t.algorithm == RowAlgorithm(py, s.algorithm) &&
      (if ClearRow(py) then t.drawnPoints == [] && t.startPoint == Point(0, 0) && t.endPoint == Point(0, 0)
       else t.drawnPoints == s.drawnPoints && t.startPoint == s.startPoint && t.endPoint == s.endPoint) &&
      t.drawing == s.drawing && t.radius == s.radius && t.inputActive == s.inputActive &&
      t.inputRadius == s.inputRadius && t.executionTime == s.executionTime
  {
    assert ApplyRows(s, py, 0) == s;
    var t1 := ApplyRows(s, py, 1);
    var t2 := ApplyRows(s, py, 2);
    var t3 := ApplyRows(s, py, 3);
    var t4 := ApplyRows(s, py, 4);
    assert t1 == if RowHit(0, py) then s.(algorithm := StepByStep) else s;
    assert t2 == if RowHit(1, py) then t1.(algorithm := DDA) else t1;
    assert t3 == if RowHit(2, py) then t2.(algorithm := Bresenham) else t2;
    assert t4 == if RowHit(3, py) then t3.(algorithm := Circle) else t3;
    assert SelectRow(s, py) == if RowHit(4, py) then ApplyRow(t4, Clear) else t4;
  }

  /** Enter commits the buffer only when it is a non-empty digit string, and always empties it. */
  lemma EnterCommits(s: State)
    requires s.inputActive
    ensures KeyDown(s, Return) == s.(radius := KeyDown(s, Return).radius, inputRadius := "")
    ensures KeyDown(s, Return).inputRadius == ""
    ensures IsDigitString(s.inputRadius) ==> KeyDown(s, Return).radius == DigitsValue(s.inputRadius)
    ensures !IsDigitString(s.inputRadius) ==> KeyDown(s, Return).radius == s.radius
  {
  }

  /**
   * A digit key appends its digit; Backspace drops the last character and leaves an empty buffer
   * alone. Neither touches the radius: only Enter commits one.
   */
  lemma EditingKeys(s: State, u: string)
    requires s.inputActive
    ensures IsDigitString(u) ==> KeyDown(s, Typed(u)) == s.(inputRadius := s.inputRadius + u)
    ensures !IsDigitString(u) ==> KeyDown(s, Typed(u)) == s
    ensures s.inputRadius == "" ==> KeyDown(s, Backspace) == s
    ensures s.inputRadius != "" ==> KeyDown(s, Backspace).inputRadius + [s.inputRadius[|s.inputRadius| - 1]] == s.inputRadius
    ensures s.inputRadius != "" ==> KeyDown(s, Backspace) == s.(inputRadius := s.inputRadius[..|s.inputRadius| - 1])
  {
  }

  /**
   * A click in the drawing area with a line tool: the first click records the start cell, the
   * second appends one rasterisation from the start cell to the clicked cell after the earlier
   * points, records the timing and ends the gesture.
   */
  lemma LineGesture(s: State, cfg: Config, px: int, py: int, elapsed: real)
    requires px <= WIDTH - SIDE_PANEL_WIDTH && s.algorithm != Circle
    ensures var t := Click(s, cfg, 1, px, py, elapsed);
      if !s.drawing then
        t == s.(startPoint := CellOf(px, py), drawing := true)
      else
        var line := Rasterize(s.(endPoint := CellOf(px, py)), cfg);
        t == s.(endPoint := CellOf(px, py), drawing := false, executionTime := elapsed,
                drawnPoints := s.drawnPoints + line) &&
        t.drawnPoints[..|s.drawnPoints|] == s.drawnPoints && t.drawnPoints[|s.drawnPoints|..] == line
  {
  }

  /**
   * A click in the drawing area with the Circle tool always moves the centre; it draws, with the
   * radius buffer's value as the radius, only if the buffer is a non-empty digit string.
   */
  lemma CircleClick(s: State, cfg: Config, px: int, py: int, elapsed: real)
    requires px <= WIDTH - SIDE_PANEL_WIDTH && s.algorithm == Circle
    ensures var t := Click(s, cfg, 1, px, py, elapsed);
      var c := CellOf(px, py);
      t.startPoint == c && t.algorithm == Circle && t.drawing == s.drawing &&
      t.inputRadius == s.inputRadius && t.inputActive == s.inputActive && t.endPoint == s.endPoint &&
      if IsDigitString(s.inputRadius) then
        t.radius == DigitsValue(s.inputRadius) && t.executionTime == elapsed &&
        t.drawnPoints == s.drawnPoints + Circles.CirclePoints(c.x, c.y, DigitsValue(s.inputRadius))
      else
        t.radius == s.radius && t.drawnPoints == s.drawnPoints && t.executionTime == s.executionTime
  {
  }

  /**
   * A click in the sidebar never touches the gesture: it toggles the radius box (or closes it)
   * and applies the tool rows.
   */
  lemma SidebarClick(s: State, cfg: Config, px: int, py: int, elapsed: real)
    requires InSidebar(px)
    ensures var t := Click(s, cfg, 1, px, py, elapsed);
      t.drawing == s.drawing && t.radius == s.radius && t.inputRadius == s.inputRadius &&
      t.executionTime == s.executionTime &&
      t.inputActive == (if 50 <= py <= 80 then !s.inputActive else false) &&
      t.algorithm == RowAlgorithm(py, s.algorithm) &&
      if ClearRow(py) then t.drawnPoints == [] && t.startPoint == Point(0, 0) && t.endPoint == Point(0, 0)
      else t.drawnPoints == s.drawnPoints && t.startPoint == s.startPoint && t.endPoint == s.endPoint
  {
    SelectRowEffect(Press(s, cfg, px, py, elapsed), py);
  }

  /**
   * The Clear row (below its shared border with the Circle row) empties the drawing and resets the
   * end points, keeping the tool, a started gesture, the radius and the buffer.
   */
  lemma ClearKeepsTool(s: State, cfg: Config, px: int, py: int, elapsed: real)
    requires InSidebar(px) && 240 < py <= 270
    ensures var t := Click(s, cfg, 1, px, py, elapsed);
      t == s.(inputActive := false, drawnPoints := [], startPoint := Point(0, 0), endPoint := Point(0, 0))
  {
    SidebarClick(s, cfg, px, py, elapsed);
  }

  /**
   * With Bresenham selected, a click and a second click 25 pixels right and 10 pixels down
   * append the six cells of (0,0)->(5,2), shifted to the first click's cell.
   */
  lemma BresenhamGestureExample(s: State, cfg: Config, px: int, py: int, e1: real, e2: real)
    requires s.algorithm == Bresenham && !s.drawing && px + 25 <= WIDTH - SIDE_PANEL_WIDTH
    ensures var c, t := CellOf(px, py), Click(Click(s, cfg, 1, px, py, e1), cfg, 1, px + 25, py + 10, e2);
      t.drawnPoints == s.drawnPoints + [c, Point(c.x + 1, c.y), Point(c.x + 2, c.y + 1),
                                        Point(c.x + 3, c.y + 1), Point(c.x + 4, c.y + 2), Point(c.x + 5, c.y + 2)] &&
      !t.drawing && t.executionTime == e2
  {
    var c := CellOf(px, py);
    assert CellOf(px + 25, py + 10) == Point(c.x + 5, c.y + 2);
    var t1 := Click(s, cfg, 1, px, py, e1);
    assert t1 == s.(startPoint := c, drawing := true);
    var u := t1.(endPoint := Point(c.x + 5, c.y + 2));
    var t2 := Click(t1, cfg, 1, px + 25, py + 10, e2);
    assert t2 == Draw(u, cfg, e2).(drawing := false);
    Lines.BresenhamLineExample(c.x, c.y);
    assert Rasterize(u, cfg) == Lines.BresenhamLinePoints(c.x, c.y, c.x + 5, c.y + 2);
  }

  /**
   * The gesture on which the program as written stops: with DDA selected, a second click in the
   * start cell makes dda_algorithm divide by zero. The model draws that one cell instead.
   */
  lemma DdaSameCellGesture(s: State, cfg: Config, px: int, py: int, elapsed: real)
    requires s.algorithm == DDA && s.drawing && px <= WIDTH - SIDE_PANEL_WIDTH
    requires CellOf(px, py) == s.startPoint
    ensures Incremental.DdaAsWritten(s.startPoint, CellOf(px, py), cfg.ddaWalk).None?
    ensures Click(s, cfg, 1, px, py, elapsed).drawnPoints == s.drawnPoints + [s.startPoint]
  {
  }

  /** Typing 7 then Enter commits radius 7; a typed letter is dropped at once, so a then 7 commits 7 too. */
  lemma RadiusEntryExample(s: State)
    requires s.inputActive && s.inputRadius == ""
    ensures KeyDown(KeyDown(s, Typed("7")), Return) == s.(radius := 7)
    ensures KeyDown(KeyDown(KeyDown(s, Typed("a")), Typed("7")), Return) == s.(radius := 7)
  {
    assert !IsDigit("a"[0]) && IsDigitString("7");
    assert KeyDown(s, Typed("a")) == s;
    assert KeyDown(s, Typed("7")) == s.(inputRadius := "7");
    assert DigitsValue("7") == 7;
  }

  /** After Enter empties the buffer, a Circle click moves the centre but draws nothing. */
  lemma CircleAfterEnterDrawsNothing(s: State, cfg: Config, px: int, py: int, elapsed: real)
    requires s.inputActive && s.algorithm == Circle && px <= WIDTH - SIDE_PANEL_WIDTH
    ensures var t := Click(KeyDown(s, Return), cfg, 1, px, py, elapsed);
      t.drawnPoints == s.drawnPoints && t.startPoint == CellOf(px, py)
  {
  }

  /** After Clear, a completed line gesture leaves exactly that one line in the drawing. */
  lemma ClearThenLine(s: State, cfg: Config, cx: int, cy: int, px: int, py: int, e0: real, e1: real)
    requires InSidebar(cx) && 240 < cy <= 270
    requires s.algorithm != Circle && s.drawing && px <= WIDTH - SIDE_PANEL_WIDTH
    ensures var t := Click(Click(s, cfg, 1, cx, cy, e0), cfg, 1, px, py, e1);
      t.drawnPoints == Rasterize(State(s.algorithm, Point(0, 0), CellOf(px, py), true, s.radius, false,
                                       s.inputRadius, [], s.executionTime), cfg)
  {
    ClearKeepsTool(s, cfg, cx, cy, e0);
  }

  class RasterizationApp {
    var algorithm: Algorithm
    var startPoint: Point
    var endPoint: Point
    var drawing: bool
    var radius: int
    var inputActive: bool
    var inputRadius: string
    var drawnPoints: seq<Point>
    var executionTime: real
    const slopeWalk: Incremental.Walker
    const ddaWalk: Incremental.Walker

    function Snapshot(): State
      reads this
    {
      State(algorithm, startPoint, endPoint, drawing, radius, inputActive, inputRadius, drawnPoints, executionTime)
    }

    function Cfg(): Config
    {
      Config(slopeWalk, ddaWalk)
    }

    ghost predicate Valid()
      reads this
    {
      Consistent(Snapshot())
    }

    constructor (slopeWalk: Incremental.Walker, ddaWalk: Incremental.Walker)
      ensures Valid() && Snapshot() == Initial()
      ensures this.slopeWalk == slopeWalk && this.ddaWalk == ddaWalk
    {
      this.slopeWalk := slopeWalk;
      this.ddaWalk := ddaWalk;
      algorithm := Bresenham;
      startPoint := Point(0, 0);
      endPoint := Point(0, 0);
      drawing := false;
      radius := 0;
      inputActive := false;
      inputRadius := "";
      drawnPoints := [];
      executionTime := 0.0;
    }

    method DrawAlgorithm(elapsed: real)
      requires Valid()
      modifies this`drawnPoints, this`executionTime
      ensures Valid()
      ensures Snapshot() == Draw(old(Snapshot()), Cfg(), elapsed)
    {
      var points: seq<Point>;
      if algorithm == Circle {
        points := Circles.BresenhamCircle(startPoint.x, startPoint.y, radius);
      } else if algorithm == StepByStep {
        points := Incremental.StepByStep(startPoint, endPoint, slopeWalk);
      } else if algorithm == DDA {
        points := Incremental.Dda(startPoint, endPoint, ddaWalk);
      } else {
        points := Lines.BresenhamLine(startPoint.x, startPoint.y, endPoint.x, endPoint.y);
      }
      executionTime := elapsed;
      drawnPoints := drawnPoints + points;
    }

    method SelectToolRow(py: int)
      requires Valid()
      modifies this`algorithm, this`startPoint, this`endPoint, this`drawnPoints
      ensures Valid()
      ensures Snapshot() == SelectRow(old(Snapshot()), py)
    {
      for i := 0 to |ROWS|
        invariant Snapshot() == ApplyRows(old(Snapshot()), py, i)
      {
        if 120 + i * 30 <= py <= 120 + (i + 1) * 30 {
          match ROWS[i]
          case Clear =>
            startPoint := Point(0, 0);
            endPoint := Point(0, 0);
            drawnPoints := [];
          case Select(a) =>
            algorithm := a;
        }
      }
    }

    /** The MOUSEBUTTONDOWN branch of the event loop for the primary button. */
    method HandlePress(px: int, py: int, elapsed: real)
      requires Valid()
      modifies this
      ensures Valid()
      ensures Snapshot() == Press(old(Snapshot()), Cfg(), px, py, elapsed)
    {
      if WIDTH - SIDE_PANEL_WIDTH < px < WIDTH {
        if 50 <= py <= 80 {
          inputActive := !inputActive;
        } else {
          inputActive := false;
        }
      } else if algorithm == Circle {
        startPoint := Point(px / GRID_SIZE, py / GRID_SIZE);
        if IsDigitString(inputRadius) {
          radius := DigitsValue(inputRadius);
          DrawAlgorithm(elapsed);
        }
      } else if !drawing {
        startPoint := Point(px / GRID_SIZE, py / GRID_SIZE);
        drawing := true;
      } else {
        endPoint := Point(px / GRID_SIZE, py / GRID_SIZE);
        DrawAlgorithm(elapsed);
        drawing := false;
      }
    }

    /** A mouse-button press: the event branch, then the frame's tool-row check. */
    method HandleClick(button: int, px: int, py: int, elapsed: real)
      requires Valid()
      modifies this
      ensures Valid()
      ensures Snapshot() == Click(old(Snapshot()), Cfg(), button, px, py, elapsed)
    {
      if button == 1 {
        HandlePress(px, py, elapsed);
        if px > WIDTH - SIDE_PANEL_WIDTH {
          SelectToolRow(py);
        }
      }
    }

    method HandleKey(k: Key)
      requires Valid()
      modifies this`radius, this`inputRadius
      ensures Valid()
      ensures Snapshot() == KeyDown(old(Snapshot()), k)
    {
      if inputActive {
        match k
        case Return =>
          if IsDigitString(inputRadius) {
            radius := DigitsValue(inputRadius);
          }
          inputRadius := "";
        case Backspace =>
          if inputRadius != [] {
            inputRadius := inputRadius[..|inputRadius| - 1];
          }
        case Typed(u) =>
          if IsDigitString(u) {
            inputRadius := inputRadius + u;
          }
      }
    }
  }
}
