/** The all-octant integer Bresenham line of lab3/main.py (bresenham_line). */
module Lines {
  import opened Geometry
  import Incremental

  /** The quantities bresenham_line fixes before its loop: the target and the step data. */
  datatype Setup = Setup(x1: int, y1: int, dx: int, dy: int, sx: int, sy: int)

  /** The variables the loop updates: the current cell and the error term. */
  datatype Cursor = Cursor(x: int, y: int, err: int)

  function SetupOf(x0: int, y0: int, x1: int, y1: int): Setup
  {
    Setup(x1, y1, Abs(x1 - x0), Abs(y1 - y0), if x0 < x1 then 1 else -1, if y0 < y1 then 1 else -1)
  }

  function Start(x0: int, y0: int, x1: int, y1: int): Cursor
  {
    Cursor(x0, y0, Abs(x1 - x0) - Abs(y1 - y0))
  }

  /** Steps still to take along x (resp. y), counted in the stepping direction. */
  function RestX(c: Setup, p: Point): int
  {
    if c.sx == 1 then c.x1 - p.x else p.x - c.x1
  }

  function RestY(c: Setup, p: Point): int
  {
    if c.sy == 1 then c.y1 - p.y else p.y - c.y1
  }

  function At(s: Cursor): Point
  {
    Point(s.x, s.y)
  }

  /** How far a cell is off the ideal segment: twice this is what the error term tracks. */
  function Deviation(c: Setup, p: Point): int
  {
    c.dy * RestX(c, p) - c.dx * RestY(c, p)
  }

  /** Chebyshev distance to the target: the loop variant. */
  function Dist(c: Setup, s: Cursor): int
  {
    Max(RestX(c, At(s)), RestY(c, At(s)))
  }

  predicate Done(c: Setup, s: Cursor)
  {
    s.x == c.x1 && s.y == c.y1
  }

  /** What holds at the head of every iteration of the loop. */
  ghost predicate Inv(c: Setup, s: Cursor)
  {
    (c.sx == 1 || c.sx == -1) && (c.sy == 1 || c.sy == -1) &&
    0 <= RestX(c, At(s)) <= c.dx && 0 <= RestY(c, At(s)) <= c.dy &&
    s.err == c.dx - c.dy + Deviation(c, At(s)) &&
    -Max(c.dx, c.dy) <= 2 * Deviation(c, At(s)) <= Max(c.dx, c.dy)
  }

  /** One pass of the loop body after the emit-and-test: the two error-driven moves. */
  function Step(c: Setup, s: Cursor): Cursor
  {
    var e2 := 2 * s.err;
    var movesX, movesY := e2 > -c.dy, e2 < c.dx;
    Cursor(if movesX then s.x + c.sx else s.x,
           if movesY then s.y + c.sy else s.y,
           s.err - (if movesX then c.dy else 0) + (if movesY then c.dx else 0))
  }

  lemma StartInv(x0: int, y0: int, x1: int, y1: int)
    ensures Inv(SetupOf(x0, y0, x1, y1), Start(x0, y0, x1, y1))
    ensures Dist(SetupOf(x0, y0, x1, y1), Start(x0, y0, x1, y1)) == Max(Abs(x1 - x0), Abs(y1 - y0))
  {
  }

  lemma MulLe(k: int, p: int, q: int)
    requires 0 <= k && p <= q
    ensures k * p <= k * q
  {
  }

  /**
   * The arithmetic core of one step, on the rests a, b and the deviation e: x moves when
   * 2e > dy - 2dx, y moves when 2e < 2dy - dx.
   */
  lemma StepArith(dx: int, dy: int, a: int, b: int, e: int)
    requires 0 <= a <= dx && 0 <= b <= dy && (a != 0 || b != 0)
    requires e == dy * a - dx * b && -Max(dx, dy) <= 2 * e <= Max(dx, dy)
    ensures var xs, ys := 2 * e > dy - 2 * dx, 2 * e < 2 * dy - dx;
      var a', b' := (if xs then a - 1 else a), (if ys then b - 1 else b);
      0 <= a' && 0 <= b' && Max(a', b') == Max(a, b) - 1 &&
      var e' := e - (if xs then dy else 0) + (if ys then dx else 0);
      -Max(dx, dy) <= 2 * e' <= Max(dx, dy)
  {
    NoOvershoot(dx, dy, a, b, e);
    if dx >= dy {
      XMajor(dx, dy, a, b, e);
    } else {
      YMajor(dx, dy, a, b, e);
    }
  }

  lemma NoOvershoot(dx: int, dy: int, a: int, b: int, e: int)
    requires 0 <= a <= dx && 0 <= b <= dy && (a != 0 || b != 0)
    requires e == dy * a - dx * b
    ensures a == 0 ==> !(2 * e > dy - 2 * dx)
    ensures b == 0 ==> !(2 * e < 2 * dy - dx)
  {
  }

  lemma XMajor(dx: int, dy: int, a: int, b: int, e: int)
    requires 0 <= a <= dx && 0 <= b <= dy && (a != 0 || b != 0) && dy <= dx
    requires e == dy * a - dx * b && -dx <= 2 * e <= dx
    ensures b <= a && 0 < a
    ensures 2 * e > dy - 2 * dx
    ensures a == b ==> 2 * e < 2 * dy - dx
  {
    if b > a {
      MulLe(a, dy, dx);
      MulLe(dx, a + 1, b);
    }
    if dy == dx {
      MulLe(dx, b, a);
    }
    if a == b {
      assert e == (dy - dx) * a;
      MulLe(dx - dy, 1, a);
    }
  }

  lemma YMajor(dx: int, dy: int, a: int, b: int, e: int)
    requires 0 <= a <= dx && 0 <= b <= dy && (a != 0 || b != 0) && dx < dy
    requires e == dy * a - dx * b && -dy <= 2 * e <= dy
    ensures a <= b && 0 < b
    ensures 2 * e < 2 * dy - dx
    ensures a == b ==> 2 * e > dy - 2 * dx
  {
    if a > b {
      MulLe(b, dx, dy);
      MulLe(dy, b + 1, a);
    }
    if a == b {
      assert e == (dy - dx) * a;
      MulLe(dy - dx, 1, a);
    }
  }

  /**
   * One step keeps the invariant, moves to a touching cell and brings the target exactly one
   * step closer in Chebyshev distance.
   */
  lemma StepLemma(c: Setup, s: Cursor)
    requires Inv(c, s) && !Done(c, s)
    ensures Inv(c, Step(c, s))
    ensures Dist(c, Step(c, s)) == Dist(c, s) - 1
    ensures Adjacent(At(s), At(Step(c, s)))
  {
    var dx, dy := c.dx, c.dy;
    var a, b := RestX(c, At(s)), RestY(c, At(s));
    var e := Deviation(c, At(s));
    var t := Step(c, s);
    var xs := 2 * e > dy - 2 * dx;
    var ys := 2 * e < 2 * dy - dx;
    StepArith(dx, dy, a, b, e);
    var da := if xs then 1 else 0;
    var db := if ys then 1 else 0;
    assert t == Cursor(s.x + da * c.sx, s.y + db * c.sy, s.err - da * dy + db * dx);
    assert RestX(c, At(t)) == a - da && RestY(c, At(t)) == b - db;
    Shift(dx, dy, a, b, da, db);
  }

  lemma Shift(dx: int, dy: int, a: int, b: int, da: int, db: int)
    ensures dy * (a - da) - dx * (b - db) == dy * a - dx * b - da * dy + db * dx
  {
  }

  /** The cells the loop emits from cursor s onwards, in order. */
  function LineFrom(c: Setup, s: Cursor): seq<Point>
    requires Inv(c, s)
    decreases Dist(c, s)
  {
    if Done(c, s) then [At(s)]
    else
      StepLemma(c, s);
      [At(s)] + LineFrom(c, Step(c, s))
  }

  /** The emitted cells run from the current cell to the target, one per unit of distance. */
  lemma {:induction false} LineFromShape(c: Setup, s: Cursor)
    requires Inv(c, s)
    ensures |LineFrom(c, s)| == Dist(c, s) + 1
    ensures LineFrom(c, s)[0] == At(s)
    ensures LineFrom(c, s)[|LineFrom(c, s)| - 1] == Point(c.x1, c.y1)
    decreases Dist(c, s)
  {
    if !Done(c, s) {
      StepLemma(c, s);
      LineFromShape(c, Step(c, s));
    }
  }

  /** The point list bresenham_line(x0, y0, x1, y1) returns. */
  function BresenhamLinePoints(x0: int, y0: int, x1: int, y1: int): (r: seq<Point>)
    ensures |r| == Max(Abs(x1 - x0), Abs(y1 - y0)) + 1
    ensures r[0] == Point(x0, y0) && r[|r| - 1] == Point(x1, y1)
  {
    StartInv(x0, y0, x1, y1);
    LineFromShape(SetupOf(x0, y0, x1, y1), Start(x0, y0, x1, y1));
    LineFrom(SetupOf(x0, y0, x1, y1), Start(x0, y0, x1, y1))
  }

  /** bresenham_line: emit the current cell, stop at the target, else make the error-driven moves. */
  method BresenhamLine(x0: int, y0: int, x1: int, y1: int) returns (points: seq<Point>)
    ensures points == BresenhamLinePoints(x0, y0, x1, y1)
  {
    var dx: int := Abs(x1 - x0);
    var dy: int := Abs(y1 - y0);
    var sx := if x0 < x1 then 1 else -1;
    var sy := if y0 < y1 then 1 else -1;
    var err: int := dx - dy;
    var x, y := x0, y0;
    ghost var c := Setup(x1, y1, dx, dy, sx, sy);
    StartInv(x0, y0, x1, y1);
    points := [];
    while true
      invariant Inv(c, Cursor(x, y, err))
      invariant points + LineFrom(c, Cursor(x, y, err)) == BresenhamLinePoints(x0, y0, x1, y1)
      decreases Dist(c, Cursor(x, y, err))
    {
      ghost var before := points;
      points := points + [Point(x, y)];
      if x == x1 && y == y1 {
        break;
      }
      ghost var here := Cursor(x, y, err);
      var e2 := 2 * err;
      if e2 > -dy {
        err := err - dy;
        x := x + sx;
      }
      if e2 < dx {
        err := err + dx;
        y := y + sy;
      }
      assert x == Step(c, here).x && y == Step(c, here).y && err == Step(c, here).err;
      StepLemma(c, here);
      ghost var rest := LineFrom(c, Cursor(x, y, err));
      assert LineFrom(c, here) == [At(here)] + rest;
      assert points == before + [At(here)];
      AppendShift(before, At(here), rest);
    }
  }

  lemma {:induction false} LineFromNeighbours(c: Setup, s: Cursor)
    requires Inv(c, s)
    ensures forall i :: 0 <= i < |LineFrom(c, s)| - 1 ==> Adjacent(LineFrom(c, s)[i], LineFrom(c, s)[i + 1])
    decreases Dist(c, s)
  {
    if !Done(c, s) {
      StepLemma(c, s);
      LineFromNeighbours(c, Step(c, s));
      var r, t := LineFrom(c, s), LineFrom(c, Step(c, s));
      assert r == [At(s)] + t;
      forall i | 0 <= i < |r| - 1
        ensures Adjacent(r[i], r[i + 1])
      {
        if i > 0 {
          assert r[i] == t[i - 1] && r[i + 1] == t[i];
        }
      }
    }
  }

  lemma {:induction false} LineFromRests(c: Setup, s: Cursor)
    requires Inv(c, s)
    ensures forall p :: p in LineFrom(c, s) ==>
      0 <= RestX(c, p) <= RestX(c, At(s)) && 0 <= RestY(c, p) <= RestY(c, At(s)) &&
      -Max(c.dx, c.dy) <= 2 * Deviation(c, p) <= Max(c.dx, c.dy)
    decreases Dist(c, s)
  {
    if !Done(c, s) {
      StepLemma(c, s);
      LineFromRests(c, Step(c, s));
      assert LineFrom(c, s) == [At(s)] + LineFrom(c, Step(c, s));
    }
  }

  /** Consecutive cells of a Bresenham line always touch and never repeat. */
  lemma BresenhamLineConnected(x0: int, y0: int, x1: int, y1: int)
    ensures var r := BresenhamLinePoints(x0, y0, x1, y1);
      forall i :: 0 <= i < |r| - 1 ==> Adjacent(r[i], r[i + 1])
  {
    StartInv(x0, y0, x1, y1);
    LineFromNeighbours(SetupOf(x0, y0, x1, y1), Start(x0, y0, x1, y1));
  }

  /** Every cell of a Bresenham line lies in the box spanned by its end points. */
  lemma BresenhamLineInBox(x0: int, y0: int, x1: int, y1: int)
    ensures forall p :: p in BresenhamLinePoints(x0, y0, x1, y1) ==> InBox(p, x0, y0, x1, y1)
  {
    var c := SetupOf(x0, y0, x1, y1);
    StartInv(x0, y0, x1, y1);
    LineFromRests(c, Start(x0, y0, x1, y1));
  }

  /**
   * Every cell is within half a cell of the true segment, measured along the major axis:
   * twice the cross product of (p - p0) with (p1 - p0) is at most max(|dx|, |dy|).
   */
  lemma BresenhamLineAccuracy(x0: int, y0: int, x1: int, y1: int)
    ensures forall p :: p in BresenhamLinePoints(x0, y0, x1, y1) ==>
      2 * Abs((p.x - x0) * (y1 - y0) - (p.y - y0) * (x1 - x0)) <= Max(Abs(x1 - x0), Abs(y1 - y0))
  {
    var c := SetupOf(x0, y0, x1, y1);
    StartInv(x0, y0, x1, y1);
    LineFromRests(c, Start(x0, y0, x1, y1));
    forall p | p in BresenhamLinePoints(x0, y0, x1, y1)
      ensures 2 * Abs((p.x - x0) * (y1 - y0) - (p.y - y0) * (x1 - x0)) <= Max(Abs(x1 - x0), Abs(y1 - y0))
    {
      CrossIsDeviation(x0, y0, x1, y1, p);
    }
  }

  lemma CrossIsDeviation(x0: int, y0: int, x1: int, y1: int, p: Point)
    ensures Abs((p.x - x0) * (y1 - y0) - (p.y - y0) * (x1 - x0)) == Abs(Deviation(SetupOf(x0, y0, x1, y1), p))
  {
  }

  /** LineFrom one step at a time, for tracing concrete runs. */
  lemma Unfold(c: Setup, s: Cursor, t: Cursor)
    requires Inv(c, s) && !Done(c, s) && t == Step(c, s)
    ensures Inv(c, t) && LineFrom(c, s) == [At(s)] + LineFrom(c, t)
  {
    StepLemma(c, s);
  }

  /** The worked example (0,0) -> (5,2), placed anywhere on the grid. */
  lemma BresenhamLineExample(x: int, y: int)
    ensures BresenhamLinePoints(x, y, x + 5, y + 2) ==
      [Point(x, y), Point(x + 1, y), Point(x + 2, y + 1), Point(x + 3, y + 1), Point(x + 4, y + 2), Point(x + 5, y + 2)]
  {
    var c := SetupOf(x, y, x + 5, y + 2);
    assert c == Setup(x + 5, y + 2, 5, 2, 1, 1);
    StartInv(x, y, x + 5, y + 2);
    Unfold(c, Cursor(x, y, 3), Cursor(x + 1, y, 1));
    Unfold(c, Cursor(x + 1, y, 1), Cursor(x + 2, y + 1, 4));
    Unfold(c, Cursor(x + 2, y + 1, 4), Cursor(x + 3, y + 1, 2));
    Unfold(c, Cursor(x + 3, y + 1, 2), Cursor(x + 4, y + 2, 5));
    Unfold(c, Cursor(x + 4, y + 2, 5), Cursor(x + 5, y + 2, 3));
  }

  /**
   * Swapping the end points does not give the reversed list: the segment (0,0)-(2,1), placed
   * anywhere, passes through (1,0) one way and through (1,1) the other.
   */
  lemma BresenhamLineNotReversible(x: int, y: int)
    ensures BresenhamLinePoints(x, y, x + 2, y + 1) == [Point(x, y), Point(x + 1, y), Point(x + 2, y + 1)]
    ensures BresenhamLinePoints(x + 2, y + 1, x, y) == [Point(x + 2, y + 1), Point(x + 1, y + 1), Point(x, y)]
  {
    var c := SetupOf(x, y, x + 2, y + 1);
    assert c == Setup(x + 2, y + 1, 2, 1, 1, 1);
    StartInv(x, y, x + 2, y + 1);
    Unfold(c, Cursor(x, y, 1), Cursor(x + 1, y, 0));
    Unfold(c, Cursor(x + 1, y, 0), Cursor(x + 2, y + 1, 1));
    var d := SetupOf(x + 2, y + 1, x, y);
    assert d == Setup(x, y, 2, 1, -1, -1);
    StartInv(x + 2, y + 1, x, y);
    Unfold(d, Cursor(x + 2, y + 1, 1), Cursor(x + 1, y + 1, 0));
    Unfold(d, Cursor(x + 1, y + 1, 0), Cursor(x, y, 1));
  }

  lemma {:induction false} VerticalTrace(c: Setup, s: Cursor)
    requires Inv(c, s) && c.dx == 0 && s.y <= c.y1 && (c.sy == 1 || s.y == c.y1)
    ensures LineFrom(c, s) == Incremental.VerticalSpan(c.x1, s.y, c.y1)
    decreases c.y1 - s.y
  {
    assert s.x == c.x1;
    if s.y < c.y1 {
      StepLemma(c, s);
      var t := Step(c, s);
      assert t.x == s.x && t.y == s.y + 1;
      VerticalTrace(c, t);
      var span := Incremental.VerticalSpan(c.x1, s.y, c.y1);
      assert span == [At(s)] + Incremental.VerticalSpan(c.x1, t.y, c.y1);
    }
  }

  /**
   * On an upward vertical segment Bresenham produces exactly the cells of step_by_step's
   * vertical branch, in the same order.
   */
  lemma BresenhamVerticalAgrees(x: int, y0: int, y1: int)
    requires y0 <= y1
    ensures BresenhamLinePoints(x, y0, x, y1) == Incremental.VerticalSpan(x, y0, y1)
  {
    StartInv(x, y0, x, y1);
    VerticalTrace(SetupOf(x, y0, x, y1), Start(x, y0, x, y1));
  }
}
