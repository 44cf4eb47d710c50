/**
 * The floating-point line rasterisers of lab3/main.py, step_by_step and dda_algorithm.
 * Only their integer parts are modelled; the float walks are passed in as opaque functions.
 */
module Incremental {
  import opened Geometry

  /** A rasteriser from a start cell to an end cell; stands for a floating-point walk. */
  type Walker = (Point, Point) -> seq<Point>

  datatype Option<T> = None | Some(value: T)

  /** The vertical branch of step_by_step: column x0 from the lower y to the higher y. */
  function VerticalSpan(x0: int, y0: int, y1: int): (r: seq<Point>)
    ensures |r| == Abs(y1 - y0) + 1
    ensures r[0] == Point(x0, Min(y0, y1)) && r[|r| - 1] == Point(x0, Max(y0, y1))
    ensures forall i :: 0 <= i < |r| ==> r[i].x == x0
    ensures forall i :: 0 < i < |r| ==> r[i].y == r[i - 1].y + 1
  {
    seq(Max(y0, y1) - Min(y0, y1) + 1, i => Point(x0, Min(y0, y1) + i))
  }

  /** step_by_step: a vertical segment is listed cell by cell; any other goes to the float walk. */
  function StepByStep(p0: Point, p1: Point, slopeWalk: Walker): (r: seq<Point>)
    ensures p0.x == p1.x ==> p0 in r && p1 in r && |r| == Abs(p1.y - p0.y) + 1
    ensures p0.x == p1.x ==> forall q :: q in r ==> q.x == p0.x && Min(p0.y, p1.y) <= q.y <= Max(p0.y, p1.y)
    ensures p0.x != p1.x ==> r == slopeWalk(p0, p1)
    ensures p0.x == p1.x ==> r == VerticalSpan(p0.x, p0.y, p1.y)
  {
    if p0.x == p1.x then
      var r := VerticalSpan(p0.x, p0.y, p1.y);
      assert forall q :: q in r ==> Min(p0.y, p1.y) <= q.y <= Max(p0.y, p1.y) by {
        forall q | q in r
          ensures Min(p0.y, p1.y) <= q.y <= Max(p0.y, p1.y)
        {
          var i :| 0 <= i < |r| && r[i] == q;
          assert r[i].y == Min(p0.y, p1.y) + i;
        }
      }
      assert p0 == r[0] || p0 == r[|r| - 1];
      assert p1 == r[0] || p1 == r[|r| - 1];
      r
    else
      slopeWalk(p0, p1)
  }

  /** The number of increments dda_algorithm divides the segment into. */
  function DdaSteps(p0: Point, p1: Point): nat
  {
    Max(Abs(p1.x - p0.x), Abs(p1.y - p0.y))
  }

  /**
   * dda_algorithm as written: it divides by the step count, so coincident end points raise
   * ZeroDivisionError (None here) instead of producing a point.
   */
  function DdaAsWritten(p0: Point, p1: Point, ddaWalk: Walker): (r: Option<seq<Point>>)
    ensures r.None? <==> p0 == p1
    ensures p0 != p1 ==> r == Some(ddaWalk(p0, p1))
  {
    if DdaSteps(p0, p1) == 0 then None else Some(ddaWalk(p0, p1))
  }

  /** dda_algorithm with the degenerate segment guarded: a single cell, no division. */
  function Dda(p0: Point, p1: Point, ddaWalk: Walker): (r: seq<Point>)
    ensures p0 == p1 ==> r == [p0]
    ensures p0 != p1 ==> r == ddaWalk(p0, p1)
  {
    if DdaSteps(p0, p1) == 0 then [p0] else ddaWalk(p0, p1)
  }

  /** Clicking the same cell twice with DDA selected crashes the program as written. */
  lemma DdaCoincidentCrashes(p: Point, ddaWalk: Walker)
    ensures DdaAsWritten(p, p, ddaWalk) == None
    ensures Dda(p, p, ddaWalk) == [p]
  {
  }

  /** The corrected DDA agrees with the code wherever the code does not crash. */
  lemma DdaAgreesWhenDefined(p0: Point, p1: Point, ddaWalk: Walker)
    ensures DdaAsWritten(p0, p1, ddaWalk).Some? ==> DdaAsWritten(p0, p1, ddaWalk).value == Dda(p0, p1, ddaWalk)
  {
  }
}
