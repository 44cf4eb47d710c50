/** The midpoint circle of lab3/main.py (bresenham_circle). */
module Circles {
  import opened Geometry

  /** Mirror images of a cell about the vertical axis, the horizontal axis and the diagonal through (xc, yc). */
  function MirrorX(xc: int, p: Point): Point
  {
    Point(2 * xc - p.x, p.y)
  }

  function MirrorY(yc: int, p: Point): Point
  {
    Point(p.x, 2 * yc - p.y)
  }

  function Swap(xc: int, yc: int, p: Point): Point
  {
    Point(xc + (p.y - yc), yc + (p.x - xc))
  }

  /**
   * The eight cells bresenham_circle emits for one octant offset (x, y) about (xc, yc),
   * in the order of its literal list.
   */
  function Reflections(xc: int, yc: int, x: int, y: int): seq<Point>
  {
    [Point(xc + x, yc + y), Point(xc + y, yc + x), Point(xc - x, yc + y), Point(xc - y, yc + x),
     Point(xc + x, yc - y), Point(xc - x, yc - y), Point(xc + y, yc - x), Point(xc - y, yc - x)]
  }

  /** The eight cells of one group are closed under the three mirrors, hence under all eight symmetries. */
  lemma ReflectionsClosed(xc: int, yc: int, x: int, y: int)
    ensures forall p :: p in Reflections(xc, yc, x, y) ==>
      MirrorX(xc, p) in Reflections(xc, yc, x, y) && MirrorY(yc, p) in Reflections(xc, yc, x, y) &&
      Swap(xc, yc, p) in Reflections(xc, yc, x, y)
  {
    var r := Reflections(xc, yc, x, y);
    var mx, my, sw := [2, 3, 0, 1, 5, 4, 7, 6], [4, 6, 5, 7, 0, 2, 1, 3], [1, 0, 6, 4, 3, 7, 2, 5];
    forall i | 0 <= i < 8
      ensures MirrorX(xc, r[i]) == r[mx[i]] && MirrorY(yc, r[i]) == r[my[i]] && Swap(xc, yc, r[i]) == r[sw[i]]
    {
    }
  }

  /**
   * The octant offsets the loop visits from state (x, y, d): y grows by one per iteration and
   * x drops by one whenever the decision variable d is not negative.
   */
  function Walk(x: int, y: int, d: int): seq<Point>
    decreases x - y
  {
    if x < y then []
    else if d < 0 then [Point(x, y)] + Walk(x, y + 1, d + 2 * (y + 1) + 1)
    else [Point(x, y)] + Walk(x - 1, y + 1, d + 2 * (y + 1) - 2 * (x - 1) + 1)
  }

  /** The k-th offset of a walk has y advanced by k and stays in the octant 0 <= y <= x, below the start x. */
  lemma {:induction false} WalkShape(x: int, y: int, d: int)
    ensures forall k :: 0 <= k < |Walk(x, y, d)| ==>
      Walk(x, y, d)[k].y == y + k && Walk(x, y, d)[k].y <= Walk(x, y, d)[k].x <= x
    decreases x - y
  {
    if x >= y {
      if d < 0 {
        WalkShape(x, y + 1, d + 2 * (y + 1) + 1);
      } else {
        WalkShape(x - 1, y + 1, d + 2 * (y + 1) - 2 * (x - 1) + 1);
      }
    }
  }

  /** The offsets bresenham_circle(xc, yc, r) visits. */
  function Offsets(r: int): seq<Point>
  {
    Walk(r, 0, 1 - r)
  }

  /** The reflections of each offset, concatenated in order. */
  function ReflectAll(xc: int, yc: int, offs: seq<Point>): seq<Point>
  {
    if offs == [] then [] else Reflections(xc, yc, offs[0].x, offs[0].y) + ReflectAll(xc, yc, offs[1..])
  }

  /** Group k of eight cells is exactly the reflection set of offset k. */
  lemma {:induction false} ReflectAllGroups(xc: int, yc: int, offs: seq<Point>)
    ensures |ReflectAll(xc, yc, offs)| == 8 * |offs|
    ensures forall k :: 0 <= k < |offs| ==>
      ReflectAll(xc, yc, offs)[8 * k..8 * k + 8] == Reflections(xc, yc, offs[k].x, offs[k].y)
  {
    if offs != [] {
      ReflectAllGroups(xc, yc, offs[1..]);
      var head, tail := Reflections(xc, yc, offs[0].x, offs[0].y), ReflectAll(xc, yc, offs[1..]);
      assert ReflectAll(xc, yc, offs) == head + tail;
      forall k | 1 <= k < |offs|
        ensures (head + tail)[8 * k..8 * k + 8] == Reflections(xc, yc, offs[k].x, offs[k].y)
      {
        assert (head + tail)[8 * k..8 * k + 8] == tail[8 * (k - 1)..8 * (k - 1) + 8];
        assert offs[1..][k - 1] == offs[k];
      }
    }
  }

  /** The point list bresenham_circle(xc, yc, r) returns. */
  function CirclePoints(xc: int, yc: int, r: int): seq<Point>
  {
    ReflectAll(xc, yc, Offsets(r))
  }

  /**
   * The circle comes in whole groups of eight; a negative radius draws nothing; radius 0 draws
   * the centre eight times; otherwise the four axis cells at distance r are drawn.
   */
  lemma CircleShape(xc: int, yc: int, r: int)
    ensures |CirclePoints(xc, yc, r)| % 8 == 0
    ensures r < 0 ==> CirclePoints(xc, yc, r) == []
    ensures r >= 0 ==>
      Point(xc + r, yc) in CirclePoints(xc, yc, r) && Point(xc - r, yc) in CirclePoints(xc, yc, r) &&
      Point(xc, yc + r) in CirclePoints(xc, yc, r) && Point(xc, yc - r) in CirclePoints(xc, yc, r)
    ensures r == 0 ==> CirclePoints(xc, yc, r) == seq(8, _ => Point(xc, yc))
  {
    var pts := CirclePoints(xc, yc, r);
    ReflectAllGroups(xc, yc, Offsets(r));
    if r >= 0 {
      assert Offsets(r)[0] == Point(r, 0);
      var g := pts[0..8];
      assert g == Reflections(xc, yc, r, 0);
      assert g[0] == Point(xc + r, yc) && g[1] == Point(xc, yc + r);
      assert g[2] == Point(xc - r, yc) && g[6] == Point(xc, yc - r);
      assert g[0] == pts[0] && g[1] == pts[1] && g[2] == pts[2] && g[6] == pts[6];
    }
    if r == 0 {
      assert Offsets(r) == [Point(0, 0)];
    }
  }

  lemma {:induction false} ReflectAllSnoc(xc: int, yc: int, offs: seq<Point>, o: Point)
    ensures ReflectAll(xc, yc, offs + [o]) == ReflectAll(xc, yc, offs) + Reflections(xc, yc, o.x, o.y)
  {
    if offs == [] {
      assert ReflectAll(xc, yc, [o]) == Reflections(xc, yc, o.x, o.y) + ReflectAll(xc, yc, []);
    } else {
      assert (offs + [o])[0] == offs[0] && (offs + [o])[1..] == offs[1..] + [o];
      ReflectAllSnoc(xc, yc, offs[1..], o);
    }
  }

  /** bresenham_circle: emit the eight reflections of (x, y), then advance y and maybe x. */
  method BresenhamCircle(xc: int, yc: int, r: int) returns (points: seq<Point>)
    ensures points == CirclePoints(xc, yc, r)
  {
    points := [];
    var x := r;
    var y := 0;
    var d := 1 - r;
    ghost var done: seq<Point> := [];
    while x >= y
      invariant done + Walk(x, y, d) == Offsets(r)
      invariant points == ReflectAll(xc, yc, done)
      decreases x - y
    {
      var octant := [(x, y), (y, x), (-x, y), (-y, x), (x, -y), (-x, -y), (y, -x), (-y, -x)];
      ghost var before := points;
      ghost var group := Reflections(xc, yc, x, y);
      assert forall j :: 0 <= j < 8 ==> group[j] == Point(xc + octant[j].0, yc + octant[j].1);
      for j := 0 to 8
        invariant points == before + group[..j]
      {
        points := points + [Point(xc + octant[j].0, yc + octant[j].1)];
        assert group[..j + 1] == group[..j] + [group[j]];
      }
      assert group[..8] == group;
      ReflectAllSnoc(xc, yc, done, Point(x, y));
      ghost var rest := Walk(x, y, d);
      AppendShift(done, Point(x, y), rest[1..]);
      done := done + [Point(x, y)];
      y := y + 1;
      if d < 0 {
        d := d + 2 * y + 1;
      } else {
        x := x - 1;
        d := d + 2 * y - 2 * x + 1;
      }
      assert rest == [rest[0]] + Walk(x, y, d);
    }
    assert Walk(x, y, d) == [];
    assert done == Offsets(r);
  }

  /** Each group of eight is the reflection set of an offset with 0 <= y <= x <= r. */
  lemma CircleOctants(xc: int, yc: int, r: int)
    ensures |CirclePoints(xc, yc, r)| == 8 * |Offsets(r)|
    ensures forall k :: 0 <= k < |Offsets(r)| ==>
      0 <= Offsets(r)[k].y <= Offsets(r)[k].x <= r &&
      CirclePoints(xc, yc, r)[8 * k..8 * k + 8] == Reflections(xc, yc, Offsets(r)[k].x, Offsets(r)[k].y)
  {
    WalkShape(r, 0, 1 - r);
    ReflectAllGroups(xc, yc, Offsets(r));
  }

  /** A cell of a concatenation of groups belongs to one of the groups. */
  lemma InSomeGroup(xc: int, yc: int, offs: seq<Point>, p: Point) returns (k: int)
    requires p in ReflectAll(xc, yc, offs)
    ensures 0 <= k < |offs| && p in Reflections(xc, yc, offs[k].x, offs[k].y)
  {
    var pts := ReflectAll(xc, yc, offs);
    ReflectAllGroups(xc, yc, offs);
    var i :| 0 <= i < |pts| && pts[i] == p;
    k := i / 8;
    assert pts[8 * k..8 * k + 8][i - 8 * k] == p;
  }

  lemma GroupInAll(xc: int, yc: int, offs: seq<Point>, k: int, q: Point)
    requires 0 <= k < |offs| && q in Reflections(xc, yc, offs[k].x, offs[k].y)
    ensures q in ReflectAll(xc, yc, offs)
  {
    var pts := ReflectAll(xc, yc, offs);
    ReflectAllGroups(xc, yc, offs);
    var j :| 0 <= j < 8 && pts[8 * k..8 * k + 8][j] == q;
    assert pts[8 * k + j] == q;
  }

  /** The circle is symmetric under the eight reflections about its centre. */
  lemma CircleSymmetric(xc: int, yc: int, r: int)
    ensures forall p :: p in CirclePoints(xc, yc, r) ==>
      MirrorX(xc, p) in CirclePoints(xc, yc, r) && MirrorY(yc, p) in CirclePoints(xc, yc, r) &&
      Swap(xc, yc, p) in CirclePoints(xc, yc, r)
  {
    var offs := Offsets(r);
    forall p | p in CirclePoints(xc, yc, r)
      ensures MirrorX(xc, p) in CirclePoints(xc, yc, r) && MirrorY(yc, p) in CirclePoints(xc, yc, r) &&
        Swap(xc, yc, p) in CirclePoints(xc, yc, r)
    {
      var k := InSomeGroup(xc, yc, offs, p);
      ReflectionsClosed(xc, yc, offs[k].x, offs[k].y);
      GroupInAll(xc, yc, offs, k, MirrorX(xc, p));
      GroupInAll(xc, yc, offs, k, MirrorY(yc, p));
      GroupInAll(xc, yc, offs, k, Swap(xc, yc, p));
    }
  }

  /**
   * What the midpoint decision variable means at the loop head: d is (y+1)^2 + x^2 - x - r^2,
   * i.e. the circle equation evaluated at the midpoint (x - 1/2, y + 1), scaled and shifted
   * to an integer; and the current offset, if it is still in the octant, is near the circle.
   */
  ghost predicate MidpointInv(r: int, x: int, y: int, d: int)
  {
    0 <= y && d == (y + 1) * (y + 1) + x * x - x - r * r &&
    (x >= y ==> r * r - x <= x * x + y * y <= r * r + x)
  }

  lemma MidpointStep(r: int, x: int, y: int, d: int)
    requires MidpointInv(r, x, y, d) && x >= y
    ensures d < 0 ==> MidpointInv(r, x, y + 1, d + 2 * (y + 1) + 1)
    ensures d >= 0 ==> MidpointInv(r, x - 1, y + 1, d + 2 * (y + 1) - 2 * (x - 1) + 1)
  {
  }

  lemma {:induction false} WalkNearCircle(r: int, x: int, y: int, d: int)
    requires MidpointInv(r, x, y, d)
    ensures forall o :: o in Walk(x, y, d) ==> r * r - o.x <= o.x * o.x + o.y * o.y <= r * r + o.x
    decreases x - y
  {
    if x >= y {
      MidpointStep(r, x, y, d);
      if d < 0 {
        WalkNearCircle(r, x, y + 1, d + 2 * (y + 1) + 1);
      } else {
        WalkNearCircle(r, x - 1, y + 1, d + 2 * (y + 1) - 2 * (x - 1) + 1);
      }
    }
  }

  lemma SquareAbs(u: int)
    ensures u * u == Abs(u) * Abs(u)
  {
  }

  lemma ReflectionNorm(xc: int, yc: int, x: int, y: int, p: Point)
    requires 0 <= y <= x && p in Reflections(xc, yc, x, y)
    ensures (p.x - xc) * (p.x - xc) + (p.y - yc) * (p.y - yc) == x * x + y * y
    ensures Max(Abs(p.x - xc), Abs(p.y - yc)) == x
  {
    var u, v := p.x - xc, p.y - yc;
    assert (Abs(u) == x && Abs(v) == y) || (Abs(u) == y && Abs(v) == x);
    SquareAbs(u);
    SquareAbs(v);
  }

  /**
   * Every cell of the circle lies near it: with (u, v) its offset from the centre,
   * |u^2 + v^2 - r^2| is at most max(|u|, |v|).
   */
  lemma CircleNearRadius(xc: int, yc: int, r: int)
    ensures forall p :: p in CirclePoints(xc, yc, r) ==>
      r * r - Max(Abs(p.x - xc), Abs(p.y - yc)) <= (p.x - xc) * (p.x - xc) + (p.y - yc) * (p.y - yc) &&
      (p.x - xc) * (p.x - xc) + (p.y - yc) * (p.y - yc) <= r * r + Max(Abs(p.x - xc), Abs(p.y - yc))
  {
    assert MidpointInv(r, r, 0, 1 - r);
    WalkNearCircle(r, r, 0, 1 - r);
    forall p | p in CirclePoints(xc, yc, r)
      ensures r * r - Max(Abs(p.x - xc), Abs(p.y - yc)) <= (p.x - xc) * (p.x - xc) + (p.y - yc) * (p.y - yc)
      ensures (p.x - xc) * (p.x - xc) + (p.y - yc) * (p.y - yc) <= r * r + Max(Abs(p.x - xc), Abs(p.y - yc))
    {
      CellNearRadius(xc, yc, r, p);
    }
  }

  lemma CellNearRadius(xc: int, yc: int, r: int, p: Point)
    requires p in CirclePoints(xc, yc, r)
    requires forall o :: o in Walk(r, 0, 1 - r) ==> r * r - o.x <= o.x * o.x + o.y * o.y <= r * r + o.x
    ensures r * r - Max(Abs(p.x - xc), Abs(p.y - yc)) <= (p.x - xc) * (p.x - xc) + (p.y - yc) * (p.y - yc)
    ensures (p.x - xc) * (p.x - xc) + (p.y - yc) * (p.y - yc) <= r * r + Max(Abs(p.x - xc), Abs(p.y - yc))
  {
    var offs := Offsets(r);
    var k := InSomeGroup(xc, yc, offs, p);
    var o := offs[k];
    WalkShape(r, 0, 1 - r);
    assert o in Walk(r, 0, 1 - r) && 0 <= o.y <= o.x;
    ReflectionNorm(xc, yc, o.x, o.y, p);
  }
}
