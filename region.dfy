/**
 * Geometry primitives of src/utils/region.hpp: the four-corner quad built
 * from a position and a size, axis-aligned rectangles and one-dimensional
 * lines with strict intersection tests.
 */
module Region {

  /** A 2D vector (glm::vec2); the model uses exact reals for its floats. */
  datatype Vec2 = Vec2(x: real, y: real) {
    function Add(o: Vec2): Vec2 { Vec2(x + o.x, y + o.y) }
    function Sub(o: Vec2): Vec2 { Vec2(x - o.x, y - o.y) }
    /** Component-wise division by a non-zero scalar. */
    function Div(k: real): Vec2 requires k != 0.0 { Vec2(x / k, y / k) }
  }

  const Zero := Vec2(0.0, 0.0)

  /** A quad: four corners, in the order the quad index pattern expects. */
  type Corners = r: seq<Vec2> | |r| == 4 witness [Zero, Zero, Zero, Zero]

  /**
   * The quad of the axis-aligned box with corner `pos` and extent `size`:
   * `pos`, then along x, then the opposite corner, then along y.
   */
  function MakeRegion(pos: Vec2, size: Vec2): (r: Corners)
    ensures r[0] == pos && r[2] == pos.Add(size)
    ensures r[1] == Vec2(r[2].x, r[0].y) && r[3] == Vec2(r[0].x, r[2].y)
  {
    [pos, pos.Add(Vec2(size.x, 0.0)), pos.Add(size), pos.Add(Vec2(0.0, size.y))]
  }

  /** The position a quad was built from. */
  function RegionPos(r: Corners): Vec2 { r[0] }

  /** The size a quad was built from. */
  function RegionSize(r: Corners): Vec2 { r[2].Sub(r[0]) }

  /** A quad moved by `delta`: `delta + corners[i]` for each corner, as the vertex loops write it. */
  function Translate(c: Corners, delta: Vec2): Corners {
    [delta.Add(c[0]), delta.Add(c[1]), delta.Add(c[2]), delta.Add(c[3])]
  }

  /** MakeRegion loses nothing: position and size can be read back from the corners. */
  lemma MakeRegionRoundTrip(pos: Vec2, size: Vec2)
    ensures RegionPos(MakeRegion(pos, size)) == pos
    ensures RegionSize(MakeRegion(pos, size)) == size
  {
  }

  datatype Rect = Rect(pos: Vec2, size: Vec2) {
    function Top(): real { pos.y }
    function Bottom(): real { pos.y + size.y }
    function Left(): real { pos.x }
    function Right(): real { pos.x + size.x }

    /** The rectangle's quad: top-left, top-right, bottom-right, bottom-left. */
    function Region(): (r: Corners)
      ensures r[0] == Vec2(Left(), Top()) && r[1] == Vec2(Right(), Top())
      ensures r[2] == Vec2(Right(), Bottom()) && r[3] == Vec2(Left(), Bottom())
    {
      MakeRegion(pos, size)
    }

    /** Projection onto the x axis. */
    function XLine(): Line { Line(pos.x, size.x) }

    /** Projection onto the y axis. */
    function YLine(): Line { Line(pos.y, size.y) }
  }

  /** Strict overlap: rectangles that only share an edge do not intersect. */
  predicate RectIntersect(a: Rect, b: Rect) {
    a.Left() < b.Right() && a.Right() > b.Left() &&
    a.Top() < b.Bottom() && a.Bottom() > b.Top()
  }

  datatype Line = Line(pos: real, length: real) {
    function Top(): real { pos }
    function Bottom(): real { pos + length }

    /** Strict overlap of the two spans. */
    predicate Intersects(other: Line) {
      Top() < other.Bottom() && Bottom() > other.Top()
    }

    /** `t` lies strictly inside the span. */
    predicate Inside(t: real) { Top() < t < Bottom() }
  }

  /** `p` lies strictly inside the rectangle. */
  predicate InsideRect(r: Rect, p: Vec2) {
    r.XLine().Inside(p.x) && r.YLine().Inside(p.y)
  }

  lemma RectIntersectSymmetric(a: Rect, b: Rect)
    ensures RectIntersect(a, b) == RectIntersect(b, a)
  {
  }

  /** A rectangle intersection is an intersection of both axis projections. */
  lemma RectIntersectByAxes(a: Rect, b: Rect)
    ensures RectIntersect(a, b) <==>
      a.XLine().Intersects(b.XLine()) && a.YLine().Intersects(b.YLine())
  {
  }

  /** Touching along a vertical or horizontal edge is not an intersection. */
  lemma SharedEdgeDoesNotIntersect(a: Rect, b: Rect)
    requires a.Right() == b.Left() || a.Bottom() == b.Top()
    ensures !RectIntersect(a, b) && !RectIntersect(b, a)
  {
  }

  lemma LineIntersectsSymmetric(a: Line, b: Line)
    ensures a.Intersects(b) == b.Intersects(a)
  {
  }

  /** A line of positive length intersects itself; one of length zero does not. */
  lemma LineSelfIntersection(a: Line)
    ensures a.Intersects(a) <==> a.length > 0.0
  {
  }

  /**
   * For lines of positive length, the strict test is exactly "the open
   * spans share a point".
   */
  lemma LineIntersectsIffCommonPoint(a: Line, b: Line)
    requires a.length > 0.0 && b.length > 0.0
    ensures a.Intersects(b) <==> exists t :: a.Inside(t) && b.Inside(t)
  {
    if a.Intersects(b) {
      var lo := if a.Top() < b.Top() then b.Top() else a.Top();
      var hi := if a.Bottom() < b.Bottom() then a.Bottom() else b.Bottom();
      var t := (lo + hi) / 2.0;
      assert a.Inside(t) && b.Inside(t);
    }
  }

  /**
   * For rectangles of positive width and height, RectIntersect holds
   * exactly when some point lies strictly inside both.
   */
  lemma RectIntersectIffCommonPoint(a: Rect, b: Rect)
    requires a.size.x > 0.0 && a.size.y > 0.0 && b.size.x > 0.0 && b.size.y > 0.0
    ensures RectIntersect(a, b) <==> exists p :: InsideRect(a, p) && InsideRect(b, p)
  {
    LineIntersectsIffCommonPoint(a.XLine(), b.XLine());
    LineIntersectsIffCommonPoint(a.YLine(), b.YLine());
    if RectIntersect(a, b) {
      var tx :| a.XLine().Inside(tx) && b.XLine().Inside(tx);
      var ty :| a.YLine().Inside(ty) && b.YLine().Inside(ty);
      assert InsideRect(a, Vec2(tx, ty)) && InsideRect(b, Vec2(tx, ty));
    }
    if p :| InsideRect(a, p) && InsideRect(b, p) {
      assert a.XLine().Inside(p.x) && b.XLine().Inside(p.x);
    }
  }
}
