/**
 * One consensus jet (BoxTheJets/aggregation/jet.py): its start and end
 * points, its consensus box given by four corners, the raw extracts that
 * volunteers drew for it, and the orientation derived from the box once, at
 * construction ("autorotate").
 *
 * Coordinates are reals. Euclidean distances are replaced by squared
 * distances, which order corners exactly as the distances do; `width` and
 * `height` are therefore squared lengths, and the jet angle
 * (atan2 of the height direction) is kept as that direction vector.
 */
module Jets {
  import opened ArgSort

  datatype Point = Point(x: real, y: real)

  function Sub(p: Point, q: Point): Point
  {
    Point(p.x - q.x, p.y - q.y)
  }

  function Dot(p: Point, q: Point): real
  {
    p.x * q.x + p.y * q.y
  }

  /** Squared Euclidean distance between two points. */
  function SqDist(p: Point, q: Point): real
  {
    Dot(Sub(p, q), Sub(p, q))
  }

  // ---------------------------------------------------------------------
  // Orientation of a box relative to the jet's start point (autorotate)
  // ---------------------------------------------------------------------

  /** The base and height line segments of a box, two points each. */
  datatype Orientation = Orientation(base: seq<Point>, height: seq<Point>)

  /** Squared distance of every corner to the start point, in corner order. */
  function Dists(corners: seq<Point>, start: Point): (d: seq<real>)
    ensures |d| == |corners|
    ensures forall i :: 0 <= i < |corners| ==> d[i] == SqDist(corners[i], start)
  {
    seq(|corners|, i requires 0 <= i < |corners| => SqDist(corners[i], start))
  }

  /** numpy's `roll(s, -n)`: the ring `s` rotated so that it starts at index `n`. */
  function Roll<T>(s: seq<T>, n: nat): (r: seq<T>)
    requires n <= |s|
    ensures |r| == |s|
  {
    s[n..] + s[..n]
  }

  function Reverse<T>(s: seq<T>): (r: seq<T>)
    ensures |r| == |s|
  {
    seq(|s|, i requires 0 <= i < |s| => s[|s| - 1 - i])
  }

  /** Index of the corner nearest to `start` (the first entry of the argsort). */
  function Nearest(corners: seq<Point>, start: Point): (n: nat)
    requires |corners| == 4
    ensures n < 4
    ensures forall i :: 0 <= i < 4 ==>
      SqDist(corners[n], start) <= SqDist(corners[i], start) &&
      (SqDist(corners[i], start) == SqDist(corners[n], start) ==> n <= i)
  {
    var d := Dists(corners, start);
    ArgsortFirstTwo(d);
    Argsort(d)[0]
  }

  /** Index of the corner nearest to `start` once the nearest one is set aside. */
  function SecondNearest(corners: seq<Point>, start: Point): (m: nat)
    requires |corners| == 4
    ensures m < 4 && m != Nearest(corners, start)
    ensures forall i :: 0 <= i < 4 && i != Nearest(corners, start) ==>
      SqDist(corners[m], start) <= SqDist(corners[i], start) &&
      (SqDist(corners[i], start) == SqDist(corners[m], start) ==> m <= i)
  {
    var d := Dists(corners, start);
    ArgsortFirstTwo(d);
    Argsort(d)[1]
  }

  /**
   * Jet.autorotate: the base points are the two corners nearest to the
   * start, nearest first; the ring of corners is rolled to begin just after
   * the nearest corner (which is dropped), and the exact equality of the
   * first rolled corner with the second base point picks either the rolled
   * order or its reverse for the height points.
   */
  function Orient(corners: seq<Point>, start: Point): (o: Orientation)
    requires |corners| == 4
    ensures |o.base| == 2 && |o.height| == 2
  {
    var order := Argsort(Dists(corners, start));
    var base := [corners[order[0]], corners[order[1]]];
    var rolled := Roll(corners, order[0])[1..];
    var height := if rolled[0] == base[1] then rolled[..2] else Reverse(rolled)[..2];
    Orientation(base, height)
  }

  /** The base points are the nearest corner and the second-nearest one, in that order. */
  lemma BasePointsNearest(corners: seq<Point>, start: Point)
    requires |corners| == 4
    ensures var o := Orient(corners, start);
      var n, m := Nearest(corners, start), SecondNearest(corners, start);
      o.base == [corners[n], corners[m]] &&
      (forall i :: 0 <= i < 4 ==> SqDist(o.base[0], start) <= SqDist(corners[i], start)) &&
      (forall i :: 0 <= i < 4 && i != n ==> SqDist(o.base[1], start) <= SqDist(corners[i], start))
  {
  }

  /**
   * The height points in ring terms: the far end is always the corner two
   * steps round the ring from the nearest one; the near end is the corner
   * right after the nearest one when that corner equals the second base
   * point, and the corner right before it otherwise.
   */
  lemma HeightPointsOnRing(corners: seq<Point>, start: Point)
    requires |corners| == 4
    ensures var o := Orient(corners, start);
      var n, m := Nearest(corners, start), SecondNearest(corners, start);
      o.height[1] == corners[(n + 2) % 4] &&
      (corners[(n + 1) % 4] == corners[m] ==> o.height == [corners[(n + 1) % 4], corners[(n + 2) % 4]]) &&
      (corners[(n + 1) % 4] != corners[m] ==> o.height == [corners[(n + 3) % 4], corners[(n + 2) % 4]])
  {
    var n := Nearest(corners, start);
    var rolled := Roll(corners, n)[1..];
    assert rolled == [corners[(n + 1) % 4], corners[(n + 2) % 4], corners[(n + 3) % 4]];
  }

  /**
   * Whenever the second-nearest corner is a ring neighbour of the nearest
   * one, the height segment starts where the base segment ends.
   */
  lemma HeightStartsAtBaseEnd(corners: seq<Point>, start: Point)
    requires |corners| == 4
    requires var n, m := Nearest(corners, start), SecondNearest(corners, start);
      m == (n + 1) % 4 || m == (n + 3) % 4
    ensures Orient(corners, start).height[0] == Orient(corners, start).base[1]
  {
    HeightPointsOnRing(corners, start);
  }

  /** Four corners, in ring order, of a rectangle: a parallelogram with a right angle. */
  predicate IsRectangle(c: seq<Point>)
  {
    |c| == 4 &&
    c[0].x + c[2].x == c[1].x + c[3].x &&
    c[0].y + c[2].y == c[1].y + c[3].y &&
    Dot(Sub(c[1], c[0]), Sub(c[3], c[0])) == 0.0
  }

  /** British flag theorem: opposite corners have equal sums of squared distances to any point. */
  lemma BritishFlag(c: seq<Point>, p: Point)
    requires IsRectangle(c)
    ensures SqDist(c[0], p) + SqDist(c[2], p) == SqDist(c[1], p) + SqDist(c[3], p)
  {
    var a, u, w := Sub(c[0], p), Sub(c[1], c[0]), Sub(c[3], c[0]);
    assert Sub(c[1], p) == Point(a.x + u.x, a.y + u.y);
    assert Sub(c[3], p) == Point(a.x + w.x, a.y + w.y);
    assert Sub(c[2], p) == Point(a.x + u.x + w.x, a.y + u.y + w.y);
    assert u.x * w.x + u.y * w.y == 0.0;
  }

  /** In a rectangle every two consecutive sides are perpendicular. */
  lemma RectangleCorners(c: seq<Point>, i: nat)
    requires IsRectangle(c) && i < 4
    ensures Dot(Sub(c[(i + 1) % 4], c[i]), Sub(c[(i + 2) % 4], c[(i + 1) % 4])) == 0.0
  {
    var u, w := Sub(c[1], c[0]), Sub(c[3], c[0]);
    assert Sub(c[2], c[1]) == w && Sub(c[3], c[2]) == Point(-u.x, -u.y) && Sub(c[0], c[3]) == Point(-w.x, -w.y);
  }

  /**
   * Four squared distances to the corners of a rectangle (their opposite
   * sums agree) never make the opposite corner of the nearest one the
   * second nearest under index tie-breaking.
   */
  lemma OppositeNeverSecond(d: seq<real>, n: nat, m: nat)
    requires |d| == 4 && n < 4 && m < 4 && m != n
    requires d[0] + d[2] == d[1] + d[3]
    requires forall i :: 0 <= i < 4 ==> d[n] <= d[i] && (d[i] == d[n] ==> n <= i)
    requires forall i :: 0 <= i < 4 && i != n ==> d[m] <= d[i] && (d[i] == d[m] ==> m <= i)
    ensures m == (n + 1) % 4 || m == (n + 3) % 4
  {
    if m == (n + 2) % 4 {
      // The opposite corner is at least as far as either neighbour, so all four tie,
      // and then the tie-break by index puts corner 0 first and corner 1 second.
      assert false;
    }
  }

  /**
   * For a genuine rectangle, wherever the start point lies, the two base
   * points are the ends of one side and the height segment continues from
   * the second base point along the adjacent side.
   */
  lemma RectangleBaseIsSide(corners: seq<Point>, start: Point)
    requires IsRectangle(corners)
    ensures var n, m := Nearest(corners, start), SecondNearest(corners, start);
      m == (n + 1) % 4 || m == (n + 3) % 4
    ensures Orient(corners, start).height[0] == Orient(corners, start).base[1]
  {
    BritishFlag(corners, start);
    OppositeNeverSecond(Dists(corners, start), Nearest(corners, start), SecondNearest(corners, start));
    HeightStartsAtBaseEnd(corners, start);
  }

  /** Walking a corner p -> q -> r backwards gives the same angle at q. */
  lemma DotReversed(p: Point, q: Point, r: Point)
    ensures Dot(Sub(q, p), Sub(r, q)) == Dot(Sub(q, r), Sub(p, q))
  {
    assert Sub(q, p) == Point(-(p.x - q.x), -(p.y - q.y));
    assert Sub(r, q) == Point(-(q.x - r.x), -(q.y - r.y));
  }

  /** In a rectangle, the side from corner n to a ring neighbour m meets the side from m to the corner opposite n at a right angle. */
  lemma NeighbourSidesPerpendicular(c: seq<Point>, n: nat, m: nat)
    requires IsRectangle(c) && n < 4
    requires m == (n + 1) % 4 || m == (n + 3) % 4
    ensures Dot(Sub(c[m], c[n]), Sub(c[(n + 2) % 4], c[m])) == 0.0
  {
    if m == (n + 1) % 4 {
      RectangleCorners(c, n);
    } else {
      var k := (n + 2) % 4;
      assert (k + 1) % 4 == m && (k + 2) % 4 == n;
      RectangleCorners(c, k);
      DotReversed(c[n], c[m], c[k]);
    }
  }

  /** ... and that side is perpendicular to the base: width and height are the two side lengths. */
  lemma RectangleHeightPerpendicular(corners: seq<Point>, start: Point)
    requires IsRectangle(corners)
    ensures var o := Orient(corners, start);
      Dot(Sub(o.base[1], o.base[0]), Sub(o.height[1], o.height[0])) == 0.0
  {
    var o := Orient(corners, start);
    var n, m := Nearest(corners, start), SecondNearest(corners, start);
    RectangleBaseIsSide(corners, start);
    HeightPointsOnRing(corners, start);
    BasePointsNearest(corners, start);
    NeighbourSidesPerpendicular(corners, n, m);
  }

  // ---------------------------------------------------------------------
  // Extract stores
  // ---------------------------------------------------------------------

  /** The parameters of a rotated box: centre, width, height and angle. */
  datatype BoxParams = BoxParams(x: real, y: real, w: real, h: real, angle: real)

  /** The box extracts as the source keeps them: one list per parameter, angles in degrees. */
  datatype BoxColumns = BoxColumns(x: seq<real>, y: seq<real>, w: seq<real>, h: seq<real>, a: seq<real>)
  {
    predicate Parallel()
    {
      |y| == |x| && |w| == |x| && |h| == |x| && |a| == |x|
    }
  }

  /** Point extracts as the source keeps them: a list of x and a list of y. */
  datatype PointColumns = PointColumns(x: seq<real>, y: seq<real>)

  /** numpy's value of pi. */
  const Pi: real := 3.141592653589793

  /** numpy's `radians`. */
  function Radians(degrees: real): real
  {
    degrees * Pi / 180.0
  }

  /** numpy's `transpose([x, y])`: the i-th x paired with the i-th y. */
  function Transpose(c: PointColumns): (r: seq<Point>)
    requires |c.x| == |c.y|
    ensures |r| == |c.x|
    ensures forall i :: 0 <= i < |r| ==> r[i] == Point(c.x[i], c.y[i])
    decreases |c.x|
  {
    if c.x == [] then []
    else [Point(c.x[0], c.y[0])] + Transpose(PointColumns(c.x[1..], c.y[1..]))
  }

  /** The inverse direction: a list of points split into its x list and its y list. */
  function Columns(ps: seq<Point>): (c: PointColumns)
    ensures |c.x| == |ps| && |c.y| == |ps|
  {
    if ps == [] then PointColumns([], [])
    else
      var rest := Columns(ps[1..]);
      PointColumns([ps[0].x] + rest.x, [ps[0].y] + rest.y)
  }

  /** Transposing loses nothing: splitting the points gives back the columns. */
  lemma {:induction false} ColumnsOfTranspose(c: PointColumns)
    requires |c.x| == |c.y|
    ensures Columns(Transpose(c)) == c
    decreases |c.x|
  {
    if c.x != [] {
      var tail := PointColumns(c.x[1..], c.y[1..]);
      ColumnsOfTranspose(tail);
      assert Transpose(c)[1..] == Transpose(tail);
      assert [c.x[0]] + c.x[1..] == c.x && [c.y[0]] + c.y[1..] == c.y;
    }
  }

  /** ... and pairing the columns of a point list gives back the points. */
  lemma {:induction false} TransposeOfColumns(ps: seq<Point>)
    ensures Transpose(Columns(ps)) == ps
  {
    if ps != [] {
      TransposeOfColumns(ps[1..]);
      var rest := Columns(ps[1..]);
      assert Columns(ps).x[1..] == rest.x && Columns(ps).y[1..] == rest.y;
    }
  }

  // ---------------------------------------------------------------------
  // The Jet object
  // ---------------------------------------------------------------------

  class Jet {
    const subject: int
    const start: Point
    const end: Point
    /** The consensus box: its four corners in ring order. */
    const box: seq<Point>
    /** The raw cluster parameter vectors the box was averaged from. */
    const clusterValues: seq<seq<real>>

    var boxExtracts: BoxColumns
    var startExtracts: PointColumns
    var endExtracts: PointColumns

    var basePoints: seq<Point>
    var heightPoints: seq<Point>
    /** The height direction `height_points[1] - height_points[0]`, from which the angle is taken. */
    var direction: Point
    /** Squared length of the base segment. */
    var width: real
    /** Squared length of the height segment. */
    var height: real

    /** The derived fields hold the orientation of `box` seen from `start`. */
    ghost predicate Oriented()
      reads this
    {
      |box| == 4 &&
      var o := Orient(box, start);
      basePoints == o.base && heightPoints == o.height &&
      direction == Sub(o.height[1], o.height[0]) &&
      height == SqDist(o.height[1], o.height[0]) &&
      width == SqDist(o.base[1], o.base[0])
    }

    ghost predicate Valid()
      reads this
    {
      Oriented() &&
      boxExtracts.Parallel() &&
      |startExtracts.x| == |startExtracts.y| &&
      |endExtracts.x| == |endExtracts.y|
    }

    /** Jet.__init__: stores the geometry, starts with no extracts, and orients the box once. */
    constructor (subject: int, start: Point, end: Point, box: seq<Point>, clusterValues: seq<seq<real>>)
      requires |box| == 4
      ensures Valid()
      ensures this.subject == subject && this.start == start && this.end == end
      ensures this.box == box && this.clusterValues == clusterValues
      ensures boxExtracts == BoxColumns([], [], [], [], [])
      ensures startExtracts == PointColumns([], []) && endExtracts == PointColumns([], [])
    {
      this.subject := subject;
      this.start := start;
      this.end := end;
      this.box := box;
      this.clusterValues := clusterValues;
      boxExtracts := BoxColumns([], [], [], [], []);
      startExtracts := PointColumns([], []);
      endExtracts := PointColumns([], []);
      new;
      Autorotate();
    }

    /** Jet.autorotate: derives base, height, direction, width and height from `box` and `start`. */
    method Autorotate()
      requires |box| == 4
      modifies this`basePoints, this`heightPoints, this`direction, this`width, this`height
      ensures Oriented()
    {
      var o := Orient(box, start);
      basePoints := o.base;
      heightPoints := o.height;
      var dh := Sub(heightPoints[1], heightPoints[0]);
      direction := dh;
      height := Dot(dh, dh);
      width := SqDist(basePoints[1], basePoints[0]);
    }

    /**
     * Appends one volunteer's box to the box extract lists. Only
     * `boxExtracts` may change, so the derived orientation stays as built.
     */
    method AddBoxExtract(x: real, y: real, w: real, h: real, a: real)
      requires Valid()
      modifies this`boxExtracts
      ensures Valid()
      ensures boxExtracts == BoxColumns(old(boxExtracts.x) + [x], old(boxExtracts.y) + [y],
                                        old(boxExtracts.w) + [w], old(boxExtracts.h) + [h],
                                        old(boxExtracts.a) + [a])
    {
      boxExtracts := BoxColumns(boxExtracts.x + [x], boxExtracts.y + [y],
                                boxExtracts.w + [w], boxExtracts.h + [h], boxExtracts.a + [a]);
    }

    /** Appends one volunteer's start point to the start extract lists. */
    method AddStartExtract(x: real, y: real)
      requires Valid()
      modifies this`startExtracts
      ensures Valid()
      ensures startExtracts == PointColumns(old(startExtracts.x) + [x], old(startExtracts.y) + [y])
    {
      startExtracts := PointColumns(startExtracts.x + [x], startExtracts.y + [y]);
    }

    /** Appends one volunteer's end point to the end extract lists. */
    method AddEndExtract(x: real, y: real)
      requires Valid()
      modifies this`endExtracts
      ensures Valid()
      ensures endExtracts == PointColumns(old(endExtracts.x) + [x], old(endExtracts.y) + [y])
    {
      endExtracts := PointColumns(endExtracts.x + [x], endExtracts.y + [y]);
    }

    /** Jet.get_extract_starts: one point per start extract, whose columns are the stored lists. */
    function GetExtractStarts(): (r: seq<Point>)
      reads this
      requires |startExtracts.x| == |startExtracts.y|
      ensures |r| == |startExtracts.x| && Columns(r) == startExtracts
    {
      ColumnsOfTranspose(startExtracts);
      Transpose(startExtracts)
    }

    /** Jet.get_extract_ends: one point per end extract, whose columns are the stored lists. */
    function GetExtractEnds(): (r: seq<Point>)
      reads this
      requires |endExtracts.x| == |endExtracts.y|
      ensures |r| == |endExtracts.x| && Columns(r) == endExtracts
    {
      ColumnsOfTranspose(endExtracts);
      Transpose(endExtracts)
    }

    /**
     * Jet.get_extract_boxes: one box per box extract, in insertion order,
     * with the angle converted from degrees to radians. The corner polygon
     * that the source builds from these parameters is not modelled.
     */
    method GetExtractBoxes() returns (boxes: seq<BoxParams>)
      requires |boxExtracts.x| <= |boxExtracts.y| && |boxExtracts.x| <= |boxExtracts.w|
      requires |boxExtracts.x| <= |boxExtracts.h| && |boxExtracts.x| <= |boxExtracts.a|
      ensures |boxes| == |boxExtracts.x|
      ensures forall i :: 0 <= i < |boxes| ==>
        boxes[i] == BoxParams(boxExtracts.x[i], boxExtracts.y[i], boxExtracts.w[i], boxExtracts.h[i],
                              Radians(boxExtracts.a[i]))
    {
      boxes := [];
      for i := 0 to |boxExtracts.x|
        invariant |boxes| == i
        invariant forall k :: 0 <= k < i ==>
          boxes[k] == BoxParams(boxExtracts.x[k], boxExtracts.y[k], boxExtracts.w[k], boxExtracts.h[k],
                                Radians(boxExtracts.a[k]))
      {
        var x := boxExtracts.x[i];
        var y := boxExtracts.y[i];
        var w := boxExtracts.w[i];
        var h := boxExtracts.h[i];
        var a := Radians(boxExtracts.a[i]);
        boxes := boxes + [BoxParams(x, y, w, h, a)];
      }
    }

    /**
     * Jet.get_width_height_pairs: the stored base and height points, which
     * are the nearest and second-nearest corners and the height segment
     * from the ring neighbour of the nearest corner that equals the second
     * base point (the one after it, else the one before it) to the corner
     * two steps round the ring.
     */
    function GetWidthHeightPairs(): (r: (seq<Point>, seq<Point>))
      reads this
      requires Oriented()
      ensures |r.0| == 2 && |r.1| == 2
      ensures r == (basePoints, heightPoints)
      ensures r.0[0] == box[Nearest(box, start)] && r.0[1] == box[SecondNearest(box, start)]
      ensures var n, m := Nearest(box, start), SecondNearest(box, start);
        r.1[1] == box[(n + 2) % 4] &&
        (box[(n + 1) % 4] == box[m] ==> r.1[0] == box[(n + 1) % 4]) &&
        (box[(n + 1) % 4] != box[m] ==> r.1[0] == box[(n + 3) % 4])
    {
      BasePointsNearest(box, start);
      HeightPointsOnRing(box, start);
      (basePoints, heightPoints)
    }
  }
}
