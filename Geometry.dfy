/**
 * The geometry helpers of the city view: outline paths, the local projection
 * of longitude/latitude onto the ground plane, the centre of a set of rings,
 * axis-aligned box overlap and grid snapping.
 *
 * Coordinates are exact reals. `Math.cos` of the centre latitude is an input
 * (`cosLat`) rather than a computed value.
 */
module Geometry {
  import opened Text

  /** A pair of plane coordinates: `[lon, lat]` before projection, `[x, z]` after. */
  datatype Point = Point(x: real, y: real)

  /** A three-component vector (`THREE.Vector3`). */
  datatype Vec3 = Vec3(x: real, y: real, z: real)

  /** One drawing command of a `THREE.Shape` path. */
  datatype PathCmd = MoveTo(to: Point) | LineTo(to: Point) | ClosePath

  // ------------------------------------------------------------- outlines

  /** The points a path visits, in order. */
  function Vertices(path: seq<PathCmd>): seq<Point> {
    if path == [] then []
    else
      var rest := Vertices(path[1..]);
      match path[0]
      case MoveTo(p) => [p] + rest
      case LineTo(p) => [p] + rest
      case ClosePath => rest
  }

  /** One move to the first point followed only by straight segments. */
  predicate OpenPolyline(path: seq<PathCmd>) {
    |path| >= 1 && path[0].MoveTo? && forall i :: 1 <= i < |path| ==> path[i].LineTo?
  }

  /**
   * `coordsToShape`: move to the first point, then draw a line to every later
   * point in turn. The outline visits exactly the given points.
   */
  method CoordsToShape(coords: seq<Point>) returns (path: seq<PathCmd>)
    requires |coords| >= 1
    ensures OpenPolyline(path)
    ensures Vertices(path) == coords
  {
    path := [MoveTo(coords[0])];
    var i := 1;
    while i < |coords|
      invariant 1 <= i <= |coords|
      invariant |path| == i && OpenPolyline(path)
      invariant forall k :: 0 <= k < i ==> path[k].to == coords[k]
    {
      path := path + [LineTo(coords[i])];
      i := i + 1;
    }
    PolylineVertices(path);
    assert Vertices(path) == coords;
  }

  lemma {:induction false} PolylineVertices(path: seq<PathCmd>)
    requires forall i :: 0 <= i < |path| ==> !path[i].ClosePath?
    ensures |Vertices(path)| == |path|
    ensures forall i :: 0 <= i < |path| ==> Vertices(path)[i] == path[i].to
  {
    if path != [] {
      PolylineVertices(path[1..]);
    }
  }

  // ----------------------------------------------------------- projection

  /** `Math.PI`, the double nearest to pi, written out exactly. */
  const Pi: real := 3.141592653589793
  const EarthRadius: real := 6378137.0
  const ScaleFactor: real := 3.0

  /** Ground units per degree of latitude. */
  const NorthScale: real := Pi * EarthRadius / 180.0 * ScaleFactor

  /** Ground units per degree of longitude at a latitude whose cosine is `cosLat`. */
  function EastScale(cosLat: real): real {
    Pi * EarthRadius * cosLat / 180.0 * ScaleFactor
  }

  /** One `[lon, lat]` pair projected to `[x, z]` about `center`. */
  function Project(p: Point, center: Point, cosLat: real): Point {
    Point((p.x - center.x) * Pi * EarthRadius * cosLat / 180.0 * ScaleFactor,
          (p.y - center.y) * Pi * EarthRadius / 180.0 * ScaleFactor)
  }

  /** `normalizeCoordinates`: every point projected on its own. */
  function NormalizeCoordinates(coords: seq<Point>, center: Point, cosLat: real): (r: seq<Point>)
    ensures |r| == |coords|
    ensures forall i :: 0 <= i < |coords| ==> r[i] == Project(coords[i], center, cosLat)
  {
    seq(|coords|, i requires 0 <= i < |coords| => Project(coords[i], center, cosLat))
  }

  /**
   * Each axis is a linear function of its own offset: `x` of the longitude
   * offset only, `z` of the latitude offset only.
   */
  lemma ProjectLinear(p: Point, center: Point, cosLat: real)
    ensures Project(p, center, cosLat).x == (p.x - center.x) * EastScale(cosLat)
    ensures Project(p, center, cosLat).y == (p.y - center.y) * NorthScale
  {
  }

  /** The centre itself lands on the origin of the ground plane. */
  lemma ProjectCenter(center: Point, cosLat: real)
    ensures Project(center, center, cosLat) == Point(0.0, 0.0)
  {
  }

  /** The inverse of `Project`, defined wherever the east scale is not zero. */
  function Unproject(q: Point, center: Point, cosLat: real): (p: Point)
    requires cosLat != 0.0
  {
    Point(center.x + q.x / EastScale(cosLat), center.y + q.y / NorthScale)
  }

  /** Projecting and then unprojecting gives back the original point. */
  lemma ProjectRoundTrip(p: Point, center: Point, cosLat: real)
    requires cosLat != 0.0
    ensures Unproject(Project(p, center, cosLat), center, cosLat) == p
  {
    ProjectLinear(p, center, cosLat);
    var q := Project(p, center, cosLat);
    var e := EastScale(cosLat);
    assert e != 0.0;
    assert q.x / e == p.x - center.x;
    assert q.y / NorthScale == p.y - center.y;
  }

  /** East of the centre stays east and north stays north (for `cos(lat) > 0`). */
  lemma ProjectMonotone(p: Point, p': Point, center: Point, cosLat: real)
    requires cosLat > 0.0
    ensures p.x <= p'.x <==> Project(p, center, cosLat).x <= Project(p', center, cosLat).x
    ensures p.y <= p'.y <==> Project(p, center, cosLat).y <= Project(p', center, cosLat).y
  {
    ProjectLinear(p, center, cosLat);
    ProjectLinear(p', center, cosLat);
    var e := EastScale(cosLat);
    assert e > 0.0;
    ScaleMonotone(p.x - center.x, p'.x - center.x, e);
    ScaleMonotone(p.y - center.y, p'.y - center.y, NorthScale);
  }

  lemma ScaleMonotone(a: real, b: real, k: real)
    requires k > 0.0
    ensures a <= b <==> a * k <= b * k
  {
    if a <= b {
      assert (b - a) * k >= 0.0;
    } else {
      assert (a - b) * k > 0.0;
    }
  }

  // --------------------------------------------------------------- centre

  /** The extent of a non-empty set of points. */
  datatype Bounds = Bounds(minX: real, maxX: real, minY: real, maxY: real)

  function Min(a: real, b: real): real { if a <= b then a else b }
  function Max(a: real, b: real): real { if a >= b then a else b }

  /** The bounds of `ps`, folded left to right; `None` for no points. */
  function BoundsOf(ps: seq<Point>): Option<Bounds> {
    if ps == [] then None
    else
      var p := ps[|ps| - 1];
      match BoundsOf(ps[..|ps| - 1])
      case None => Some(Bounds(p.x, p.x, p.y, p.y))
      case Some(b) => Some(Bounds(Min(b.minX, p.x), Max(b.maxX, p.x), Min(b.minY, p.y), Max(b.maxY, p.y)))
  }

  /** Every point lies in the bounds, and each bound is reached by some point. */
  lemma {:induction false} BoundsTight(ps: seq<Point>)
    ensures BoundsOf(ps).None? <==> ps == []
    ensures BoundsOf(ps).Some? ==> forall p :: p in ps ==>
      BoundsOf(ps).value.minX <= p.x <= BoundsOf(ps).value.maxX &&
      BoundsOf(ps).value.minY <= p.y <= BoundsOf(ps).value.maxY
    ensures BoundsOf(ps).Some? ==>
      (exists p :: p in ps && p.x == BoundsOf(ps).value.minX) &&
      (exists p :: p in ps && p.x == BoundsOf(ps).value.maxX) &&
      (exists p :: p in ps && p.y == BoundsOf(ps).value.minY) &&
      (exists p :: p in ps && p.y == BoundsOf(ps).value.maxY)
  {
    if ps != [] {
      var init := ps[..|ps| - 1];
      BoundsTight(init);
      assert ps == init + [ps[|ps| - 1]];
    }
  }

  /** All points of all rings, ring after ring. */
  function Flatten(rings: seq<seq<Point>>): seq<Point> {
    if rings == [] then [] else Flatten(rings[..|rings| - 1]) + rings[|rings| - 1]
  }

  /** The midpoint of some bounds. */
  function Midpoint(b: Bounds): Point {
    Point((b.minX + b.maxX) / 2.0, (b.minY + b.maxY) / 2.0)
  }

  /**
   * `calculateCenter` over the first ring of every feature: the midpoint of
   * the smallest and largest longitude and latitude seen. With no point at all
   * the result is NaN (`None`): the infinite starting bounds never move.
   */
  method CalculateCenter(rings: seq<seq<Point>>) returns (c: Option<Point>)
    ensures c.None? <==> Flatten(rings) == []
    ensures c.Some? ==> BoundsOf(Flatten(rings)).Some? && c.value == Midpoint(BoundsOf(Flatten(rings)).value)
  {
    var any := false;
    var minLon, maxLon, minLat, maxLat := 0.0, 0.0, 0.0, 0.0;
    var i := 0;
    while i < |rings|
      invariant 0 <= i <= |rings|
      invariant any <==> BoundsOf(Flatten(rings[..i])).Some?
      invariant any ==> BoundsOf(Flatten(rings[..i])) == Some(Bounds(minLon, maxLon, minLat, maxLat))
    {
      var ring := rings[i];
      var j := 0;
      assert Flatten(rings[..i]) + ring[..0] == Flatten(rings[..i]);
      while j < |ring|
        invariant 0 <= j <= |ring|
        invariant any <==> BoundsOf(Flatten(rings[..i]) + ring[..j]).Some?
        invariant any ==> BoundsOf(Flatten(rings[..i]) + ring[..j]) == Some(Bounds(minLon, maxLon, minLat, maxLat))
      {
        var p := ring[j];
        ghost var seen := Flatten(rings[..i]) + ring[..j];
        assert (seen + [p])[..|seen|] == seen;
        assert Flatten(rings[..i]) + ring[..j + 1] == seen + [p];
        if !any {
          minLon, maxLon, minLat, maxLat := p.x, p.x, p.y, p.y;
          any := true;
        } else {
          minLon := Min(minLon, p.x);
          maxLon := Max(maxLon, p.x);
          minLat := Min(minLat, p.y);
          maxLat := Max(maxLat, p.y);
        }
        j := j + 1;
      }
      assert ring[..j] == ring;
      assert rings[..i + 1][..i] == rings[..i];
      i := i + 1;
    }
    assert rings[..i] == rings;
    BoundsTight(Flatten(rings));
    if any {
      c := Some(Point((minLon + maxLon) / 2.0, (minLat + maxLat) / 2.0));
    } else {
      c := None;
    }
  }

  /** The midpoint of some bounds lies inside them. */
  lemma MidpointInside(b: Bounds)
    requires b.minX <= b.maxX && b.minY <= b.maxY
    ensures b.minX <= Midpoint(b).x <= b.maxX
    ensures b.minY <= Midpoint(b).y <= b.maxY
  {
  }

  /** A centre computed from at least one point lies within the extent of all points. */
  lemma CenterInside(rings: seq<seq<Point>>)
    requires Flatten(rings) != []
    ensures BoundsOf(Flatten(rings)).Some?
    ensures var b := BoundsOf(Flatten(rings)).value;
      b.minX <= Midpoint(b).x <= b.maxX && b.minY <= Midpoint(b).y <= b.maxY
  {
    var ps := Flatten(rings);
    BoundsTight(ps);
    var b := BoundsOf(ps).value;
    assert ps[0] in ps;
    MidpointInside(b);
  }

  // -------------------------------------------------------------- overlap

  /** An axis-aligned box (`THREE.Box3`). */
  datatype Box = Box(min: Vec3, max: Vec3)

  /** `Box3.intersectsBox`: not separated along any axis; touching counts. */
  predicate Intersects(a: Box, b: Box) {
    !(b.max.x < a.min.x || b.min.x > a.max.x ||
      b.max.y < a.min.y || b.min.y > a.max.y ||
      b.max.z < a.min.z || b.min.z > a.max.z)
  }

  predicate InBox(p: Vec3, a: Box) {
    a.min.x <= p.x <= a.max.x && a.min.y <= p.y <= a.max.y && a.min.z <= p.z <= a.max.z
  }

  predicate NonEmpty(a: Box) {
    a.min.x <= a.max.x && a.min.y <= a.max.y && a.min.z <= a.max.z
  }

  /** Collision is symmetric. */
  lemma IntersectsSymmetric(a: Box, b: Box)
    ensures Intersects(a, b) <==> Intersects(b, a)
  {
  }

  /** Two non-empty boxes intersect exactly when some point lies in both. */
  lemma IntersectsIffCommonPoint(a: Box, b: Box)
    requires NonEmpty(a) && NonEmpty(b)
    ensures Intersects(a, b) <==> exists p :: InBox(p, a) && InBox(p, b)
  {
    if Intersects(a, b) {
      var p := Vec3(Max(a.min.x, b.min.x), Max(a.min.y, b.min.y), Max(a.min.z, b.min.z));
      assert InBox(p, a) && InBox(p, b);
    }
  }

  // ----------------------------------------------------------------- grid

  /** `Math.round`: halves go up (towards positive infinity). */
  function Round(v: real): int {
    (v + 0.5).Floor
  }

  /** One component of `snapToGrid`: `Math.round(v / g) * g`. */
  function Snap(v: real, g: real): real
    requires g != 0.0
  {
    Round(v / g) as real * g
  }

  function Abs(v: real): real { if v < 0.0 then -v else v }

  /** `Math.round` moves a value by at most one half. */
  lemma RoundClose(v: real)
    ensures Abs(Round(v) as real - v) <= 0.5
    ensures v - 0.5 < Round(v) as real
  {
  }

  /**
   * The snapped value is a whole multiple of the grid size, no further than
   * half a cell from the input.
   */
  lemma SnapOnGrid(v: real, g: real)
    requires g != 0.0
    ensures Snap(v, g) / g == Round(v / g) as real
    ensures Abs(Snap(v, g) - v) <= Abs(g) / 2.0
  {
    var q := v / g;
    var k := Round(q) as real;
    RoundClose(q);
    MulDivCancel(k, g);
    MulDivCancel(q, g);
    SubMul(k, q, g);
    AbsProduct(k - q, g);
    ScaleMonotoneLe(Abs(k - q), 0.5, Abs(g));
  }

  lemma MulDivCancel(a: real, g: real)
    requires g != 0.0
    ensures a * g / g == a
    ensures a / g * g == a
  {
  }

  lemma SubMul(a: real, b: real, g: real)
    ensures a * g - b * g == (a - b) * g
  {
  }

  lemma AbsProduct(a: real, b: real)
    ensures Abs(a * b) == Abs(a) * Abs(b)
  {
  }

  lemma ScaleMonotoneLe(a: real, b: real, k: real)
    requires a <= b && k >= 0.0
    ensures a * k <= b * k
  {
    assert (b - a) * k >= 0.0;
  }

  /** Snapping an already snapped value changes nothing. */
  lemma SnapIdempotent(v: real, g: real)
    requires g != 0.0
    ensures Snap(Snap(v, g), g) == Snap(v, g)
  {
    var k := Round(v / g);
    assert Snap(v, g) / g == k as real;
    assert Round(k as real) == k;
  }

  /** `snapToGrid`: every component snapped to the same grid. */
  function SnapToGrid(p: Vec3, g: real): (r: Vec3)
    requires g != 0.0
  {
    Vec3(Snap(p.x, g), Snap(p.y, g), Snap(p.z, g))
  }

  /** Snapping a whole vector is idempotent too. */
  lemma SnapToGridIdempotent(p: Vec3, g: real)
    requires g != 0.0
    ensures SnapToGrid(SnapToGrid(p, g), g) == SnapToGrid(p, g)
  {
    SnapIdempotent(p.x, g);
    SnapIdempotent(p.y, g);
    SnapIdempotent(p.z, g);
  }

  // ------------------------------------------------------------ elevation

  /**
   * `calculateElevation(x, z)` is `amplitude * sin(x * f) * cos(z * f)`; it is
   * only ever evaluated at the origin, where `sin(0) = 0` makes it exactly 0.
   */
  const OriginElevation: real := 0.0
}
