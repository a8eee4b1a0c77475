/**
 * The road layer of the city view (`src/components/Roads.tsx`): which ways
 * of an Overpass answer are roads, how wide and how light each road class
 * is drawn, which roads get a centre line, the outline path of a road, and
 * the data attached to each road for picking.
 *
 * `Vector2.normalize()` (a square root) is a parameter, `direction`: the
 * unit vector from one point towards another. `Math.cos` of the centre
 * latitude is the parameter `cosLat`.
 */
module Roads {
  import opened Text
  import opened Numbers
  import opened Geometry
  import opened Buildings
  import Overpass

  // ------------------------------------------------------------ selection

  /** A road as collected: its node positions (a missing node is `undefined`, `None`) and its tags. */
  datatype RoadWay = RoadWay(coords: seq<Option<Point>>, tags: map<string, string>)

  /** `element.nodes.map(id => nodes.get(id))`: the way's nodes in order, not closed into a ring. */
  function Coords(refs: seq<int>, nodes: map<int, Point>): (r: seq<Option<Point>>)
    ensures |r| == |refs|
    ensures forall i :: 0 <= i < |refs| ==> r[i] == NodeAt(nodes, refs[i])
  {
    seq(|refs|, i requires 0 <= i < |refs| => NodeAt(nodes, refs[i]))
  }

  /** A way is a road when its `highway` tag is set and it has more than one node. */
  predicate KeptRoad(e: Element) {
    e.Way? && Tag(e.tags, "highway") != "" && |e.refs| > 1
  }

  function RoadOf(e: Element, nodes: map<int, Point>): RoadWay
    requires e.Way?
  {
    RoadWay(Coords(e.refs, nodes), e.tags)
  }

  /** The roads among the elements, in element order. */
  function RoadWays(es: seq<Element>, nodes: map<int, Point>): seq<RoadWay> {
    if es == [] then []
    else
      var ws := RoadWays(es[..|es| - 1], nodes);
      var e := es[|es| - 1];
      if KeptRoad(e) then ws + [RoadOf(e, nodes)] else ws
  }

  /** The second pass over the elements: collect every road. */
  method CollectRoads(es: seq<Element>, nodes: map<int, Point>) returns (ways: seq<RoadWay>)
    ensures ways == RoadWays(es, nodes)
  {
    ways := [];
    var i := 0;
    while i < |es|
      invariant 0 <= i <= |es|
      invariant ways == RoadWays(es[..i], nodes)
    {
      assert es[..i + 1][..i] == es[..i];
      var e := es[i];
      if e.Way? && Tag(e.tags, "highway") != "" {
        var coordinates := seq(|e.refs|, k requires 0 <= k < |e.refs| => NodeAt(nodes, e.refs[k]));
        if |coordinates| > 1 {
          ways := ways + [RoadWay(coordinates, e.tags)];
        }
      }
      i := i + 1;
    }
    assert es[..i] == es;
  }

  /** Every collected road comes from a kept way element, with that element's nodes and tags. */
  lemma {:induction false} RoadWaysSound(es: seq<Element>, nodes: map<int, Point>, w: RoadWay)
    requires w in RoadWays(es, nodes)
    ensures exists i :: 0 <= i < |es| && KeptRoad(es[i]) && w == RoadOf(es[i], nodes)
    ensures Tag(w.tags, "highway") != "" && |w.coords| >= 2
  {
    var init := es[..|es| - 1];
    if w in RoadWays(init, nodes) {
      RoadWaysSound(init, nodes, w);
      var i :| 0 <= i < |init| && KeptRoad(init[i]) && w == RoadOf(init[i], nodes);
      assert es[i] == init[i];
    } else {
      assert KeptRoad(es[|es| - 1]) && w == RoadOf(es[|es| - 1], nodes);
    }
  }

  /** Every kept way element is collected. */
  lemma {:induction false} RoadWaysComplete(es: seq<Element>, nodes: map<int, Point>, i: nat)
    requires i < |es| && KeptRoad(es[i])
    ensures RoadOf(es[i], nodes) in RoadWays(es, nodes)
  {
    var init := es[..|es| - 1];
    if i < |es| - 1 {
      RoadWaysComplete(init, nodes, i);
      assert init[i] == es[i];
    }
  }

  // ------------------------------------------------------- classification

  /** The road width for a `highway` value. */
  function Width(roadType: string): (w: real)
    ensures w in {4.0, 3.0, 2.0, 1.5, 1.0}
  {
    if roadType == "primary" || roadType == "trunk" then 4.0
    else if roadType == "secondary" then 3.0
    else if roadType == "tertiary" then 2.0
    else if roadType == "residential" || roadType == "service" then 1.5
    else 1.0
  }

  /** The road colour for a `highway` value, as a 24-bit RGB number. */
  function Colour(roadType: string): (c: int)
    ensures c in {0xffffff, 0xfafafa, 0xf5f5f5, 0xf0f0f0, 0xeeeeee}
  {
    if roadType == "primary" || roadType == "trunk" then 0xffffff
    else if roadType == "secondary" then 0xfafafa
    else if roadType == "tertiary" then 0xf5f5f5
    else if roadType == "residential" || roadType == "service" then 0xf0f0f0
    else 0xeeeeee
  }

  /** Whether a road of this class gets a centre line. */
  predicate HasCenterLine(roadType: string) {
    roadType == "primary" || roadType == "secondary" || roadType == "trunk"
  }

  /** Width and colour split the classes the same way: a wider road is a lighter one, and equal widths share a colour. */
  lemma WiderIsLighter(a: string, b: string)
    ensures Width(a) < Width(b) <==> Colour(a) < Colour(b)
    ensures Width(a) == Width(b) <==> Colour(a) == Colour(b)
  {
  }

  /** The centre line is drawn on exactly the roads at least three units wide; tertiary roads have none. */
  lemma CenterLineOnWideRoads(roadType: string)
    ensures HasCenterLine(roadType) <==> Width(roadType) >= 3.0
    ensures !HasCenterLine("tertiary")
  {
  }

  // -------------------------------------------------------------- outline

  function Shift(p: Point, d: Point): Point {
    Point(p.x + d.x, p.y + d.y)
  }

  /** `new Vector2(-d.y, d.x).multiplyScalar(width / 2)`: the offset to the left of direction `d`. */
  function Perpendicular(d: Point, width: real): Point {
    Point(-d.y * (width / 2.0), d.x * (width / 2.0))
  }

  /** The outline's point for the segment from `c[i]` to `c[i + 1]` on the way out: the end, shifted to the left. */
  function OutPoint(c: seq<Point>, width: real, direction: (Point, Point) -> Point, i: nat): Point
    requires i + 1 < |c|
  {
    Shift(c[i + 1], Perpendicular(direction(c[i], c[i + 1]), width))
  }

  /** The outline's point for the segment from `c[i]` back to `c[i - 1]`: the start, shifted to the left going back. */
  function BackPoint(c: seq<Point>, width: real, direction: (Point, Point) -> Point, i: nat): Point
    requires 0 < i < |c|
  {
    Shift(c[i], Perpendicular(direction(c[i], c[i - 1]), width))
  }

  /** The lines drawn on the way out, for the first `m` segments. */
  function OutLines(c: seq<Point>, width: real, direction: (Point, Point) -> Point, m: nat): (r: seq<PathCmd>)
    requires m < |c|
    ensures |r| == m
  {
    seq(m, i requires 0 <= i < m => LineTo(OutPoint(c, width, direction, i)))
  }

  /** The lines drawn on the way back, for the last `m` segments, last segment first. */
  function BackLines(c: seq<Point>, width: real, direction: (Point, Point) -> Point, m: nat): (r: seq<PathCmd>)
    requires m == 0 || m < |c|
    ensures |r| == m
  {
    seq(m, j requires 0 <= j < m => LineTo(BackPoint(c, width, direction, |c| - 1 - j)))
  }

  /**
   * The road's outline: a move to the first point shifted to the left, a line
   * along every segment on the way out, a line along every segment on the
   * way back, and a close. With fewer than two points only the close remains.
   */
  function Outline(c: seq<Point>, width: real, direction: (Point, Point) -> Point): (path: seq<PathCmd>)
    ensures |c| < 2 ==> path == [ClosePath]
    ensures |c| >= 2 ==>
      |path| == 2 * |c| && path[0].MoveTo? && path[|path| - 1] == ClosePath &&
      (forall k :: 1 <= k < |path| - 1 ==> path[k].LineTo?)
  {
    if |c| < 2 then [ClosePath]
    else
      [MoveTo(Shift(c[0], Perpendicular(direction(c[0], c[1]), width)))] +
      OutLines(c, width, direction, |c| - 1) + BackLines(c, width, direction, |c| - 1) + [ClosePath]
  }

  /** The two loops that build the road shape. */
  method RoadOutline(c: seq<Point>, width: real, direction: (Point, Point) -> Point) returns (path: seq<PathCmd>)
    ensures path == Outline(c, width, direction)
  {
    var n := |c|;
    path := [];
    var i := 0;
    while i < n - 1
      invariant 0 <= i <= if n >= 1 then n - 1 else 0
      invariant i == 0 ==> path == []
      invariant i > 0 ==> path == [MoveTo(Shift(c[0], Perpendicular(direction(c[0], c[1]), width)))] + OutLines(c, width, direction, i)
    {
      var perpendicular := Perpendicular(direction(c[i], c[i + 1]), width);
      if i == 0 {
        path := path + [MoveTo(Shift(c[i], perpendicular))];
      }
      assert OutLines(c, width, direction, i + 1) == OutLines(c, width, direction, i) + [LineTo(OutPoint(c, width, direction, i))];
      path := path + [LineTo(Shift(c[i + 1], perpendicular))];
      i := i + 1;
    }
    ghost var out := path;
    var j := n - 1;
    while j > 0
      invariant -1 <= j <= n - 1 && (n >= 1 ==> j >= 0)
      invariant path == out + BackLines(c, width, direction, n - 1 - j)
    {
      assert BackLines(c, width, direction, n - j) == BackLines(c, width, direction, n - 1 - j) + [LineTo(BackPoint(c, width, direction, j))];
      path := path + [LineTo(BackPoint(c, width, direction, j))];
      j := j - 1;
    }
    path := path + [ClosePath];
  }

  function Neg(p: Point): Point {
    Point(-p.x, -p.y)
  }

  function Mid(p: Point, q: Point): Point {
    Point((p.x + q.x) / 2.0, (p.y + q.y) / 2.0)
  }

  /**
   * Where the direction back along a segment is the opposite of the direction
   * out, the outline is centred on the road's line: the two points drawn for
   * node `i + 1` (out along the segment ending there, and back along the same
   * segment) have that node as their midpoint.
   */
  lemma OutlineCentred(c: seq<Point>, width: real, direction: (Point, Point) -> Point, i: nat)
    requires i + 1 < |c|
    requires direction(c[i + 1], c[i]) == Neg(direction(c[i], c[i + 1]))
    ensures Mid(OutPoint(c, width, direction, i), BackPoint(c, width, direction, i + 1)) == c[i + 1]
  {
  }

  /** With a unit direction, the two sides of the road are `width` apart: the squared distance is `width * width`. */
  lemma OutlineWidth(c: seq<Point>, width: real, direction: (Point, Point) -> Point, i: nat)
    requires i + 1 < |c|
    requires direction(c[i + 1], c[i]) == Neg(direction(c[i], c[i + 1]))
    requires var d := direction(c[i], c[i + 1]); d.x * d.x + d.y * d.y == 1.0
    ensures var p := OutPoint(c, width, direction, i);
      var q := BackPoint(c, width, direction, i + 1);
      (p.x - q.x) * (p.x - q.x) + (p.y - q.y) * (p.y - q.y) == width * width
  {
    var d := direction(c[i], c[i + 1]);
    var p := OutPoint(c, width, direction, i);
    var q := BackPoint(c, width, direction, i + 1);
    assert p.x - q.x == -d.y * width;
    assert p.y - q.y == d.x * width;
    assert (-d.y * width) * (-d.y * width) + (d.x * width) * (d.x * width) == (d.x * d.x + d.y * d.y) * (width * width);
  }

  // ---------------------------------------------------------------- roads

  /** The data attached to a road: its tags, with `type` set to `road` and `roadType` to the `highway` value. */
  function RoadUserData(tags: map<string, string>): (ud: map<string, string>)
    ensures ud.Keys == tags.Keys + {"type", "roadType"}
    ensures ud["type"] == "road" && ud["roadType"] == Tag(tags, "highway")
    ensures forall k :: k in tags && k != "type" && k != "roadType" ==> ud[k] == tags[k]
  {
    tags["type" := "road"]["roadType" := Tag(tags, "highway")]
  }

  /** A drawn road: its outline, its colour, its centre line if it has one, and its data. */
  datatype Road = Road(outline: seq<PathCmd>, colour: int, centerLine: Option<seq<Point>>, userData: map<string, string>)

  /** The road drawn for a projected way. */
  function RoadFor(points: seq<Point>, tags: map<string, string>, direction: (Point, Point) -> Point): Road {
    var roadType := Tag(tags, "highway");
    Road(Outline(points, Width(roadType), direction), Colour(roadType),
         if HasCenterLine(roadType) then Some(points) else None, RoadUserData(tags))
  }

  /** A road's outline goes out and back along all of its points, and its centre line runs through them. */
  lemma RoadShape(points: seq<Point>, tags: map<string, string>, direction: (Point, Point) -> Point)
    requires |points| >= 2
    ensures var r := RoadFor(points, tags, direction);
      |r.outline| == 2 * |points| &&
      (r.centerLine.Some? <==> Width(Tag(tags, "highway")) >= 3.0) &&
      (r.centerLine.Some? ==> r.centerLine.value == points) &&
      r.userData["type"] == "road"
  {
    CenterLineOnWideRoads(Tag(tags, "highway"));
  }

  /** The body of the `ways.map` callback: project the way and build its road. */
  method MakeRoad(coords: seq<Point>, tags: map<string, string>, center: Point, cosLat: real,
                  direction: (Point, Point) -> Point) returns (road: Road)
    ensures road == RoadFor(NormalizeCoordinates(coords, center, cosLat), tags, direction)
  {
    var normalizedCoords := NormalizeCoordinates(coords, center, cosLat);
    var roadType := Tag(tags, "highway");
    var roadWidth := Width(roadType);
    var roadColor := Colour(roadType);
    var outline := RoadOutline(normalizedCoords, roadWidth, direction);
    var centerLine: Option<seq<Point>> := None;
    if roadType == "primary" || roadType == "secondary" || roadType == "trunk" {
      centerLine := Some(normalizedCoords);
    }
    road := Road(outline, roadColor, centerLine, RoadUserData(tags));
  }

  /** Every road's nodes were found. */
  predicate AllResolved(ways: seq<RoadWay>) {
    forall k :: 0 <= k < |ways| ==> Resolve(ways[k].coords).Some?
  }

  /** The roads' points, one sequence per road. */
  function Rings(ways: seq<RoadWay>): (rings: seq<seq<Point>>)
    requires AllResolved(ways)
    ensures |rings| == |ways|
  {
    seq(|ways|, k requires 0 <= k < |ways| => Resolve(ways[k].coords).value)
  }

  /** The roads' points, or `None` as soon as one road has a node that is missing. */
  method ResolveAll(ways: seq<RoadWay>) returns (rings: Option<seq<seq<Point>>>)
    ensures rings.Some? <==> AllResolved(ways)
    ensures rings.Some? ==> rings.value == Rings(ways)
  {
    var acc: seq<seq<Point>> := [];
    var k := 0;
    while k < |ways|
      invariant 0 <= k <= |ways|
      invariant AllResolved(ways[..k]) && acc == Rings(ways[..k])
    {
      var resolved := Resolve(ways[k].coords);
      if resolved.None? {
        return None;
      }
      acc := acc + [resolved.value];
      k := k + 1;
    }
    assert ways[..k] == ways;
    return Some(acc);
  }

  /** The roads of the `ways.map` pass about `center`. */
  method BuildRoads(rings: seq<seq<Point>>, ways: seq<RoadWay>, center: Point, cosLat: real,
                    direction: (Point, Point) -> Point) returns (roads: seq<Road>)
    requires |rings| == |ways|
    ensures |roads| == |ways|
    ensures forall m :: 0 <= m < |ways| ==> roads[m] == RoadFor(NormalizeCoordinates(rings[m], center, cosLat), ways[m].tags, direction)
  {
    roads := [];
    var k := 0;
    while k < |ways|
      invariant 0 <= k <= |ways| && |roads| == k
      invariant forall m :: 0 <= m < k ==> roads[m] == RoadFor(NormalizeCoordinates(rings[m], center, cosLat), ways[m].tags, direction)
    {
      var road := MakeRoad(rings[k], ways[k].tags, center, cosLat, direction);
      roads := roads + [road];
      k := k + 1;
    }
  }

  /** The centre `calculateCenter` finds for some rings with at least one point. */
  function CenterOf(rings: seq<seq<Point>>): Point
    requires Flatten(rings) != []
  {
    BoundsTight(Flatten(rings));
    Midpoint(BoundsOf(Flatten(rings)).value)
  }

  /**
   * What processing `es` yields: roads exactly when every way resolves, one
   * per way, each the way's ring projected about the common center.
   */
  predicate ProcessedFrom(es: seq<Element>, cosLat: real, direction: (Point, Point) -> Point, roads: Option<seq<Road>>) {
    var ways := RoadWays(es, NodeMap(es));
    (roads.Some? <==> AllResolved(ways)) &&
    (roads.Some? ==> |roads.value| == |ways|) &&
    (roads.Some? && Flatten(Rings(ways)) != [] ==>
      forall k :: 0 <= k < |ways| ==>
        roads.value[k] == RoadFor(NormalizeCoordinates(Rings(ways)[k], CenterOf(Rings(ways)), cosLat), ways[k].tags, direction))
  }

  /**
   * `processRoads`: collect the nodes and the roads, find the centre of all
   * road points, and build one road per way. A road with a node that is not
   * in the answer makes the whole pass fail (`None`): the centre computation
   * cannot read the missing position.
   */
  method ProcessRoads(es: seq<Element>, cosLat: real, direction: (Point, Point) -> Point) returns (roads: Option<seq<Road>>)
    ensures roads.Some? <==> AllResolved(RoadWays(es, NodeMap(es)))
    ensures roads.Some? ==> |roads.value| == |RoadWays(es, NodeMap(es))|
    ensures roads.Some? && Flatten(Rings(RoadWays(es, NodeMap(es)))) != [] ==>
      var ways := RoadWays(es, NodeMap(es));
      forall k :: 0 <= k < |ways| ==>
        roads.value[k] == RoadFor(NormalizeCoordinates(Rings(ways)[k], CenterOf(Rings(ways)), cosLat), ways[k].tags, direction)
  {
    var nodes := CollectNodes(es);
    var ways := CollectRoads(es, nodes);
    var rings := ResolveAll(ways);
    if rings.None? {
      return None;
    }
    var c := CalculateCenter(rings.value);
    var center := if c.Some? then c.value else Point(0.0, 0.0);
    var built := BuildRoads(rings.value, ways, center, cosLat, direction);
    roads := Some(built);
  }

  /**
   * `fetchRoads`: the cached roads answer when there is a fresh one, otherwise
   * count the request, cache the server's `answer` and process that. The
   * rate check always allows, so it only reloads the counter.
   */
  method FetchRoads(service: Overpass.Service<seq<Element>>, hour: int, now: int, answer: seq<Element>,
                    cosLat: real, direction: (Point, Point) -> Point) returns (roads: Option<seq<Road>>)
    modifies service
    ensures var cached := Overpass.Lookup(old(service.cache), Overpass.RoadsData, now);
      if cached.Some? then
        service.cache == old(service.cache) && service.counter == old(service.counter) &&
        ProcessedFrom(cached.value, cosLat, direction, roads)
      else
        service.cache == Overpass.Put(old(service.cache), Overpass.RoadsData, answer, now) &&
        Overpass.HourlyCount(service.counter, hour) == Inc(Overpass.HourlyCount(old(service.counter), hour)) &&
        ProcessedFrom(answer, cosLat, direction, roads)
  {
    var cachedData := service.GetCachedOverpassData(Overpass.RoadsData, now);
    if cachedData.Some? {
      roads := ProcessRoads(cachedData.value, cosLat, direction);
      return;
    }
    var ok := service.CheckOverpassRateLimit(hour);
    service.TrackOverpassRequest(hour);
    service.CacheOverpassData(Overpass.RoadsData, answer, now);
    roads := ProcessRoads(answer, cosLat, direction);
  }
}
