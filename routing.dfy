/**
 * Orthogonal routing: the preview router, which bends at 60% of the way
 * along the dominant axis, and the committed-connection router, which runs
 * from the source's right-middle to the target's left-middle with the bend
 * halfway. Neither avoids obstacles.
 */
module Routing {
  import opened Optional
  import opened Geometry
  import opened Store

  function Abs(r: real): real
  {
    if r < 0.0 then -r else r
  }

  /** The fraction of the dominant span at which the preview route bends. */
  const BendFraction: real := 0.6

  /** Manhattan length of one segment. */
  function SegmentLength(a: Point, b: Point): real
  {
    Abs(b.x - a.x) + Abs(b.y - a.y)
  }

  /** Total length of a polyline whose segments are axis-parallel. */
  function PathLength(route: seq<Point>): real
  {
    if |route| < 2 then 0.0 else SegmentLength(route[0], route[1]) + PathLength(route[1..])
  }

  /** Every segment is horizontal or vertical. */
  predicate Orthogonal(route: seq<Point>)
  {
    forall i :: 0 <= i < |route| - 1 ==> route[i].x == route[i + 1].x || route[i].y == route[i + 1].y
  }

  predicate Between(a: real, m: real, b: real)
  {
    (a <= m <= b) || (b <= m <= a)
  }

  lemma PathLengthOfFour(a: Point, b: Point, c: Point, d: Point)
    ensures PathLength([a, b, c, d]) == SegmentLength(a, b) + SegmentLength(b, c) + SegmentLength(c, d)
  {
    assert [c, d][1..] == [d];
    assert PathLength([c, d]) == SegmentLength(c, d) + PathLength([d]);
    assert [b, c, d][1..] == [c, d];
    assert PathLength([b, c, d]) == SegmentLength(b, c) + PathLength([c, d]);
    assert [a, b, c, d][1..] == [b, c, d];
  }

  /**
   * The preview route: start, two waypoints, end. When the horizontal span
   * is strictly larger the route turns on a vertical line 60% of the way
   * across; otherwise, ties included, on a horizontal line 60% of the way
   * down.
   */
  function OptimalPath(start: Point, end: Point): (route: seq<Point>)
    ensures |route| == 4 && route[0] == start && route[3] == end
    ensures Orthogonal(route)
    ensures Abs(end.x - start.x) > Abs(end.y - start.y) ==>
      route[1].y == start.y && route[2].y == end.y && route[1].x == route[2].x &&
      route[1].x - start.x == BendFraction * (end.x - start.x)
    ensures Abs(end.x - start.x) <= Abs(end.y - start.y) ==>
      route[1].x == start.x && route[2].x == end.x && route[1].y == route[2].y &&
      route[1].y - start.y == BendFraction * (end.y - start.y)
  {
    var deltaX := end.x - start.x;
    var deltaY := end.y - start.y;
    if Abs(deltaX) > Abs(deltaY) then
      var midX := start.x + deltaX * 0.6;
      [start, Point(midX, start.y), Point(midX, end.y), end]
    else
      var midY := start.y + deltaY * 0.6;
      [start, Point(start.x, midY), Point(end.x, midY), end]
  }

  /** The bend lies between the endpoints on the dominant axis. */
  lemma OptimalPathBendBetween(start: Point, end: Point)
    ensures var route := OptimalPath(start, end);
      if Abs(end.x - start.x) > Abs(end.y - start.y)
      then Between(start.x, route[1].x, end.x)
      else Between(start.y, route[1].y, end.y)
  {
  }

  /** The preview route makes no detour: its length is the Manhattan distance. */
  lemma OptimalPathLength(start: Point, end: Point)
    ensures PathLength(OptimalPath(start, end)) == Abs(end.x - start.x) + Abs(end.y - start.y)
  {
    var route := OptimalPath(start, end);
    PathLengthOfFour(route[0], route[1], route[2], route[3]);
    assert route == [route[0], route[1], route[2], route[3]];
  }

  /** The committed route of one connection and the length used to animate it. */
  datatype Elbow = Elbow(route: seq<Point>, pathLength: real)

  /** Right-middle of a node's footprint. */
  function RightMiddle(n: Node): Point
  {
    Point(n.x + NodeWidth, n.y + NodeHeight / 2.0)
  }

  /** Left-middle of a node's footprint. */
  function LeftMiddle(n: Node): Point
  {
    Point(n.x, n.y + NodeHeight / 2.0)
  }

  /**
   * The committed route: absent when either end's node is missing; otherwise
   * from the source's right-middle across to the vertical line halfway
   * between, down or up that line, then across to the target's left-middle.
   */
  function ElbowOf(c: Connection, nodes: seq<Node>): (r: Option<Elbow>)
    ensures r.None? <==> FindNode(nodes, c.sourceId).None? || FindNode(nodes, c.targetId).None?
  {
    var sourceNode := FindNode(nodes, c.sourceId);
    var targetNode := FindNode(nodes, c.targetId);
    if sourceNode.None? || targetNode.None? then None
    else
      var startX := sourceNode.value.x + 144.0;
      var startY := sourceNode.value.y + 40.0;
      var endX := targetNode.value.x;
      var endY := targetNode.value.y + 40.0;
      var midX := startX + (endX - startX) / 2.0;
      var pathLength := Abs(midX - startX) + Abs(endY - startY) + Abs(endX - midX);
      Some(Elbow([Point(startX, startY), Point(midX, startY), Point(midX, endY), Point(endX, endY)], pathLength))
  }

  /**
   * The committed route starts at the source's right-middle, ends at the
   * target's left-middle, bends exactly halfway across, alternates
   * horizontal and vertical segments, and its animation length is the
   * Manhattan distance between its ends, which is also its true length.
   */
  lemma ElbowShape(c: Connection, nodes: seq<Node>)
    requires ElbowOf(c, nodes).Some?
    ensures var e := ElbowOf(c, nodes).value;
      var start := RightMiddle(FindNode(nodes, c.sourceId).value);
      var end := LeftMiddle(FindNode(nodes, c.targetId).value);
      && |e.route| == 4 && e.route[0] == start && e.route[3] == end
      && e.route[1].x == e.route[2].x && e.route[1].x - start.x == end.x - e.route[1].x
      && e.route[1].y == start.y && e.route[2].y == end.y
      && Orthogonal(e.route)
      && e.pathLength == Abs(end.x - start.x) + Abs(end.y - start.y)
      && e.pathLength == PathLength(e.route)
  {
    var e := ElbowOf(c, nodes).value;
    PathLengthOfFour(e.route[0], e.route[1], e.route[2], e.route[3]);
    assert e.route == [e.route[0], e.route[1], e.route[2], e.route[3]];
  }

  /**
   * The committed route ignores ports: for a step or notification source it
   * leaves from the right (exit) port, but for a condition source it leaves
   * from the footprint's right edge, which is none of the condition's ports;
   * likewise it always arrives at the target's left-middle.
   */
  lemma ElbowIgnoresPorts(c: Connection, nodes: seq<Node>)
    requires ElbowOf(c, nodes).Some?
    ensures var src := FindNode(nodes, c.sourceId).value;
      var start := ElbowOf(c, nodes).value.route[0];
      && (src.kind != Condition ==> start.x == PortsOf(src)[3].x && start.y == PortsOf(src)[3].y && PortsOf(src)[3].side == Right)
      && (src.kind == Condition ==> forall p :: p in PortsOf(src) ==> p.x != start.x)
    ensures var tgt := FindNode(nodes, c.targetId).value;
      var end := ElbowOf(c, nodes).value.route[3];
      && (tgt.kind != Condition ==> end.x == PortsOf(tgt)[0].x && end.y == PortsOf(tgt)[0].y && PortsOf(tgt)[0].side == Left)
      && (tgt.kind == Condition ==> forall p :: p in PortsOf(tgt) ==> p.x != end.x)
  {
  }
}
