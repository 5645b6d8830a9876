/**
 * Node geometry: the fixed 144x80 footprint and the attachment points a node
 * exposes. The repository holds two tables of attachment points that agree on
 * positions and sides but not on roles; both are modelled here.
 */
module Geometry {

  datatype Point = Point(x: real, y: real)

  datatype NodeKind = Step | Condition | Notification

  datatype Side = Left | Top | Right | Bottom

  /** The role of a snapping target, and the role a connection drag starts from. */
  datatype PortType = Entry | Exit

  /** The role a node widget gives to one of its dots. */
  datatype DotType = EntryDot | ExitDot | DynamicDot

  /** A node of the diagram; `text` is its label and `x`, `y` the top-left corner of its footprint. */
  datatype Node = Node(id: string, kind: NodeKind, text: string, x: real, y: real)

  const NodeWidth: real := 144.0
  const NodeHeight: real := 80.0

  /** A snapping target as enumerated by the resolver. */
  datatype ConnectionPoint = ConnectionPoint(nodeId: string, x: real, y: real, side: Side, portType: PortType)

  /** A connection dot as a node widget lays it out. */
  datatype Dot = Dot(x: real, y: real, side: Side, dotType: DotType)

  /** True when (px, py) lies in the node's closed bounding box. */
  predicate InFootprint(n: Node, px: real, py: real)
  {
    n.x <= px <= n.x + NodeWidth && n.y <= py <= n.y + NodeHeight
  }

  /**
   * The snapping table: a condition offers its top as an entry and its left
   * and right quarter points as exits; any other node offers left, top and
   * bottom as entries and its right-middle as the one exit.
   */
  function PortsOf(n: Node): seq<ConnectionPoint>
  {
    if n.kind == Condition then
      [ ConnectionPoint(n.id, n.x + 72.0, n.y, Top, Entry),
        ConnectionPoint(n.id, n.x + 36.0, n.y + 40.0, Left, Exit),
        ConnectionPoint(n.id, n.x + 108.0, n.y + 40.0, Right, Exit) ]
    else
      [ ConnectionPoint(n.id, n.x, n.y + 40.0, Left, Entry),
        ConnectionPoint(n.id, n.x + 72.0, n.y, Top, Entry),
        ConnectionPoint(n.id, n.x + 72.0, n.y + 80.0, Bottom, Entry),
        ConnectionPoint(n.id, n.x + 144.0, n.y + 40.0, Right, Exit) ]
  }

  /**
   * Every port lies on the node's footprint and carries the node's id, no two
   * ports share a side, and the exits are a condition's left and right and
   * any other node's right.
   */
  lemma PortsOfShape(n: Node)
    ensures |PortsOf(n)| == if n.kind == Condition then 3 else 4
    ensures forall p :: p in PortsOf(n) ==> p.nodeId == n.id && InFootprint(n, p.x, p.y)
    ensures forall i, j :: 0 <= i < j < |PortsOf(n)| ==> PortsOf(n)[i].side != PortsOf(n)[j].side
    ensures forall p :: p in PortsOf(n) ==>
      (p.portType == Exit <==> if n.kind == Condition then p.side != Top else p.side == Right)
  {
  }

  /**
   * The node widget's table: the same positions and sides in the same order
   * as `PortsOf`; a condition's dots keep the fixed roles, every dot of any
   * other node is dynamic.
   */
  function DotsOf(n: Node): (ds: seq<Dot>)
    ensures |ds| == |PortsOf(n)|
    ensures forall i :: 0 <= i < |ds| ==>
      var p := PortsOf(n)[i];
      ds[i].x == p.x && ds[i].y == p.y && ds[i].side == p.side
    ensures forall i :: 0 <= i < |ds| ==>
      ds[i].dotType == (if n.kind != Condition then DynamicDot
                        else if PortsOf(n)[i].portType == Entry then EntryDot else ExitDot)
  {
    if n.kind == Condition then
      [ Dot(n.x + 72.0, n.y, Top, EntryDot),
        Dot(n.x + 36.0, n.y + 40.0, Left, ExitDot),
        Dot(n.x + 108.0, n.y + 40.0, Right, ExitDot) ]
    else
      [ Dot(n.x, n.y + 40.0, Left, DynamicDot),
        Dot(n.x + 72.0, n.y, Top, DynamicDot),
        Dot(n.x + 72.0, n.y + 80.0, Bottom, DynamicDot),
        Dot(n.x + 144.0, n.y + 40.0, Right, DynamicDot) ]
  }

  /**
   * Ports are never cached: moving a node by (dx, dy) moves every port by
   * the same amount and changes nothing else about it.
   */
  lemma PortsFollowNode(n: Node, m: Node)
    requires m.id == n.id && m.kind == n.kind
    ensures |PortsOf(m)| == |PortsOf(n)|
    ensures forall i :: 0 <= i < |PortsOf(n)| ==>
      PortsOf(m)[i] == Shift(PortsOf(n)[i], m.x - n.x, m.y - n.y)
  {
    var dx, dy := m.x - n.x, m.y - n.y;
    if n.kind == Condition {
      assert PortsOf(m) == [Shift(PortsOf(n)[0], dx, dy), Shift(PortsOf(n)[1], dx, dy), Shift(PortsOf(n)[2], dx, dy)];
    } else {
      assert PortsOf(m) == [Shift(PortsOf(n)[0], dx, dy), Shift(PortsOf(n)[1], dx, dy),
                            Shift(PortsOf(n)[2], dx, dy), Shift(PortsOf(n)[3], dx, dy)];
    }
  }

  function Shift(p: ConnectionPoint, dx: real, dy: real): ConnectionPoint
  {
    p.(x := p.x + dx, y := p.y + dy)
  }

  /** Squared Euclidean distance from a port to a pointer position. */
  function Dist2(p: ConnectionPoint, at: Point): (d: real)
    ensures d >= 0.0
  {
    (p.x - at.x) * (p.x - at.x) + (p.y - at.y) * (p.y - at.y)
  }

  /**
   * The snap test `distance < snapDistance` on a squared distance. It needs
   * `snap > 0` because a squared distance cannot tell a negative radius from
   * a positive one.
   */
  predicate WithinSnap(d2: real, snap: real)
  {
    snap > 0.0 && d2 < snap * snap
  }

  /** For a true (non-negative) distance `dist`, the squared test agrees with `dist < snap`. */
  lemma SnapTestMatchesDistance(dist: real, snap: real)
    requires dist >= 0.0
    ensures dist < snap <==> WithinSnap(dist * dist, snap)
  {
    if snap > 0.0 {
      SquaresPreserveOrder(dist, snap);
    }
  }

  /** Comparing squared distances orders non-negative distances the same way. */
  lemma SquaresPreserveOrder(d1: real, d2: real)
    requires d1 >= 0.0 && d2 >= 0.0
    ensures d1 < d2 <==> d1 * d1 < d2 * d2
  {
    var small, mixed, large := d1 * d1, d1 * d2, d2 * d2;
    if d1 < d2 {
      assert small <= mixed < large;
    } else {
      assert large <= mixed <= small;
    }
  }
}
