/**
 * Attachment-point enumeration and the nearest-port resolver used while a
 * connection is being drawn.
 */
module Snap {
  import opened Optional
  import opened Seqs
  import opened Geometry
  import opened Store

  /** Every node's ports, grouped node by node in list order. */
  function PointsOf(nodes: seq<Node>): seq<ConnectionPoint>
  {
    Flatten(nodes, PortsOf)
  }

  /** How many ports a node list exposes: three per condition, four per other node. */
  function PortCount(nodes: seq<Node>): nat
  {
    if nodes == [] then 0
    else PortCount(nodes[..|nodes| - 1]) + (if nodes[|nodes| - 1].kind == Condition then 3 else 4)
  }

  lemma {:induction false} PointsOfCount(nodes: seq<Node>)
    ensures |PointsOf(nodes)| == PortCount(nodes)
  {
    if nodes != [] {
      PointsOfCount(nodes[..|nodes| - 1]);
      PortsOfShape(nodes[|nodes| - 1]);
    }
  }

  /**
   * Enumeration is grouped: the ports of a concatenation are the concatenated
   * ports, and each port is one of its own node's ports carrying that node's id.
   */
  lemma PointsOfGrouped(front: seq<Node>, back: seq<Node>, p: ConnectionPoint)
    ensures PointsOf(front + back) == PointsOf(front) + PointsOf(back)
    ensures p in PointsOf(front) <==> exists n :: n in front && p in PortsOf(n)
    ensures p in PointsOf(front) ==> exists n :: n in front && p in PortsOf(n) && p.nodeId == n.id
  {
    FlattenAppend(front, back, PortsOf);
    FlattenMembership(front, PortsOf, p);
    if p in PointsOf(front) {
      var n :| n in front && p in PortsOf(n);
      PortsOfShape(n);
    }
  }

  /** The rendering-side enumeration: one push of the node's ports per node. */
  method GetAllConnectionPoints(nodes: seq<Node>) returns (points: seq<ConnectionPoint>)
    ensures points == PointsOf(nodes)
  {
    points := [];
    var i := 0;
    while i < |nodes|
      invariant 0 <= i <= |nodes|
      invariant points == PointsOf(nodes[..i])
    {
      assert nodes[..i + 1][..i] == nodes[..i];
      points := points + PortsOf(nodes[i]);
      i := i + 1;
    }
    assert nodes[..|nodes|] == nodes;
  }

  /** The nodes whose ports the resolver considers: all but the origin. */
  function OtherNodes(nodes: seq<Node>, excludeNodeId: string): seq<Node>
  {
    Filter(nodes, (n: Node) => n.id != excludeNodeId)
  }

  /** An exit drag may only land on an entry and an entry drag only on an exit. */
  predicate Compatible(draggingFrom: PortType, p: ConnectionPoint)
  {
    if draggingFrom == Exit then p.portType == Entry else p.portType == Exit
  }

  function RoleFiltered(points: seq<ConnectionPoint>, draggingFrom: PortType): seq<ConnectionPoint>
  {
    Filter(points, (p: ConnectionPoint) => Compatible(draggingFrom, p))
  }

  /** The ports whose node is not yet joined to the origin in either direction. */
  function Unlinked(conns: seq<Connection>, excludeNodeId: string, points: seq<ConnectionPoint>): seq<ConnectionPoint>
  {
    Filter(points, (p: ConnectionPoint) => !Linked(conns, excludeNodeId, p.nodeId))
  }

  /** The candidates, in enumeration order, among which the resolver picks. */
  function Candidates(nodes: seq<Node>, excludeNodeId: string, conns: seq<Connection>, draggingFrom: PortType): seq<ConnectionPoint>
  {
    Unlinked(conns, excludeNodeId, RoleFiltered(PointsOf(OtherNodes(nodes, excludeNodeId)), draggingFrom))
  }

  /** Squared distance to the pointer, as a function of the port. */
  function DistanceFrom(at: Point): ConnectionPoint -> real
  {
    (p: ConnectionPoint) => Dist2(p, at)
  }

  /**
   * The resolver's choice over a candidate list: scanning in order, a
   * candidate replaces the current best when it is within the snap radius and
   * strictly nearer.
   */
  function Nearest(cands: seq<ConnectionPoint>, dist: ConnectionPoint -> real, snap: real): Option<ConnectionPoint>
  {
    if cands == [] then None
    else
      var best := Nearest(cands[..|cands| - 1], dist, snap);
      var p := cands[|cands| - 1];
      if WithinSnap(dist(p), snap) && (best.None? || dist(p) < dist(best.value))
      then Some(p) else best
  }

  /** `k` is the first index of a candidate within the radius that no candidate beats. */
  ghost predicate FirstNearest(cands: seq<ConnectionPoint>, dist: ConnectionPoint -> real, snap: real, k: int)
  {
    && 0 <= k < |cands|
    && WithinSnap(dist(cands[k]), snap)
    && (forall j :: 0 <= j < |cands| ==> dist(cands[k]) <= dist(cands[j]))
    && (forall j :: 0 <= j < k ==> dist(cands[k]) < dist(cands[j]))
  }

  /** The scan finds nothing exactly when no candidate lies strictly inside the snap radius. */
  lemma {:induction false} NearestNoneIff(cands: seq<ConnectionPoint>, dist: ConnectionPoint -> real, snap: real)
    ensures Nearest(cands, dist, snap).None? <==>
      forall i :: 0 <= i < |cands| ==> !WithinSnap(dist(cands[i]), snap)
  {
    if cands != [] {
      var init := cands[..|cands| - 1];
      NearestNoneIff(init, dist, snap);
      assert forall i :: 0 <= i < |init| ==> init[i] == cands[i];
    }
  }

  /** Otherwise it finds the first candidate of least distance. */
  lemma {:induction false} NearestIsFirstMinimum(cands: seq<ConnectionPoint>, dist: ConnectionPoint -> real, snap: real)
    requires Nearest(cands, dist, snap).Some?
    ensures exists k :: FirstNearest(cands, dist, snap, k) && cands[k] == Nearest(cands, dist, snap).value
  {
    var init := cands[..|cands| - 1];
    var p := cands[|cands| - 1];
    var best := Nearest(init, dist, snap);
    var n := |cands| - 1;
    if best.Some? {
      NearestIsFirstMinimum(init, dist, snap);
      var k :| FirstNearest(init, dist, snap, k) && init[k] == best.value;
      if WithinSnap(dist(p), snap) && dist(p) < dist(best.value) {
        assert forall j :: 0 <= j < n ==> cands[j] == init[j];
        assert FirstNearest(cands, dist, snap, n);
      } else {
        assert forall j :: 0 <= j < n ==> cands[j] == init[j];
        assert FirstNearest(cands, dist, snap, k);
      }
    } else {
      NearestNoneIff(init, dist, snap);
      assert forall j :: 0 <= j < n ==> cands[j] == init[j];
      assert FirstNearest(cands, dist, snap, n);
    }
  }

  /**
   * A candidate is a port of a node other than the origin, compatible with
   * the drag, whose node has no connection with the origin; and every such
   * port is a candidate.
   */
  lemma CandidateMembership(nodes: seq<Node>, excludeNodeId: string, conns: seq<Connection>, draggingFrom: PortType, p: ConnectionPoint)
    ensures p in Candidates(nodes, excludeNodeId, conns, draggingFrom) <==>
      && (exists n :: n in nodes && n.id != excludeNodeId && p in PortsOf(n))
      && Compatible(draggingFrom, p)
      && !Linked(conns, excludeNodeId, p.nodeId)
  {
    var others := OtherNodes(nodes, excludeNodeId);
    var roled := RoleFiltered(PointsOf(others), draggingFrom);
    FilterMembership(roled, (q: ConnectionPoint) => !Linked(conns, excludeNodeId, q.nodeId), p);
    FilterMembership(PointsOf(others), (q: ConnectionPoint) => Compatible(draggingFrom, q), p);
    FlattenMembership(others, PortsOf, p);
    if p in PointsOf(others) {
      var n :| n in others && p in PortsOf(n);
      FilterMembership(nodes, (m: Node) => m.id != excludeNodeId, n);
    }
    if exists n :: n in nodes && n.id != excludeNodeId && p in PortsOf(n) {
      var n :| n in nodes && n.id != excludeNodeId && p in PortsOf(n);
      FilterMembership(nodes, (m: Node) => m.id != excludeNodeId, n);
    }
  }

  /**
   * The resolver's answer, stated on its own: when it names a port, that port
   * is off the origin, of the opposite role, on a node not yet joined to the
   * origin, strictly inside the snap radius and no farther than any other
   * candidate; when it names none, no candidate is inside the radius.
   */
  lemma ResolverAnswer(nodes: seq<Node>, excludeNodeId: string, conns: seq<Connection>, draggingFrom: PortType, at: Point, snap: real)
    ensures var cands := Candidates(nodes, excludeNodeId, conns, draggingFrom);
      var r := Nearest(cands, DistanceFrom(at), snap);
      && (r.None? <==> forall q :: q in cands ==> !WithinSnap(Dist2(q, at), snap))
      && (r.Some? ==>
            && r.value.nodeId != excludeNodeId
            && (draggingFrom == Exit ==> r.value.portType == Entry)
            && (draggingFrom == Entry ==> r.value.portType == Exit)
            && !Linked(conns, excludeNodeId, r.value.nodeId)
            && WithinSnap(Dist2(r.value, at), snap)
            && forall q :: q in cands ==> Dist2(r.value, at) <= Dist2(q, at))
  {
    var cands := Candidates(nodes, excludeNodeId, conns, draggingFrom);
    var dist := DistanceFrom(at);
    NearestNoneIff(cands, dist, snap);
    var r := Nearest(cands, dist, snap);
    if r.Some? {
      NearestIsFirstMinimum(cands, dist, snap);
      var k :| FirstNearest(cands, dist, snap, k) && cands[k] == r.value;
      CandidateMembership(nodes, excludeNodeId, conns, draggingFrom, r.value);
      var n :| n in nodes && n.id != excludeNodeId && r.value in PortsOf(n);
      PortsOfShape(n);
    }
  }

  /**
   * The resolver. It collects the ports of every node but the origin, keeps
   * those compatible with the drag, skips ports on nodes already joined to
   * the origin and keeps the nearest within the snap radius; ties keep the
   * earlier port.
   */
  method FindNearestConnectionPoint(
    mouse: Point,
    nodes: seq<Node>,
    excludeNodeId: string,
    snapDistance: real,
    existingConnections: seq<Connection>,
    draggingFromType: PortType)
    returns (nearest: Option<ConnectionPoint>)
    ensures nearest == Nearest(Candidates(nodes, excludeNodeId, existingConnections, draggingFromType), DistanceFrom(mouse), snapDistance)
  {
    var points: seq<ConnectionPoint> := [];
    var i := 0;
    while i < |nodes|
      invariant 0 <= i <= |nodes|
      invariant points == PointsOf(OtherNodes(nodes[..i], excludeNodeId))
    {
      assert nodes[..i + 1][..i] == nodes[..i];
      if nodes[i].id != excludeNodeId {
        FlattenAppend(OtherNodes(nodes[..i], excludeNodeId), [nodes[i]], PortsOf);
        assert [nodes[i]][..0] == [];
        points := points + PortsOf(nodes[i]);
      }
      i := i + 1;
    }
    assert nodes[..|nodes|] == nodes;

    var validPoints := RoleFiltered(points, draggingFromType);

    nearest := None;
    var minDistance: real := 0.0;
    var j := 0;
    while j < |validPoints|
      invariant 0 <= j <= |validPoints|
      invariant nearest == Nearest(Unlinked(existingConnections, excludeNodeId, validPoints[..j]), DistanceFrom(mouse), snapDistance)
      invariant nearest.Some? ==> minDistance == Dist2(nearest.value, mouse)
    {
      var point := validPoints[j];
      assert validPoints[..j + 1][..j] == validPoints[..j];
      if !Linked(existingConnections, excludeNodeId, point.nodeId) {
        var distance := Dist2(point, mouse);
        if (nearest.None? || distance < minDistance) && WithinSnap(distance, snapDistance) {
          minDistance := distance;
          nearest := Some(point);
        }
      }
      j := j + 1;
    }
    assert validPoints[..|validPoints|] == validPoints;
  }
}
