/** End-to-end consequences of the model for concrete interaction sequences. */
module Scenarios {
  import opened Optional
  import opened Seqs
  import opened Geometry
  import opened Store
  import opened Snap
  import opened Routing
  import opened Canvas

  /**
   * A drag from a condition's top is an entry-role drag, so the only ports
   * it can snap to are exits of other nodes.
   */
  lemma ConditionTopSnapsOnlyToExits(nodes: seq<Node>, nodeId: string, conns: seq<Connection>)
    requires FindNode(nodes, nodeId).Some? && FindNode(nodes, nodeId).value.kind == Condition
    ensures StartRole(nodes, nodeId, Top) == Entry
    ensures forall p :: p in Candidates(nodes, nodeId, conns, StartRole(nodes, nodeId, Top)) ==>
      p.portType == Exit && p.nodeId != nodeId
  {
    forall p | p in Candidates(nodes, nodeId, conns, Entry)
      ensures p.portType == Exit && p.nodeId != nodeId
    {
      CandidateMembership(nodes, nodeId, conns, Entry, p);
      var n :| n in nodes && n.id != nodeId && p in PortsOf(n);
      PortsOfShape(n);
    }
  }

  /** The two step nodes of the scenario below, added by clicks at (100, 100) and (400, 100). */
  function FirstStep(): Node { NewNode("a", Step, 100.0, 100.0) }
  function SecondStep(): Node { NewNode("b", Step, 400.0, 100.0) }

  /** Excluding the first step leaves the second step's four ports. */
  lemma ScenarioOtherPoints()
    ensures PointsOf(OtherNodes([FirstStep(), SecondStep()], "a")) == PortsOf(SecondStep())
  {
    var a, b := FirstStep(), SecondStep();
    var nodes := [a, b];
    var keepNode := (n: Node) => n.id != "a";
    assert OtherNodes(nodes, "a") == [b] by {
      assert nodes[..|nodes| - 1] == [a];
      assert [a][..0] == [];
      assert Filter([a], keepNode) == [];
      assert keepNode(b);
    }
    assert [b][..0] == [];
    assert Flatten([b], PortsOf) == Flatten([], PortsOf) + PortsOf(b);
  }

  /** Of a step's ports, an exit-role drag keeps the three entries. */
  lemma ScenarioEntries()
    ensures RoleFiltered(PortsOf(SecondStep()), Exit) == PortsOf(SecondStep())[..3]
  {
    var ps := PortsOf(SecondStep());
    var keepPort := (p: ConnectionPoint) => Compatible(Exit, p);
    assert ps[..|ps| - 1] == ps[..3];
    assert !keepPort(ps[3]);
    assert ps[..3][..2] == ps[..2] && ps[..2][..1] == ps[..1] && ps[..1][..0] == [];
    assert Filter(ps[..1], keepPort) == [ps[0]];
    assert Filter(ps[..2], keepPort) == [ps[0], ps[1]];
    assert Filter(ps[..3], keepPort) == [ps[0], ps[1], ps[2]];
  }

  /** With no connections yet, an exit-role drag from the first step may snap to the second step's three entries. */
  lemma ScenarioCandidates()
    ensures Candidates([FirstStep(), SecondStep()], "a", [], Exit) == PortsOf(SecondStep())[..3]
  {
    var nodes := [FirstStep(), SecondStep()];
    var entries := PortsOf(SecondStep())[..3];
    ScenarioOtherPoints();
    ScenarioEntries();
    assert RoleFiltered(PointsOf(OtherNodes(nodes, "a")), Exit) == entries;
    FilterKeepsAll(entries, (p: ConnectionPoint) => !Linked([], "a", p.nodeId));
    assert Unlinked([], "a", entries) == entries;
  }

  /** A pointer exactly on the second step's left port resolves to that port. */
  lemma ScenarioSnap()
    ensures Nearest(PortsOf(SecondStep())[..3], DistanceFrom(Point(328.0, 100.0)), SnapRadius)
      == Some(PortsOf(SecondStep())[0])
  {
    var cands := PortsOf(SecondStep())[..3];
    var dist := DistanceFrom(Point(328.0, 100.0));
    assert cands[0] == ConnectionPoint("b", 328.0, 100.0, Left, Entry);
    assert dist(cands[0]) == 0.0;
    assert Nearest(cands[..1], dist, SnapRadius) == Some(cands[0]) by {
      assert cands[..1][..0] == [];
    }
    assert cands[..2][..1] == cands[..1];
    assert Nearest(cands[..2], dist, SnapRadius) == Some(cands[0]);
    assert cands[..3] == cands && cands[..3][..2] == cands[..2];
  }

  /**
   * Two step nodes added at (100, 100) and (400, 100); a drag from the first
   * one's right port released over the second one's left port snaps to that
   * port, commits a right-to-left connection, and the committed route runs
   * exactly between the two ports.
   */
  lemma TwoStepsConnectedRightToLeft()
    ensures var nodes := [FirstStep(), SecondStep()];
      var from := PortsOf(FirstStep())[3];
      var to := PortsOf(SecondStep())[0];
      var role := StartRole(nodes, "a", from.side);
      var snapped := Nearest(Candidates(nodes, "a", [], role), DistanceFrom(Point(to.x, to.y)), SnapRadius);
      var g := Gesture("a", Point(from.x, from.y), from.side, role);
      var conns := AfterDrop([], Some(g), "b", None, snapped, "c");
      && from.side == Right && to.side == Left
      && snapped == Some(to)
      && conns == [Connection("c", "a", "b", Some(Right), Some(Left))]
      && ElbowOf(conns[0], nodes).Some?
      && ElbowOf(conns[0], nodes).value.route[0] == Point(from.x, from.y)
      && ElbowOf(conns[0], nodes).value.route[3] == Point(to.x, to.y)
  {
    var a, b := FirstStep(), SecondStep();
    var nodes := [a, b];
    assert PortsOf(a)[3] == ConnectionPoint("a", 172.0, 100.0, Right, Exit);
    assert PortsOf(b)[0] == ConnectionPoint("b", 328.0, 100.0, Left, Entry);
    assert StartRole(nodes, "a", Right) == Exit;
    ScenarioCandidates();
    ScenarioSnap();
  }
}
