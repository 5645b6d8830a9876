/**
 * The canvas: the connection-drawing gesture, the context-menu position and
 * the keyboard and background-click handlers, all driving the store.
 */
module Canvas {
  import opened Optional
  import opened Geometry
  import opened Store
  import opened Snap

  /** A connection drag in progress: its origin node, start position, side and role. */
  datatype Gesture = Gesture(nodeId: string, startPos: Point, startSide: Side, startType: PortType)

  datatype Key = DeleteKey | EscapeKey | OtherKey

  /** Snap radius the canvas passes to the resolver. */
  const SnapRadius: real := 50.0

  /**
   * The role a drag starts from. Only a condition's top starts an entry-role
   * drag; every other press, including one on a node that is not found,
   * starts an exit-role drag.
   */
  function StartRole(nodes: seq<Node>, nodeId: string, side: Side): (t: PortType)
    ensures t == Entry <==>
      FindNode(nodes, nodeId).Some? && FindNode(nodes, nodeId).value.kind == Condition && side == Top
  {
    var node := FindNode(nodes, nodeId);
    if node.Some? then
      if node.value.kind == Condition then (if side == Top then Entry else Exit) else Exit
    else Exit
  }

  /**
   * For a condition the drag role is the role its port table gives the
   * pressed side; for a step or notification it is always exit, even from
   * the sides that table calls entries.
   */
  lemma StartRoleAgainstPortTable(nodes: seq<Node>, nodeId: string, p: ConnectionPoint)
    requires FindNode(nodes, nodeId).Some?
    requires p in PortsOf(FindNode(nodes, nodeId).value)
    ensures FindNode(nodes, nodeId).value.kind == Condition ==> StartRole(nodes, nodeId, p.side) == p.portType
    ensures FindNode(nodes, nodeId).value.kind != Condition ==> StartRole(nodes, nodeId, p.side) == Exit
  {
    PortsOfShape(FindNode(nodes, nodeId).value);
  }

  /**
   * The connection a successful drop records: an exit-role drag runs from
   * the origin to the dropped-on node, an entry-role drag the other way; the
   * source side is the side the drag started from, the target side the
   * explicit one if given, else the highlighted point's.
   */
  function Committed(g: Gesture, targetNodeId: string, targetPort: Option<Side>,
                     highlighted: Option<ConnectionPoint>, freshId: string): (c: Connection)
    ensures c.id == freshId
    ensures {c.sourceId, c.targetId} == {g.nodeId, targetNodeId}
    ensures c.sourceId == g.nodeId <==> g.startType == Exit || targetNodeId == g.nodeId
    ensures c.sourcePort == Some(g.startSide)
    ensures targetPort.Some? ==> c.targetPort == targetPort
    ensures targetPort.None? ==> c.targetPort == (if highlighted.Some? then Some(highlighted.value.side) else None)
  {
    var sourceId := if g.startType == Exit then g.nodeId else targetNodeId;
    var targetId := if g.startType == Exit then targetNodeId else g.nodeId;
    Connection(freshId, sourceId, targetId, Some(g.startSide),
               if targetPort.Some? then targetPort else if highlighted.Some? then Some(highlighted.value.side) else None)
  }

  /**
   * An entry-role drag swaps the ends but still records the side it started
   * from as the source port, so that side belongs to the connection's target.
   */
  lemma EntryDragSourcePortOnTarget(g: Gesture, targetNodeId: string, targetPort: Option<Side>,
                                    highlighted: Option<ConnectionPoint>, freshId: string)
    requires g.startType == Entry && targetNodeId != g.nodeId
    ensures var c := Committed(g, targetNodeId, targetPort, highlighted, freshId);
      c.sourceId == targetNodeId && c.targetId == g.nodeId && c.sourcePort == Some(g.startSide)
  {
  }

  /** True when a drop on `targetNodeId` commits a connection. */
  predicate Commits(conns: seq<Connection>, gesture: Option<Gesture>, targetNodeId: string)
  {
    gesture.Some? && gesture.value.nodeId != targetNodeId && !Linked(conns, gesture.value.nodeId, targetNodeId)
  }

  /** The connection list after a drop. */
  function AfterDrop(conns: seq<Connection>, gesture: Option<Gesture>, targetNodeId: string,
                     targetPort: Option<Side>, highlighted: Option<ConnectionPoint>, freshId: string): seq<Connection>
  {
    if Commits(conns, gesture, targetNodeId)
    then WithConnection(conns, Committed(gesture.value, targetNodeId, targetPort, highlighted, freshId))
    else conns
  }

  /**
   * A drop adds nothing when no drag is active, when it lands on the origin,
   * or when the two nodes are already joined either way; otherwise it
   * appends exactly the committed connection (the store's own directed test
   * never fires).
   */
  lemma AfterDropOutcome(conns: seq<Connection>, gesture: Option<Gesture>, targetNodeId: string,
                         targetPort: Option<Side>, highlighted: Option<ConnectionPoint>, freshId: string)
    ensures !Commits(conns, gesture, targetNodeId) ==>
      AfterDrop(conns, gesture, targetNodeId, targetPort, highlighted, freshId) == conns
    ensures Commits(conns, gesture, targetNodeId) ==>
      AfterDrop(conns, gesture, targetNodeId, targetPort, highlighted, freshId) ==
        conns + [Committed(gesture.value, targetNodeId, targetPort, highlighted, freshId)]
  {
  }

  /**
   * Drops never create a self-loop or a second connection between the same
   * unordered pair of nodes.
   */
  lemma AfterDropKeepsEdgeInvariants(conns: seq<Connection>, gesture: Option<Gesture>, targetNodeId: string,
                                     targetPort: Option<Side>, highlighted: Option<ConnectionPoint>, freshId: string)
    requires NoSelfLoops(conns) && UndirectedUnique(conns)
    ensures NoSelfLoops(AfterDrop(conns, gesture, targetNodeId, targetPort, highlighted, freshId))
    ensures UndirectedUnique(AfterDrop(conns, gesture, targetNodeId, targetPort, highlighted, freshId))
  {
    if Commits(conns, gesture, targetNodeId) {
      var c := Committed(gesture.value, targetNodeId, targetPort, highlighted, freshId);
      var r := conns + [c];
      forall i | 0 <= i < |conns|
        ensures !(r[i].sourceId == c.sourceId && r[i].targetId == c.targetId)
        ensures !(r[i].sourceId == c.targetId && r[i].targetId == c.sourceId)
      {
        assert r[i] == conns[i];
      }
    }
  }

  /** A drop keeps every reference resolvable as long as both of its nodes are present. */
  lemma AfterDropKeepsRefs(nodes: seq<Node>, conns: seq<Connection>, gesture: Option<Gesture>, targetNodeId: string,
                           targetPort: Option<Side>, highlighted: Option<ConnectionPoint>, freshId: string)
    requires RefsPresent(nodes, conns)
    requires gesture.Some? ==> IdPresent(nodes, gesture.value.nodeId)
    requires IdPresent(nodes, targetNodeId)
    ensures RefsPresent(nodes, AfterDrop(conns, gesture, targetNodeId, targetPort, highlighted, freshId))
  {
  }

  /**
   * The Delete key does not cancel a drag, so the origin of a drag can be
   * deleted while it is in progress; a later drop on another node then
   * records a connection whose origin end names no node.
   */
  lemma DropAfterOriginDeleted(nodes: seq<Node>, conns: seq<Connection>, g: Gesture, targetNodeId: string,
                               targetPort: Option<Side>, highlighted: Option<ConnectionPoint>, freshId: string)
    requires !IdPresent(nodes, g.nodeId)
    requires g.nodeId != targetNodeId && !Linked(conns, g.nodeId, targetNodeId)
    ensures !RefsPresent(nodes, AfterDrop(conns, Some(g), targetNodeId, targetPort, highlighted, freshId))
  {
    var c := Committed(g, targetNodeId, targetPort, highlighted, freshId);
    assert c in conns + [c];
  }

  /** The canvas and the store it drives. */
  class FlowchartCanvas {
    const store: FlowchartStore
    var contextMenu: Option<Point>
    var isConnecting: Option<Gesture>
    var tempConnection: Option<Point>
    var highlightedPoint: Option<ConnectionPoint>

    /**
     * Outside a drag there is no preview; a highlighted point is always
     * where the preview ends. Connections, which only drops add, never join
     * a node to itself and join each unordered pair at most once.
     */
    ghost predicate Valid()
      reads this, store
    {
      && store.Valid()
      && NoSelfLoops(store.connections) && UndirectedUnique(store.connections)
      && (isConnecting.None? ==> tempConnection.None? && highlightedPoint.None?)
      && (highlightedPoint.Some? ==> tempConnection == Some(Point(highlightedPoint.value.x, highlightedPoint.value.y)))
    }

    constructor ()
      ensures Valid() && fresh(store)
      ensures store.nodes == [] && store.connections == [] && store.selectedNode == None
      ensures contextMenu.None? && isConnecting.None?
    {
      store := new FlowchartStore();
      contextMenu, isConnecting, tempConnection, highlightedPoint := None, None, None, None;
    }

    /** A right click opens the add-node menu at the pointer. */
    method HandleRightClick(at: Point)
      requires Valid()
      modifies this
      ensures Valid()
      ensures contextMenu == Some(at)
      ensures isConnecting == old(isConnecting) && tempConnection == old(tempConnection)
      ensures highlightedPoint == old(highlightedPoint)
    {
      contextMenu := Some(at);
    }

    /** Choosing a kind in the open menu adds a node centred where the menu was opened. */
    method AddNodeFromMenu(kind: NodeKind, freshId: string)
      requires Valid() && contextMenu.Some?
      modifies this, store
      ensures Valid()
      ensures store.nodes == old(store.nodes) + [NewNode(freshId, kind, old(contextMenu).value.x, old(contextMenu).value.y)]
      ensures store.connections == old(store.connections) && store.selectedNode == old(store.selectedNode)
      ensures contextMenu.None?
      ensures isConnecting == old(isConnecting) && tempConnection == old(tempConnection)
      ensures highlightedPoint == old(highlightedPoint)
    {
      store.AddNode(kind, contextMenu.value.x, contextMenu.value.y, freshId);
      contextMenu := None;
    }

    /**
     * A click on the bare background closes the menu, clears the selection
     * and abandons any drag; a click elsewhere changes nothing.
     */
    method HandleCanvasClick(onBackground: bool)
      requires Valid()
      modifies this, store
      ensures Valid()
      ensures store.nodes == old(store.nodes) && store.connections == old(store.connections)
      ensures onBackground ==> contextMenu.None? && store.selectedNode.None? && isConnecting.None?
      ensures !onBackground ==>
        && store.selectedNode == old(store.selectedNode) && contextMenu == old(contextMenu)
        && isConnecting == old(isConnecting) && tempConnection == old(tempConnection)
        && highlightedPoint == old(highlightedPoint)
    {
      if onBackground {
        contextMenu := None;
        store.SetSelectedNode(None);
        if isConnecting.Some? {
          isConnecting := None;
          tempConnection := None;
          highlightedPoint := None;
        }
      }
    }

    /**
     * While drawing, the preview end snaps to the resolver's point (radius
     * 50) and highlights it, or follows the raw pointer when there is none;
     * outside a drag nothing changes.
     */
    method HandleMouseMove(mouse: Point)
      requires Valid()
      modifies this
      ensures Valid()
      ensures isConnecting == old(isConnecting) && contextMenu == old(contextMenu)
      ensures old(isConnecting).None? ==>
        tempConnection == old(tempConnection) && highlightedPoint == old(highlightedPoint)
      ensures old(isConnecting).Some? ==>
        var g := old(isConnecting).value;
        var r := Nearest(Candidates(store.nodes, g.nodeId, store.connections, g.startType), DistanceFrom(mouse), SnapRadius);
        && highlightedPoint == r
        && tempConnection == Some(if r.Some? then Point(r.value.x, r.value.y) else mouse)
    {
      if isConnecting.Some? {
        var nearest := FindNearestConnectionPoint(
          mouse, store.nodes, isConnecting.value.nodeId, SnapRadius, store.connections, isConnecting.value.startType);
        if nearest.Some? {
          highlightedPoint := nearest;
          tempConnection := Some(Point(nearest.value.x, nearest.value.y));
        } else {
          highlightedPoint := None;
          tempConnection := Some(mouse);
        }
      }
    }

    /**
     * Delete removes the selected node with its connections and clears the
     * selection, whatever the gesture; Escape abandons a drag.
     */
    method HandleKeyDown(key: Key)
      requires Valid()
      modifies this, store
      ensures Valid()
      ensures contextMenu == old(contextMenu)
      ensures var sel := old(store.selectedNode);
        if key == DeleteKey && sel.Some? && sel.value != "" then
          && store.nodes == RemoveNode(old(store.nodes), sel.value)
          && store.connections == DetachConnections(old(store.connections), sel.value)
          && store.selectedNode.None?
        else
          store.nodes == old(store.nodes) && store.connections == old(store.connections) &&
          store.selectedNode == old(store.selectedNode)
      ensures key == EscapeKey ==> isConnecting.None?
      ensures key != EscapeKey ==>
        isConnecting == old(isConnecting) && tempConnection == old(tempConnection) &&
        highlightedPoint == old(highlightedPoint)
    {
      // An empty id counts as no selection: an empty string is falsy in JavaScript.
      if key == DeleteKey && store.selectedNode.Some? && store.selectedNode.value != "" {
        store.DeleteNode(store.selectedNode.value);
        store.SetSelectedNode(None);
      }
      if key == EscapeKey && isConnecting.Some? {
        isConnecting := None;
        tempConnection := None;
        highlightedPoint := None;
      }
    }

    /** Double- or right-clicking a drawn connection deletes it; nothing else changes. */
    method DeleteConnection(connectionId: string)
      requires Valid()
      modifies store
      ensures Valid()
      ensures store.connections == RemoveConnection(old(store.connections), connectionId)
      ensures store.nodes == old(store.nodes) && store.selectedNode == old(store.selectedNode)
      ensures contextMenu == old(contextMenu) && isConnecting == old(isConnecting)
      ensures tempConnection == old(tempConnection) && highlightedPoint == old(highlightedPoint)
    {
      store.DeleteConnection(connectionId);
    }

    /** A press on a dot starts a drag from that node and side. */
    method StartConnection(nodeId: string, position: Point, side: Side)
      requires Valid()
      modifies this
      ensures Valid()
      ensures isConnecting == Some(Gesture(nodeId, position, side, StartRole(store.nodes, nodeId, side)))
      ensures contextMenu == old(contextMenu) && tempConnection == old(tempConnection)
      ensures highlightedPoint == old(highlightedPoint)
    {
      var startType := StartRole(store.nodes, nodeId, side);
      isConnecting := Some(Gesture(nodeId, position, side, startType));
    }

    /**
     * A release on a dot of `targetNodeId` commits the drag when it may, and
     * in every case returns to idle.
     */
    method EndConnection(targetNodeId: string, targetPort: Option<Side>, freshId: string)
      requires Valid()
      modifies this, store
      ensures Valid()
      ensures store.connections == AfterDrop(old(store.connections), old(isConnecting), targetNodeId,
                                             targetPort, old(highlightedPoint), freshId)
      ensures store.nodes == old(store.nodes) && store.selectedNode == old(store.selectedNode)
      ensures isConnecting.None? && tempConnection.None? && highlightedPoint.None?
      ensures contextMenu == old(contextMenu)
    {
      AfterDropKeepsEdgeInvariants(store.connections, isConnecting, targetNodeId, targetPort, highlightedPoint, freshId);
      if isConnecting.Some? && isConnecting.value.nodeId != targetNodeId {
        var connectionExists := Linked(store.connections, isConnecting.value.nodeId, targetNodeId);
        if !connectionExists {
          store.AddConnection(Committed(isConnecting.value, targetNodeId, targetPort, highlightedPoint, freshId));
        }
      }
      isConnecting := None;
      tempConnection := None;
      highlightedPoint := None;
    }
  }
}
