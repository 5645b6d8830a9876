/**
 * The per-node widget: dragging a node with the pointer, deleting it by
 * double-click, and entering label editing.
 */
module NodeView {
  import opened Optional
  import opened Geometry
  import opened Store

  /** Pointer position and node origin recorded when a drag starts. */
  datatype DragStart = DragStart(x: real, y: real, nodeX: real, nodeY: real)

  /**
   * Where a drag puts the node: displaced from its origin at mouse-down by
   * the pointer's displacement since then, except that a coordinate that
   * would go negative stops at zero.
   */
  function DragTarget(ds: DragStart, client: Point): (p: Point)
    ensures p.x >= 0.0 && p.y >= 0.0
    ensures ds.nodeX + (client.x - ds.x) >= 0.0 ==> p.x - ds.nodeX == client.x - ds.x
    ensures ds.nodeX + (client.x - ds.x) < 0.0 ==> p.x == 0.0
    ensures ds.nodeY + (client.y - ds.y) >= 0.0 ==> p.y - ds.nodeY == client.y - ds.y
    ensures ds.nodeY + (client.y - ds.y) < 0.0 ==> p.y == 0.0
  {
    var deltaX := client.x - ds.x;
    var deltaY := client.y - ds.y;
    Point(Max(0.0, ds.nodeX + deltaX), Max(0.0, ds.nodeY + deltaY))
  }

  /** A drag step keeps every node in the non-negative quadrant. */
  lemma DragKeepsNonNegative(nodes: seq<Node>, id: string, ds: DragStart, client: Point)
    requires NonNegative(nodes)
    ensures NonNegative(Reposition(nodes, id, DragTarget(ds, client).x, DragTarget(ds, client).y))
  {
    var p := DragTarget(ds, client);
    var moved := Reposition(nodes, id, p.x, p.y);
    forall n | n in moved
      ensures n.x >= 0.0 && n.y >= 0.0
    {
      var i :| 0 <= i < |moved| && moved[i] == n;
      assert nodes[i] in nodes;
    }
  }

  /** The widget of the node `nodeId`. */
  class NodeWidget {
    const nodeId: string
    const store: FlowchartStore
    var isDragging: bool
    var dragStart: DragStart
    var isEditing: bool

    constructor (nodeId: string, store: FlowchartStore)
      ensures this.nodeId == nodeId && this.store == store
      ensures !isDragging && !isEditing && dragStart == DragStart(0.0, 0.0, 0.0, 0.0)
    {
      this.nodeId := nodeId;
      this.store := store;
      isDragging, isEditing := false, false;
      dragStart := DragStart(0.0, 0.0, 0.0, 0.0);
    }

    /**
     * A press on the node body (not on the label input) selects the node,
     * starts a drag and records the pointer and the node's origin.
     */
    method HandleMouseDown(onInput: bool, client: Point)
      requires store.Valid() && FindNode(store.nodes, nodeId).Some?
      modifies this, store
      ensures store.Valid()
      ensures store.nodes == old(store.nodes) && store.connections == old(store.connections)
      ensures isEditing == old(isEditing)
      ensures onInput ==> isDragging == old(isDragging) && dragStart == old(dragStart) &&
                          store.selectedNode == old(store.selectedNode)
      ensures !onInput ==>
        var n := FindNode(store.nodes, nodeId).value;
        isDragging && dragStart == DragStart(client.x, client.y, n.x, n.y) && store.selectedNode == Some(nodeId)
    {
      if !onInput {
        var node := FindNode(store.nodes, nodeId).value;
        store.SetSelectedNode(Some(nodeId));
        isDragging := true;
        dragStart := DragStart(client.x, client.y, node.x, node.y);
      }
    }

    /** While dragging, the node follows the pointer, clamped; otherwise nothing happens. */
    method HandleMouseMove(client: Point)
      requires store.Valid()
      modifies store
      ensures store.Valid()
      ensures isDragging ==>
        store.nodes == Reposition(old(store.nodes), nodeId, DragTarget(dragStart, client).x, DragTarget(dragStart, client).y)
      ensures !isDragging ==> store.nodes == old(store.nodes)
      ensures NonNegative(old(store.nodes)) ==> NonNegative(store.nodes)
      ensures store.connections == old(store.connections) && store.selectedNode == old(store.selectedNode)
    {
      if isDragging {
        var target := DragTarget(dragStart, client);
        if NonNegative(store.nodes) {
          DragKeepsNonNegative(store.nodes, nodeId, dragStart, client);
        }
        store.UpdateNodePosition(nodeId, target.x, target.y);
      }
    }

    /** Releasing the pointer ends the drag. */
    method HandleMouseUp()
      modifies this
      ensures !isDragging && dragStart == old(dragStart) && isEditing == old(isEditing)
    {
      isDragging := false;
    }

    /** A double-click deletes the node, with its connections, unless its label is being edited. */
    method HandleDoubleClick()
      requires store.Valid()
      modifies store
      ensures store.Valid()
      ensures isEditing ==> store.nodes == old(store.nodes) && store.connections == old(store.connections)
      ensures !isEditing ==>
        store.nodes == RemoveNode(old(store.nodes), nodeId) &&
        store.connections == DetachConnections(old(store.connections), nodeId)
      ensures NoSelfLoops(old(store.connections)) && UndirectedUnique(old(store.connections)) ==>
        NoSelfLoops(store.connections) && UndirectedUnique(store.connections)
      ensures store.selectedNode == old(store.selectedNode)
    {
      if !isEditing {
        store.DeleteNode(nodeId);
      }
    }

    /** A click on the label starts editing it, unless a connection is being drawn. */
    method HandleLabelClick(isConnecting: bool)
      modifies this
      ensures isEditing == (old(isEditing) || !isConnecting)
      ensures isDragging == old(isDragging) && dragStart == old(dragStart)
    {
      if !isConnecting {
        isEditing := true;
      }
    }

    /** Submitting (blur or Enter) leaves label editing. */
    method HandleLabelSubmit()
      modifies this
      ensures !isEditing && isDragging == old(isDragging) && dragStart == old(dragStart)
    {
      isEditing := false;
    }
  }
}
