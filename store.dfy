/**
 * The entity store: the node and connection lists and the selected node, and
 * the five commands that replace them (add, delete and move a node, add and
 * delete a connection).
 */
module Store {
  import opened Optional
  import opened Seqs
  import opened Geometry

  /**
   * A connection between two nodes. Connections committed by the canvas also
   * record the side each end was drawn from; the store never looks at them.
   */
  datatype Connection = Connection(
    id: string,
    sourceId: string,
    targetId: string,
    sourcePort: Option<Side>,
    targetPort: Option<Side>)

  function Max(a: real, b: real): real
  {
    if a >= b then a else b
  }

  /** The first node carrying `id`, as `nodes.find` returns it. */
  function FindNode(nodes: seq<Node>, id: string): (r: Option<Node>)
    ensures r.None? <==> forall i :: 0 <= i < |nodes| ==> nodes[i].id != id
    ensures r.Some? ==> exists k :: 0 <= k < |nodes| && nodes[k] == r.value && r.value.id == id &&
                                    (forall j :: 0 <= j < k ==> nodes[j].id != id)
  {
    if nodes == [] then None
    else if nodes[0].id == id then Some(nodes[0])
    else
      var r := FindNode(nodes[1..], id);
      assert r.Some? ==> exists k :: 0 <= k < |nodes[1..]| && nodes[1..][k] == r.value && r.value.id == id &&
                                       (forall j :: 0 <= j < k ==> nodes[1..][j].id != id);
      assert r.Some? ==> exists k :: 1 <= k < |nodes| && nodes[k] == r.value && r.value.id == id &&
                                       (forall j :: 0 <= j < k ==> nodes[j].id != id);
      r
  }

  /** True when some node carries `id`. */
  predicate IdPresent(nodes: seq<Node>, id: string)
  {
    exists n :: n in nodes && n.id == id
  }

  /**
   * The node the add command creates: an empty label, centred on the click
   * point where the footprint fits, pushed back to the canvas edge otherwise.
   */
  function NewNode(id: string, kind: NodeKind, x: real, y: real): (n: Node)
    ensures n.id == id && n.kind == kind && n.text == ""
    ensures n.x >= 0.0 && n.y >= 0.0
    ensures x >= NodeWidth / 2.0 ==> n.x + NodeWidth / 2.0 == x
    ensures x < NodeWidth / 2.0 ==> n.x == 0.0
    ensures y >= NodeHeight / 2.0 ==> n.y + NodeHeight / 2.0 == y
    ensures y < NodeHeight / 2.0 ==> n.y == 0.0
  {
    Node(id, kind, "", Max(0.0, x - 72.0), Max(0.0, y - 40.0))
  }

  /** The nodes that survive deleting `id`. */
  function RemoveNode(nodes: seq<Node>, id: string): seq<Node>
  {
    Filter(nodes, (n: Node) => n.id != id)
  }

  /** The connections that survive deleting node `id`: those touching it go too. */
  function DetachConnections(conns: seq<Connection>, id: string): seq<Connection>
  {
    Filter(conns, (c: Connection) => c.sourceId != id && c.targetId != id)
  }

  /** The node list after moving every node carrying `id` to (x, y), without clamping. */
  function Reposition(nodes: seq<Node>, id: string, x: real, y: real): (r: seq<Node>)
    ensures |r| == |nodes|
    ensures forall i :: 0 <= i < |r| ==>
      r[i].id == nodes[i].id && r[i].kind == nodes[i].kind && r[i].text == nodes[i].text
    ensures forall i :: 0 <= i < |r| ==>
      if nodes[i].id == id then r[i].x == x && r[i].y == y else r[i] == nodes[i]
  {
    seq(|nodes|, i requires 0 <= i < |nodes| => if nodes[i].id == id then nodes[i].(x := x, y := y) else nodes[i])
  }

  /** A connection from `a` to `b` exists (the store's directed test). */
  predicate HasEdge(conns: seq<Connection>, a: string, b: string)
  {
    exists i :: 0 <= i < |conns| && conns[i].sourceId == a && conns[i].targetId == b
  }

  /** A connection joins `a` and `b` in either direction. */
  predicate Linked(conns: seq<Connection>, a: string, b: string)
  {
    HasEdge(conns, a, b) || HasEdge(conns, b, a)
  }

  /** The connection list after the add command: unchanged when the directed pair exists. */
  function WithConnection(conns: seq<Connection>, c: Connection): (r: seq<Connection>)
    ensures HasEdge(r, c.sourceId, c.targetId)
    ensures r == conns || r == conns + [c]
    ensures HasEdge(conns, c.sourceId, c.targetId) ==> r == conns
  {
    if HasEdge(conns, c.sourceId, c.targetId) then conns
    else
      assert (conns + [c])[|conns|] == c;
      conns + [c]
  }

  /** The connections that survive deleting connection `id`. */
  function RemoveConnection(conns: seq<Connection>, id: string): seq<Connection>
  {
    Filter(conns, (c: Connection) => c.id != id)
  }

  /** Number of connections from `a` to `b`. */
  function EdgeCount(conns: seq<Connection>, a: string, b: string): nat
  {
    |Filter(conns, (c: Connection) => c.sourceId == a && c.targetId == b)|
  }

  /** Every connection names present nodes at both ends. */
  predicate RefsPresent(nodes: seq<Node>, conns: seq<Connection>)
  {
    forall c :: c in conns ==> IdPresent(nodes, c.sourceId) && IdPresent(nodes, c.targetId)
  }

  /** No two connections share the same (source, target) pair. */
  predicate DirectedUnique(conns: seq<Connection>)
  {
    forall i, j :: 0 <= i < j < |conns| ==>
      !(conns[i].sourceId == conns[j].sourceId && conns[i].targetId == conns[j].targetId)
  }

  /** No two connections join the same unordered pair of nodes. */
  predicate UndirectedUnique(conns: seq<Connection>)
  {
    forall i, j :: 0 <= i < j < |conns| ==>
      !(conns[i].sourceId == conns[j].sourceId && conns[i].targetId == conns[j].targetId) &&
      !(conns[i].sourceId == conns[j].targetId && conns[i].targetId == conns[j].sourceId)
  }

  /** No connection joins a node to itself. */
  predicate NoSelfLoops(conns: seq<Connection>)
  {
    forall c :: c in conns ==> c.sourceId != c.targetId
  }

  /** Every node lies in the non-negative quadrant. */
  predicate NonNegative(nodes: seq<Node>)
  {
    forall n :: n in nodes ==> n.x >= 0.0 && n.y >= 0.0
  }

  /** Adding a node keeps every node in the non-negative quadrant and every reference resolvable. */
  lemma AddNodeKeepsInvariants(nodes: seq<Node>, conns: seq<Connection>, id: string, kind: NodeKind, x: real, y: real)
    ensures NonNegative(nodes) ==> NonNegative(nodes + [NewNode(id, kind, x, y)])
    ensures RefsPresent(nodes, conns) ==> RefsPresent(nodes + [NewNode(id, kind, x, y)], conns)
  {
    var added := nodes + [NewNode(id, kind, x, y)];
    if RefsPresent(nodes, conns) {
      forall c | c in conns
        ensures IdPresent(added, c.sourceId) && IdPresent(added, c.targetId)
      {
        var s :| s in nodes && s.id == c.sourceId;
        var t :| t in nodes && t.id == c.targetId;
        assert s in added && t in added;
      }
    }
  }

  /**
   * Deleting a node removes exactly the nodes carrying its id and exactly the
   * connections that start or end at it.
   */
  lemma DeleteNodeRemovesExactly(nodes: seq<Node>, conns: seq<Connection>, id: string)
    ensures forall n :: n in RemoveNode(nodes, id) <==> n in nodes && n.id != id
    ensures forall c :: c in DetachConnections(conns, id) <==>
      c in conns && c.sourceId != id && c.targetId != id
  {
    forall n {
      FilterMembership(nodes, (n: Node) => n.id != id, n);
    }
    forall c {
      FilterMembership(conns, (c: Connection) => c.sourceId != id && c.targetId != id, c);
    }
  }

  /** The cascade leaves no dangling connection behind. */
  lemma DeleteNodeKeepsRefs(nodes: seq<Node>, conns: seq<Connection>, id: string)
    requires RefsPresent(nodes, conns)
    ensures RefsPresent(RemoveNode(nodes, id), DetachConnections(conns, id))
  {
    DeleteNodeRemovesExactly(nodes, conns, id);
    var left := RemoveNode(nodes, id);
    forall c | c in DetachConnections(conns, id)
      ensures IdPresent(left, c.sourceId) && IdPresent(left, c.targetId)
    {
      var s :| s in nodes && s.id == c.sourceId;
      var t :| t in nodes && t.id == c.targetId;
      assert s in left && t in left;
    }
  }

  /** Moving a node keeps ids, so references stay resolvable. */
  lemma RepositionKeepsRefs(nodes: seq<Node>, conns: seq<Connection>, id: string, x: real, y: real)
    requires RefsPresent(nodes, conns)
    ensures RefsPresent(Reposition(nodes, id, x, y), conns)
  {
    var moved := Reposition(nodes, id, x, y);
    forall c | c in conns
      ensures IdPresent(moved, c.sourceId) && IdPresent(moved, c.targetId)
    {
      var s :| s in nodes && s.id == c.sourceId;
      var t :| t in nodes && t.id == c.targetId;
      var i :| 0 <= i < |nodes| && nodes[i] == s;
      var j :| 0 <= j < |nodes| && nodes[j] == t;
      assert moved[i] in moved && moved[j] in moved;
    }
  }

  /** A connection counted by `EdgeCount` exists exactly when `HasEdge` says so. */
  lemma EdgeCountPositive(conns: seq<Connection>, a: string, b: string)
    ensures EdgeCount(conns, a, b) > 0 <==> HasEdge(conns, a, b)
  {
    var same := (c: Connection) => c.sourceId == a && c.targetId == b;
    var kept := Filter(conns, same);
    if HasEdge(conns, a, b) {
      var i :| 0 <= i < |conns| && conns[i].sourceId == a && conns[i].targetId == b;
      FilterMembership(conns, same, conns[i]);
    } else if |kept| > 0 {
      FilterMembership(conns, same, kept[0]);
    }
  }

  /**
   * Adding the same directed pair twice leaves exactly one connection for it
   * when there was none, and changes nothing when there was one.
   */
  lemma AddConnectionTwice(conns: seq<Connection>, c: Connection, d: Connection)
    requires d.sourceId == c.sourceId && d.targetId == c.targetId
    ensures WithConnection(WithConnection(conns, c), d) == WithConnection(conns, c)
    ensures !HasEdge(conns, c.sourceId, c.targetId) ==>
      EdgeCount(WithConnection(WithConnection(conns, c), d), c.sourceId, c.targetId) == 1
  {
    var a, b := c.sourceId, c.targetId;
    if !HasEdge(conns, a, b) {
      EdgeCountPositive(conns, a, b);
      var same := (e: Connection) => e.sourceId == a && e.targetId == b;
      FilterAppend(conns, [c], same);
      assert Filter([c], same) == [c] by {
        assert [c][..0] == [];
      }
    }
  }

  /** The add command keeps the directed pairs unique. */
  lemma WithConnectionKeepsDirectedUnique(conns: seq<Connection>, c: Connection)
    requires DirectedUnique(conns)
    ensures DirectedUnique(WithConnection(conns, c))
  {
  }

  /**
   * The store's duplicate test is directed: an existing (b, a) does not stop
   * (a, b) from being appended, after which the unordered pair is joined twice.
   */
  lemma ReverseEdgeNotBlocked(conns: seq<Connection>, c: Connection)
    requires HasEdge(conns, c.targetId, c.sourceId)
    requires !HasEdge(conns, c.sourceId, c.targetId)
    ensures WithConnection(conns, c) == conns + [c]
    ensures !UndirectedUnique(WithConnection(conns, c))
  {
    var i :| 0 <= i < |conns| && conns[i].sourceId == c.targetId && conns[i].targetId == c.sourceId;
    var r := conns + [c];
    assert r[i] == conns[i] && r[|conns|] == c;
  }

  /** Dropping connections never creates a duplicate directed pair. */
  lemma {:induction false} FilterKeepsDirectedUnique(conns: seq<Connection>, keep: Connection -> bool)
    requires DirectedUnique(conns)
    ensures DirectedUnique(Filter(conns, keep))
  {
    if conns != [] {
      var init, last := conns[..|conns| - 1], conns[|conns| - 1];
      FilterKeepsDirectedUnique(init, keep);
      var front := Filter(init, keep);
      if keep(last) {
        forall i | 0 <= i < |front|
          ensures !(front[i].sourceId == last.sourceId && front[i].targetId == last.targetId)
        {
          FilterMembership(init, keep, front[i]);
          var k :| 0 <= k < |init| && init[k] == front[i];
          assert conns[k] == init[k];
        }
      }
    }
  }

  /**
   * Dropping connections never creates a self-loop or a second connection
   * between the same unordered pair of nodes.
   */
  lemma {:induction false} FilterKeepsEdgeInvariants(conns: seq<Connection>, keep: Connection -> bool)
    requires NoSelfLoops(conns) && UndirectedUnique(conns)
    ensures NoSelfLoops(Filter(conns, keep)) && UndirectedUnique(Filter(conns, keep))
  {
    if conns != [] {
      var init, last := conns[..|conns| - 1], conns[|conns| - 1];
      assert NoSelfLoops(init) by {
        forall c | c in init ensures c.sourceId != c.targetId {
          var k :| 0 <= k < |init| && init[k] == c;
          assert conns[k] == c;
        }
      }
      FilterKeepsEdgeInvariants(init, keep);
      var front := Filter(init, keep);
      forall c | c in Filter(conns, keep) ensures c.sourceId != c.targetId {
        FilterMembership(conns, keep, c);
      }
      if keep(last) {
        forall i | 0 <= i < |front|
          ensures !(front[i].sourceId == last.sourceId && front[i].targetId == last.targetId)
          ensures !(front[i].sourceId == last.targetId && front[i].targetId == last.sourceId)
        {
          FilterMembership(init, keep, front[i]);
          var k :| 0 <= k < |init| && init[k] == front[i];
          assert conns[k] == init[k];
        }
      }
    }
  }

  /** Deleting a connection removes exactly the connections carrying its id. */
  lemma DeleteConnectionRemovesExactly(nodes: seq<Node>, conns: seq<Connection>, id: string)
    ensures forall c :: c in RemoveConnection(conns, id) <==> c in conns && c.id != id
    ensures RefsPresent(nodes, conns) ==> RefsPresent(nodes, RemoveConnection(conns, id))
  {
    forall c {
      FilterMembership(conns, (c: Connection) => c.id != id, c);
    }
  }

  /**
   * The store. Each command replaces the lists it touches by a new value
   * built from the old one; the only invariant it keeps on its own is that
   * directed pairs are unique.
   */
  class FlowchartStore {
    var nodes: seq<Node>
    var connections: seq<Connection>
    var selectedNode: Option<string>

    ghost predicate Valid()
      reads this
    {
      DirectedUnique(connections)
    }

    constructor ()
      ensures Valid()
      ensures nodes == [] && connections == [] && selectedNode == None
    {
      nodes, connections, selectedNode := [], [], None;
    }

    /** Appends a fresh node centred on (x, y) and clamped to the canvas. */
    method AddNode(kind: NodeKind, x: real, y: real, freshId: string)
      requires Valid()
      modifies this
      ensures Valid()
      ensures nodes == old(nodes) + [NewNode(freshId, kind, x, y)]
      ensures connections == old(connections) && selectedNode == old(selectedNode)
    {
      nodes := nodes + [NewNode(freshId, kind, x, y)];
    }

    /** Removes the node and, in the same step, every connection touching it. */
    method DeleteNode(nodeId: string)
      requires Valid()
      modifies this
      ensures Valid()
      ensures nodes == RemoveNode(old(nodes), nodeId)
      ensures connections == DetachConnections(old(connections), nodeId)
      ensures NoSelfLoops(old(connections)) && UndirectedUnique(old(connections)) ==>
        NoSelfLoops(connections) && UndirectedUnique(connections)
      ensures selectedNode == old(selectedNode)
    {
      nodes := RemoveNode(nodes, nodeId);
      FilterKeepsDirectedUnique(connections, (c: Connection) => c.sourceId != nodeId && c.targetId != nodeId);
      if NoSelfLoops(connections) && UndirectedUnique(connections) {
        FilterKeepsEdgeInvariants(connections, (c: Connection) => c.sourceId != nodeId && c.targetId != nodeId);
      }
      connections := DetachConnections(connections, nodeId);
    }

    /** Moves every node carrying `nodeId` to (x, y); the store does not clamp. */
    method UpdateNodePosition(nodeId: string, x: real, y: real)
      requires Valid()
      modifies this
      ensures Valid()
      ensures nodes == Reposition(old(nodes), nodeId, x, y)
      ensures connections == old(connections) && selectedNode == old(selectedNode)
    {
      nodes := Reposition(nodes, nodeId, x, y);
    }

    /** Appends the connection unless one with the same source and target exists. */
    method AddConnection(c: Connection)
      requires Valid()
      modifies this
      ensures Valid()
      ensures connections == WithConnection(old(connections), c)
      ensures nodes == old(nodes) && selectedNode == old(selectedNode)
    {
      WithConnectionKeepsDirectedUnique(connections, c);
      connections := WithConnection(connections, c);
    }

    /** Removes every connection carrying `connectionId`; nodes are untouched. */
    method DeleteConnection(connectionId: string)
      requires Valid()
      modifies this
      ensures Valid()
      ensures connections == RemoveConnection(old(connections), connectionId)
      ensures NoSelfLoops(old(connections)) && UndirectedUnique(old(connections)) ==>
        NoSelfLoops(connections) && UndirectedUnique(connections)
      ensures nodes == old(nodes) && selectedNode == old(selectedNode)
    {
      FilterKeepsDirectedUnique(connections, (c: Connection) => c.id != connectionId);
      if NoSelfLoops(connections) && UndirectedUnique(connections) {
        FilterKeepsEdgeInvariants(connections, (c: Connection) => c.id != connectionId);
      }
      connections := RemoveConnection(connections, connectionId);
    }

    method SetSelectedNode(selection: Option<string>)
      requires Valid()
      modifies this
      ensures Valid()
      ensures selectedNode == selection
      ensures nodes == old(nodes) && connections == old(connections)
    {
      selectedNode := selection;
    }
  }
}
