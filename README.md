# Flowchart editor core, modelled in Dafny

This project models the interaction engine of a small flowchart editor (workflow-base). The editor's nodes are *steps*, *conditions* and *notifications*. Each node is a 144 × 80 box placed on a canvas, with attachment points (ports) on its sides. The user adds nodes from a context menu and drags them around. To connect two nodes, the user drags from one node's port towards another node. While the drag is in progress, the pointer snaps to the nearest compatible port within 50 units. Connections are drawn as orthogonal elbow routes.

The model covers six parts:

- `Geometry` (`geometry.dfy`): nodes and ports. It holds the port table used by the snap resolver and the dot table used when a node draws its own ports. The snap resolver's table marks each port entry or exit. The dot table marks the ports of steps and notifications "dynamic".
- `Store` (`store.dfy`): the entity store that holds the node list, the connection list and the selection. It is a class whose methods overwrite those fields. Each method's new state is given by a pure function, and invariant lemmas are proved about those functions: positions stay non-negative, delete cascades, references stay present, and there are no duplicate directed edges.
- `Snap` (`snap.dfy`): port enumeration and the nearest-port resolver. Both are loops, modelled as methods proved equal to the pure specifications `PointsOf` and `Nearest(Candidates(..))`. What the resolver promises is proved about those specifications: the result lies within the snap radius, it is a minimum, ties go to the first candidate, and it is `None` exactly when no candidate is within the radius.
- `Routing` (`routing.dfy`): two orthogonal routers. The first bends at 0.6 of the dominant axis. The second is the midpoint elbow a committed connection draws, together with its path length.
- `Canvas` (`canvas.dfy`): the connection-drawing state machine (context menu, gesture, temporary endpoint, highlighted port), driven by right click, background click, mouse move, key press, drag start, drop and deletion of a drawn connection.
- `NodeView` (`node_view.dfy`): the per-node drag and edit sub-machine.

`Scenarios` (`scenarios.dfy`) proves two end-to-end consequences:

- A drag from a condition's top snaps only to exits.
- Two steps added at (100, 100) and (400, 100) and connected right to left produce one connection. Its route runs exactly between the two ports.

Modelling choices:

- Coordinates are exact `real`s.
- The snap test `sqrt(d²) < r` becomes `d² < r·r` with `r > 0`. `Geometry.SnapTestMatchesDistance` proves the two agree.
- Identifiers that the application draws from the clock are fresh-id parameters.
- DOM events arrive as already canvas-relative points, plus flags such as "the target is an input element" or "the click hit the background".

The store's duplicate check is directed. The canvas's check before committing a drop is undirected. Both are modelled as written. `Store.ReverseEdgeNotBlocked` shows where they differ. In the editor, connections are only added by drops, and they are removed by the cascading node delete or by deleting a drawn connection. `Canvas.FlowchartCanvas.Valid` carries "no self-loop, at most one connection per unordered pair" through every canvas handler. A drop keeps it (`Canvas.AfterDropKeepsEdgeInvariants`), and so does any removal (`Store.FilterKeepsEdgeInvariants`).

## Model

| member | source | states |
|---|---|---|
| Geometry.PortsOfShape | src/components/ConnectionPoints.tsx:31-45 | The table has 3 ports for a condition and 4 otherwise. Each port belongs to its node and lies within the node's closed 144×80 box, and no side repeats. A port is an exit exactly when it is a condition's left or right side, or a step's or notification's right side. |
| Geometry.PortsFollowNode | src/components/ConnectionPoints.tsx:93-105 | Ports depend only on a node's id, kind and position: moving the node by (dx, dy) moves each port by exactly (dx, dy). |
| Geometry.DotsOf | src/components/FlowchartNode.tsx:82-99 | A node draws its dots at the same places and sides as the resolver's ports. Conditions keep the entry/exit roles of the resolver's table. Steps and notifications mark all four dots dynamic, so the two tables disagree for them. |
| Geometry.Dist2 | src/components/ConnectionPoints.tsx:129-130 | The squared distance to the pointer is never negative. |
| Geometry.SnapTestMatchesDistance | src/components/ConnectionPoints.tsx:129-130 | For a non-negative distance, "distance < snap radius" holds exactly when the squared-distance test does. |
| Geometry.SquaresPreserveOrder | src/components/ConnectionPoints.tsx:130 | Comparing non-negative distances is the same as comparing their squares, so minimising squared distances minimises distances. |
| Store.FindNode | src/components/Connection.tsx:24-25 | A lookup fails exactly when no node has the id. Otherwise it yields the first node with that id. |
| Store.NewNode | src/hooks/useFlowchartState.ts:11-21 | A new node has the given id and kind and an empty label. It is centred on the click (shifted by half the width and half the height), clamped at 0, so both coordinates are non-negative. |
| Store.Reposition | src/hooks/useFlowchartState.ts:30-34 | Moving keeps the length and every node's id, kind and label. Nodes with the id get exactly (x, y), without clamping, and the other nodes are unchanged. |
| Store.WithConnection | src/hooks/useFlowchartState.ts:36-46 | After adding, a connection with that source and target exists. The list is either unchanged or the old list with the new connection appended, and it is unchanged whenever a connection with that source and target already exists. |
| Store.AddNodeKeepsInvariants | src/hooks/useFlowchartState.ts:16-20 | Appending a new node keeps all positions non-negative and keeps every connection's ends present. |
| Store.DeleteNodeRemovesExactly | src/hooks/useFlowchartState.ts:23-28 | Deleting a node keeps exactly the nodes with a different id, and exactly the connections that neither start nor end at it. |
| Seqs.FilterAppend | src/hooks/useFlowchartState.ts:24-27 | Filtering distributes over concatenation, so survivors of a delete keep their relative order. |
| Store.DeleteNodeKeepsRefs | src/hooks/useFlowchartState.ts:24-27 | If every connection's ends name present nodes, that still holds after the cascading delete. |
| Store.RepositionKeepsRefs | src/hooks/useFlowchartState.ts:30-34 | Moving a node never breaks a connection's reference to it. |
| Store.EdgeCountPositive | src/hooks/useFlowchartState.ts:39-41 | A source/target pair occurs in the list at least once exactly when the duplicate check finds it. |
| Store.AddConnectionTwice | src/hooks/useFlowchartState.ts:36-46 | Adding a second connection with the same source and target is a no-op. A pair that was absent occurs exactly once after the first add. |
| Store.WithConnectionKeepsDirectedUnique | src/hooks/useFlowchartState.ts:36-46 | If no directed pair repeats, adding a connection keeps it that way. |
| Store.ReverseEdgeNotBlocked | src/hooks/useFlowchartState.ts:39-41 | The store's check is directed: with (b, a) present and (a, b) absent, adding (a, b) appends it, and the list then joins a and b twice. |
| Store.FilterKeepsDirectedUnique | src/hooks/useFlowchartState.ts:24-27 | Removing connections never creates a repeated directed pair. |
| Store.FilterKeepsEdgeInvariants | src/hooks/useFlowchartState.ts:24-27 | Removing connections never creates a self-loop or a second connection between the same unordered pair. |
| Store.DeleteConnectionRemovesExactly | src/hooks/useFlowchartState.ts:48-50 | Deleting a connection keeps exactly the connections with another id and never breaks a connection's references to nodes. |
| Store.FlowchartStore.constructor | src/hooks/useFlowchartState.ts:7-9 | The store starts with no nodes, no connections and no selection. |
| Store.FlowchartStore.AddNode | src/hooks/useFlowchartState.ts:11-21 | Appends exactly the new centred, clamped node and changes nothing else. |
| Store.FlowchartStore.DeleteNode | src/hooks/useFlowchartState.ts:23-28 | Removes the node's entries and every connection touching it. It keeps directed uniqueness, and keeps "no self-loop, one connection per unordered pair" when it held before. |
| Store.FlowchartStore.UpdateNodePosition | src/hooks/useFlowchartState.ts:30-34 | Nodes become the repositioned list. Connections and selection are unchanged. |
| Store.FlowchartStore.AddConnection | src/hooks/useFlowchartState.ts:36-46 | Connections become the list after the directed duplicate check. Directed uniqueness is kept. |
| Store.FlowchartStore.DeleteConnection | src/hooks/useFlowchartState.ts:48-50 | Removes the connections with the id and leaves nodes and selection alone. It keeps "no self-loop, one connection per unordered pair" when it held before. |
| Store.FlowchartStore.SetSelectedNode | src/hooks/useFlowchartState.ts:9 | Replaces the selection only. |
| Snap.PointsOfCount | src/components/ConnectionPoints.tsx:27-50 | Enumeration yields 3 points per condition and 4 per other node. |
| Snap.PointsOfGrouped | src/components/ConnectionPoints.tsx:28-49 | The points come grouped in node order. A point is enumerated exactly when it is a port of a listed node, and its nodeId names its owner. |
| Snap.GetAllConnectionPoints | src/components/ConnectionPoints.tsx:27-50 | The loop returns exactly the node-by-node concatenation of the port table. |
| Snap.NearestNoneIff | src/components/ConnectionPoints.tsx:117-136 | The arg-min search yields nothing exactly when no candidate is strictly inside the snap radius. |
| Snap.NearestIsFirstMinimum | src/components/ConnectionPoints.tsx:117-134 | A found point is the first candidate that is within the radius and whose distance no other in-radius candidate beats. Ties go to the first one, because the comparison is strict. |
| Snap.CandidateMembership | src/components/ConnectionPoints.tsx:91-127 | A point is a candidate exactly when it is a port of a node other than the origin, has the role opposite to the drag's, and its node is not joined to the origin in either direction. |
| Snap.ResolverAnswer | src/components/ConnectionPoints.tsx:80-137 | There is no answer exactly when no candidate is within the radius. Otherwise the answer is not on the origin, has the opposite role, belongs to a node unconnected to the origin, is strictly within the radius and is no farther than any candidate. |
| Snap.FindNearestConnectionPoint | src/components/ConnectionPoints.tsx:80-137 | The enumeration, filter and minimising loops compute exactly the specified nearest candidate. |
| Routing.PathLengthOfFour | src/components/Connection.tsx:40 | The length of a four-point route is the sum of its three segment lengths. |
| Routing.OptimalPath | src/components/ConnectionPath.tsx:24-59 | The route has four points, starts at the start and ends at the end, and each segment is axis-parallel. When \|dx\| > \|dy\| it bends at start.x + 0.6·dx. Otherwise, ties included, it bends at start.y + 0.6·dy. |
| Routing.OptimalPathBendBetween | src/components/ConnectionPath.tsx:37-44 | The bend coordinate lies between start and end on the dominant axis. |
| Routing.OptimalPathLength | src/components/ConnectionPath.tsx:35-49 | The route's Manhattan length is \|dx\| + \|dy\|, so it makes no detour. |
| Routing.ElbowOf | src/components/Connection.tsx:24-27 | A connection draws nothing exactly when its source or its target node is missing. |
| Routing.ElbowShape | src/components/Connection.tsx:30-40 | The route starts at the source's right-middle, bends twice at the midpoint of the x-range, and ends at the target's left-middle. Its segments alternate, and pathLength equals \|Δx\| + \|Δy\|, which is also the route's length. |
| Routing.ElbowIgnoresPorts | src/components/Connection.tsx:30-33 | The route ignores ports. From a step or notification it starts at the right port. From a condition it starts at no port at all. Into a step or notification it ends at the left port. Into a condition it ends at no port at all. |
| Canvas.StartRole | src/components/FlowchartCanvas.tsx:118-136 | A drag has the entry role exactly when its origin is a condition found in the store and the side is the top. Every other case, an unknown node included, has the exit role. |
| Canvas.StartRoleAgainstPortTable | src/components/FlowchartCanvas.tsx:125-131 | For a condition, the drag's role is the port table's role of the side it started from. For other nodes it is always exit. |
| Canvas.Committed | src/components/FlowchartCanvas.tsx:147-157 | The committed connection joins origin and target. An exit-role drag makes the origin the source and an entry-role drag swaps the two. The source port is the start side. The target port is the explicit one, otherwise the highlighted point's side. |
| Canvas.EntryDragSourcePortOnTarget | src/components/FlowchartCanvas.tsx:148-155 | After an entry-role drag the origin becomes the target, yet the source port is still the side the drag started from, which is a side of the target node. |
| Canvas.AfterDropOutcome | src/components/FlowchartCanvas.tsx:138-157 | A drop adds nothing when no gesture is active, the target is the origin, or the two are already joined in either direction. Otherwise it appends exactly the committed connection. |
| Canvas.AfterDropKeepsEdgeInvariants | src/components/FlowchartCanvas.tsx:139-146 | Drops never create a self-loop or a second connection between the same unordered pair. |
| Canvas.AfterDropKeepsRefs | src/components/FlowchartCanvas.tsx:138-157 | A drop keeps every connection's ends present, as long as the origin and the target are present. |
| Canvas.DropAfterOriginDeleted | src/components/FlowchartCanvas.tsx:85-95 | Delete does not cancel a gesture. If the origin was deleted meanwhile, a drop that commits leaves a connection with an end that names no node. |
| Canvas.FlowchartCanvas.constructor | src/components/FlowchartCanvas.tsx:23-31 | The canvas starts with an empty store, no menu, no gesture, no temporary endpoint and no highlight. |
| Canvas.FlowchartCanvas.HandleRightClick | src/components/FlowchartCanvas.tsx:34-43 | Opens the context menu at the click and leaves the gesture alone. |
| Canvas.FlowchartCanvas.AddNodeFromMenu | src/components/FlowchartCanvas.tsx:240-247 | Appends the node built at the menu's position and closes the menu. |
| Canvas.FlowchartCanvas.HandleCanvasClick | src/components/FlowchartCanvas.tsx:45-56 | A background click closes the menu, clears the selection and abandons any gesture. A click elsewhere changes nothing. |
| Canvas.FlowchartCanvas.HandleMouseMove | src/components/FlowchartCanvas.tsx:58-83 | While connecting, the highlight becomes the resolver's answer with radius 50. The temporary endpoint becomes the snapped port if there is one, otherwise the cursor. While idle nothing changes. |
| Canvas.FlowchartCanvas.HandleKeyDown | src/components/FlowchartCanvas.tsx:85-95 | Delete with a non-empty selection deletes that node with its connections and clears the selection, whatever the gesture. Escape clears the gesture. The canvas invariant, which includes no self-loop and one connection per unordered pair, is kept. |
| Canvas.FlowchartCanvas.DeleteConnection | src/components/FlowchartCanvas.tsx:194 | Deleting a drawn connection removes exactly the connections with that id and leaves nodes, selection, menu, gesture, preview and highlight unchanged. The canvas invariant, which includes no self-loop and one connection per unordered pair, is kept. |
| Canvas.FlowchartCanvas.StartConnection | src/components/FlowchartCanvas.tsx:118-136 | Records the gesture's origin, position, side and role. |
| Canvas.FlowchartCanvas.EndConnection | src/components/FlowchartCanvas.tsx:138-163 | Connections become the drop outcome, and the machine is idle afterwards: no gesture, no temporary endpoint, no highlight. The canvas invariant, which includes no self-loop and one connection per unordered pair, is kept. |
| NodeView.DragTarget | src/components/FlowchartNode.tsx:119-129 | The dragged position follows the pointer's movement since mouse-down on each axis, unless that would go below 0, where it clamps at 0. It is never negative. |
| NodeView.DragKeepsNonNegative | src/components/FlowchartNode.tsx:122-128 | A drag step keeps every node position non-negative. |
| NodeView.NodeWidget.constructor | src/components/FlowchartNode.tsx:73-76 | A widget starts neither dragging nor editing. |
| NodeView.NodeWidget.HandleMouseDown | src/components/FlowchartNode.tsx:103-117 | A press on an input element is ignored. Otherwise the press selects the node, starts dragging and records the pointer and the node's position. |
| NodeView.NodeWidget.HandleMouseMove | src/components/FlowchartNode.tsx:119-129 | While dragging, the node moves to the clamped drag target. While not dragging nothing changes. Non-negative positions stay non-negative. |
| NodeView.NodeWidget.HandleMouseUp | src/components/FlowchartNode.tsx:131-133 | Ends the drag. |
| NodeView.NodeWidget.HandleDoubleClick | src/components/FlowchartNode.tsx:146-151 | Deletes the node with its connections unless its label is being edited, keeping "no self-loop, one connection per unordered pair" when it held before. |
| NodeView.NodeWidget.HandleLabelClick | src/components/FlowchartNode.tsx:153-158 | Enters editing only when no connection is being drawn. |
| NodeView.NodeWidget.HandleLabelSubmit | src/components/FlowchartNode.tsx:160-162 | Leaves editing. |
| Scenarios.ConditionTopSnapsOnlyToExits | src/components/FlowchartCanvas.tsx:125-131 | A drag from a condition's top has the entry role, so every candidate is an exit on another node. |
| Scenarios.TwoStepsConnectedRightToLeft | src/components/FlowchartCanvas.tsx:138-163 | Two steps added at (100, 100) and (400, 100) have a right port and a left port. A drag from the first's right port, released on the second's left port, snaps to that port and commits exactly one right-to-left connection, whose elbow route runs from the one port to the other. |

## Left out

- Rendering is not modelled: JSX, CSS classes, tooltips, SVG animation, the context menu component, the page component and the dot component.
- SVG path strings are not modelled. Routes are lists of points.
- DOM plumbing is not modelled: adding and removing document listeners, `getBoundingClientRect` conversion, `preventDefault`/`stopPropagation` and the `userSelect` body style. Handlers take canvas-relative points and booleans for "the press hit an input element" and "the click hit the background".
- IEEE floating point and `Math.sqrt` are not modelled. Arithmetic is exact over reals, and distances are compared squared.
- Clock-based identifiers are caller-supplied fresh ids. Their uniqueness is not modelled.
- The port's string id (`nodeId-side`) is not modelled. It is determined by the node id and the side, which the model keeps.
- The label text being edited and its submission into the store are not modelled, because the store has no rename operation. Only the editing flag is.
- The wiring that turns a port's mouse-down or mouse-up into a drag start or a drop is not modelled. The canvas's `StartConnection` and `EndConnection` take those arguments directly.
- Canvas.FlowchartCanvas.EndConnection, Scenarios.TwoStepsConnectedRightToLeft and Canvas.DropAfterOriginDeleted describe the drop handler, not what the page can deliver. While a connection is being drawn, the node card is styled `pointer-events-none` (src/components/FlowchartNode.tsx:194, 294) and its dots inherit that, so a dot's mouse-up may never reach the handler. Likewise the connection layer is styled `pointer-events-none` (src/components/FlowchartCanvas.tsx:188), so Canvas.FlowchartCanvas.DeleteConnection may be unreachable by clicks. The model does not capture which events the page delivers.
- The resolver's default radius of 60 is not modelled. The radius is a parameter, and the canvas passes 50.
- The resolver's `excludeNodeId` is a string rather than an optional string; the canvas always passes one.
- Connections also record `sourcePort` and `targetPort`, as the canvas writes them, although the declared connection type lists only id, source and target. The routers never read them.
- Obstacle avoidance is not modelled because the code has none. The dominant-axis router (`ConnectionPath`) accepts `nodes` and existing connections and never reads them. The elbow router reads `nodes` only to find its two endpoints. The model follows the code.
- NodeView.NodeWidget.HandleMouseDown: requires the widget's node to be present in the store. A widget is only rendered for a node in the store's list. It records the position of the first node with the widget's id, where the source records its own node's position; the two differ only when ids repeat, which the model does not exclude.
- Store.FlowchartStore.Valid keeps only directed uniqueness. Referential integrity of connections is proved about the operations (Store.DeleteNodeKeepsRefs, Canvas.AfterDropKeepsRefs) rather than kept as a class invariant, because a drop after the origin's deletion breaks it (Canvas.DropAfterOriginDeleted).
