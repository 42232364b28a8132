/** The per-workflow rewrites the store applies to the active workflow:
    seeding a node from its catalogue entry, appending nodes and edges,
    cascade deletion, edge splitting with the rightward shift, branch-aware
    placement, and clipboard copies. Also the graph invariants (every edge
    joins two existing nodes; node ids are unique) and what each rewrite
    does to them. */
module Graph {
  import opened Seqs
  import opened Types

  /** Horizontal gap between a node and the one placed after it. */
  const NodeSpacingX: real := 250.0
  /** Vertical offset of a branch from its If/Else node. */
  const NodeSpacingY: real := 150.0
  /** Offset of a duplicated or pasted node from its original. */
  const CopyOffset: real := 50.0
  /** Two spots closer than this on both axes count as overlapping. */
  const OverlapDistance: real := 50.0

  // ---- Graph invariants ----

  predicate HasNode(w: Workflow, id: string)
  {
    exists i :: 0 <= i < |w.nodes| && w.nodes[i].id == id
  }

  /** Every edge starts and ends at a node of the workflow. */
  predicate EdgesClosed(w: Workflow)
  {
    forall i :: 0 <= i < |w.edges| ==> HasNode(w, w.edges[i].source) && HasNode(w, w.edges[i].target)
  }

  predicate UniqueNodeIds(nodes: seq<WorkflowNode>)
  {
    forall i, j :: 0 <= i < j < |nodes| ==> nodes[i].id != nodes[j].id
  }

  predicate Touches(e: WorkflowEdge, nodeId: string)
  {
    e.source == nodeId || e.target == nodeId
  }

  // ---- Seeding a node from its catalogue entry ----

  /** The `reduce` that turns a parameter list into a record, later
      parameters overwriting earlier ones with the same id. */
  function DefaultParameters(ps: seq<NodeParameter>): map<string, ParamValue>
  {
    if ps == [] then map[] else DefaultParameters(ps[..|ps| - 1])[ps[|ps| - 1].id := ps[|ps| - 1].value]
  }

  /** The record's keys are exactly the parameter ids. */
  lemma {:induction false} DefaultParametersKeys(ps: seq<NodeParameter>, k: string)
    ensures k in DefaultParameters(ps) <==> exists i :: 0 <= i < |ps| && ps[i].id == k
  {
    if ps != [] {
      var init := ps[..|ps| - 1];
      DefaultParametersKeys(init, k);
      if exists i :: 0 <= i < |init| && init[i].id == k {
        var i :| 0 <= i < |init| && init[i].id == k;
        assert ps[i].id == k;
      }
      if exists i :: 0 <= i < |ps| && ps[i].id == k {
        var i :| 0 <= i < |ps| && ps[i].id == k;
        if i < |init| { assert init[i].id == k; }
      }
    }
  }

  /** Each id maps to the default value of the last parameter carrying it. */
  lemma {:induction false} DefaultParametersLastWins(ps: seq<NodeParameter>, i: nat)
    requires i < |ps| && forall j :: i < j < |ps| ==> ps[j].id != ps[i].id
    ensures ps[i].id in DefaultParameters(ps) && DefaultParameters(ps)[ps[i].id] == ps[i].value
  {
    if i < |ps| - 1 {
      var init := ps[..|ps| - 1];
      assert init[i] == ps[i];
      DefaultParametersLastWins(init, i);
    }
  }

  /** The parameters a new node of catalogue entry `d` starts with (`{}` when
      the entry declares none). */
  function SeedParameters(d: NodeDefinition): map<string, ParamValue>
  {
    if d.parameters.Some? then DefaultParameters(d.parameters.value) else map[]
  }

  /** A node freshly created from catalogue entry `d`. */
  function NewNode(id: string, kind: string, position: Position, d: NodeDefinition): WorkflowNode
  {
    WorkflowNode(id, kind, position, NodeData(d.title, d.kind, Some(SeedParameters(d)), Some(map[])))
  }

  /** With pairwise distinct parameter ids, the seeded record sends every
      parameter id to that parameter's default value and has no other key. */
  lemma SeedParametersExact(d: NodeDefinition)
    requires d.parameters.Some?
    requires forall i, j :: 0 <= i < j < |d.parameters.value| ==> d.parameters.value[i].id != d.parameters.value[j].id
    ensures var ps := d.parameters.value;
            && (forall k :: k in SeedParameters(d) <==> exists i :: 0 <= i < |ps| && ps[i].id == k)
            && forall i :: 0 <= i < |ps| ==> SeedParameters(d)[ps[i].id] == ps[i].value
  {
    var ps := d.parameters.value;
    forall k ensures k in SeedParameters(d) <==> exists i :: 0 <= i < |ps| && ps[i].id == k {
      DefaultParametersKeys(ps, k);
    }
    forall i | 0 <= i < |ps| ensures SeedParameters(d)[ps[i].id] == ps[i].value {
      DefaultParametersLastWins(ps, i);
    }
  }

  // ---- Appending ----

  /** `nodes: [...w.nodes, n]` with a fresh `updatedAt`. */
  function WithNode(w: Workflow, n: WorkflowNode, nowIso: string): (r: Workflow)
    ensures |r.nodes| == |w.nodes| + 1 && r.nodes[..|w.nodes|] == w.nodes && r.nodes[|w.nodes|] == n
    ensures r.id == w.id && r.edges == w.edges && r.(nodes := w.nodes, updatedAt := w.updatedAt) == w
  {
    w.(nodes := w.nodes + [n], updatedAt := nowIso)
  }

  /** `edges: [...w.edges, e]` with a fresh `updatedAt`. */
  function WithEdge(w: Workflow, e: WorkflowEdge, nowIso: string): (r: Workflow)
    ensures |r.edges| == |w.edges| + 1 && r.edges[..|w.edges|] == w.edges && r.edges[|w.edges|] == e
    ensures r.id == w.id && r.nodes == w.nodes && r.(edges := w.edges, updatedAt := w.updatedAt) == w
  {
    w.(edges := w.edges + [e], updatedAt := nowIso)
  }

  /** Appending a node keeps every edge closed, and keeps ids unique when the new id is fresh. */
  lemma WithNodeKeepsInvariants(w: Workflow, n: WorkflowNode, nowIso: string)
    ensures EdgesClosed(w) ==> EdgesClosed(WithNode(w, n, nowIso))
    ensures UniqueNodeIds(w.nodes) && !HasNode(w, n.id) ==> UniqueNodeIds(WithNode(w, n, nowIso).nodes)
  {
    var r := WithNode(w, n, nowIso);
    forall id | HasNode(w, id) ensures HasNode(r, id) {
      var i :| 0 <= i < |w.nodes| && w.nodes[i].id == id;
      assert r.nodes[i] == w.nodes[i];
    }
  }

  /** Is there already an edge from `source` to `target` leaving by `sourceHandle`? */
  predicate HasEdgeLike(w: Workflow, source: string, target: string, sourceHandle: Option<string>)
  {
    exists i :: 0 <= i < |w.edges| && w.edges[i].source == source && w.edges[i].target == target
                                    && w.edges[i].sourceHandle == sourceHandle
  }

  // ---- Cascade deletion ----

  /** Removes the node with id `nodeId` and every edge that starts or ends at it. */
  function WithoutNode(w: Workflow, nodeId: string, nowIso: string): (r: Workflow)
    ensures forall i :: 0 <= i < |r.nodes| ==> r.nodes[i] in w.nodes && r.nodes[i].id != nodeId
    ensures forall i :: 0 <= i < |w.nodes| && w.nodes[i].id != nodeId ==> w.nodes[i] in r.nodes
    ensures forall i :: 0 <= i < |r.edges| ==> r.edges[i] in w.edges && !Touches(r.edges[i], nodeId)
    ensures forall i :: 0 <= i < |w.edges| && !Touches(w.edges[i], nodeId) ==> w.edges[i] in r.edges
    ensures IsSubsequence(r.nodes, w.nodes) && IsSubsequence(r.edges, w.edges)
    ensures multiset(r.nodes) <= multiset(w.nodes) && multiset(r.edges) <= multiset(w.edges)
    ensures forall i :: 0 <= i < |w.nodes| && w.nodes[i].id != nodeId ==> multiset(r.nodes)[w.nodes[i]] == multiset(w.nodes)[w.nodes[i]]
    ensures forall i :: 0 <= i < |w.edges| && !Touches(w.edges[i], nodeId) ==> multiset(r.edges)[w.edges[i]] == multiset(w.edges)[w.edges[i]]
    ensures r.id == w.id && r.(nodes := w.nodes, edges := w.edges, updatedAt := w.updatedAt) == w
  {
    FilterCounts(w.nodes, (n: WorkflowNode) => n.id != nodeId);
    FilterCounts(w.edges, (e: WorkflowEdge) => !Touches(e, nodeId));
    w.(nodes := Filter(w.nodes, (n: WorkflowNode) => n.id != nodeId),
       edges := Filter(w.edges, (e: WorkflowEdge) => !Touches(e, nodeId)),
       updatedAt := nowIso)
  }

  /** Cascade deletion keeps every edge closed: the deleted node's edges go with it. */
  lemma WithoutNodeKeepsEdgesClosed(w: Workflow, nodeId: string, nowIso: string)
    requires EdgesClosed(w)
    ensures EdgesClosed(WithoutNode(w, nodeId, nowIso))
    ensures !HasNode(WithoutNode(w, nodeId, nowIso), nodeId)
  {
    var r := WithoutNode(w, nodeId, nowIso);
    forall id | HasNode(w, id) && id != nodeId ensures HasNode(r, id) {
      var k :| 0 <= k < |w.nodes| && w.nodes[k].id == id;
      assert w.nodes[k] in r.nodes;
    }
    forall i | 0 <= i < |r.edges|
      ensures HasNode(r, r.edges[i].source) && HasNode(r, r.edges[i].target)
    {
      var k :| 0 <= k < |w.edges| && w.edges[k] == r.edges[i];
    }
  }

  /** Removing the edges with id `edgeId`. */
  function WithoutEdge(w: Workflow, edgeId: string, nowIso: string): (r: Workflow)
    ensures forall i :: 0 <= i < |r.edges| ==> r.edges[i] in w.edges && r.edges[i].id != edgeId
    ensures forall i :: 0 <= i < |w.edges| && w.edges[i].id != edgeId ==> w.edges[i] in r.edges
    ensures IsSubsequence(r.edges, w.edges)
    ensures multiset(r.edges) <= multiset(w.edges)
    ensures forall i :: 0 <= i < |w.edges| && w.edges[i].id != edgeId ==> multiset(r.edges)[w.edges[i]] == multiset(w.edges)[w.edges[i]]
    ensures r.id == w.id && r.(edges := w.edges, updatedAt := w.updatedAt) == w
  {
    FilterCounts(w.edges, (e: WorkflowEdge) => e.id != edgeId);
    w.(edges := Filter(w.edges, (e: WorkflowEdge) => e.id != edgeId), updatedAt := nowIso)
  }

  /** Deleting edges keeps every remaining edge closed. */
  lemma WithoutEdgeKeepsEdgesClosed(w: Workflow, edgeId: string, nowIso: string)
    requires EdgesClosed(w)
    ensures EdgesClosed(WithoutEdge(w, edgeId, nowIso))
  {
    var r := WithoutEdge(w, edgeId, nowIso);
    forall i | 0 <= i < |r.edges|
      ensures HasNode(r, r.edges[i].source) && HasNode(r, r.edges[i].target)
    {
      var k :| 0 <= k < |w.edges| && w.edges[k] == r.edges[i];
    }
  }

  // ---- Splitting an edge ----

  function Midpoint(a: Position, b: Position): (m: Position)
    ensures m.x - a.x == b.x - m.x && m.y - a.y == b.y - m.y
  {
    Position((a.x + b.x) / 2.0, (a.y + b.y) / 2.0)
  }

  /** Moves a node right by `NodeSpacingX` when it is at or right of `fromX`. */
  function ShiftNode(n: WorkflowNode, fromX: real): (r: WorkflowNode)
    ensures r.id == n.id && r.kind == n.kind && r.data == n.data && r.position.y == n.position.y
    ensures r.position.x == if n.position.x >= fromX then n.position.x + NodeSpacingX else n.position.x
  {
    if n.position.x >= fromX then n.(position := n.position.(x := n.position.x + NodeSpacingX)) else n
  }

  /** Makes room for a node inserted before the node at `fromX`. */
  function ShiftRightOf(nodes: seq<WorkflowNode>, fromX: real): (r: seq<WorkflowNode>)
    ensures |r| == |nodes|
    ensures forall i :: 0 <= i < |nodes| ==> r[i] == ShiftNode(nodes[i], fromX)
  {
    seq(|nodes|, i requires 0 <= i < |nodes| => ShiftNode(nodes[i], fromX))
  }

  /** The shift keeps the left-to-right order of the nodes, ties included. */
  lemma ShiftKeepsOrder(nodes: seq<WorkflowNode>, fromX: real, i: nat, j: nat)
    requires i < |nodes| && j < |nodes| && nodes[i].position.x <= nodes[j].position.x
    ensures ShiftRightOf(nodes, fromX)[i].position.x <= ShiftRightOf(nodes, fromX)[j].position.x
  {
  }

  /** The shift keeps ids, so it keeps the set of node ids. */
  lemma ShiftKeepsIds(w: Workflow, fromX: real, id: string)
    ensures HasNode(w.(nodes := ShiftRightOf(w.nodes, fromX)), id) <==> HasNode(w, id)
  {
    var r := ShiftRightOf(w.nodes, fromX);
    if HasNode(w, id) {
      var i :| 0 <= i < |w.nodes| && w.nodes[i].id == id;
      assert r[i].id == id;
    }
    if HasNode(w.(nodes := r), id) {
      var i :| 0 <= i < |r| && r[i].id == id;
      assert w.nodes[i].id == id;
    }
  }

  /** `insertNodeOnEdge`'s rewrite: the nodes become `shifted` plus the new
      node, and the edges with id `edgeId` give way to `first` and `second`:
      the edges kept are those `deleteEdge(edgeId)` keeps, in order and as
      often as before, followed by the two halves. */
  function SplitEdge(w: Workflow, shifted: seq<WorkflowNode>, newNode: WorkflowNode, edgeId: string,
                     first: WorkflowEdge, second: WorkflowEdge, nowIso: string): (r: Workflow)
    ensures r.nodes == shifted + [newNode]
    ensures r.edges == WithoutEdge(w, edgeId, nowIso).edges + [first, second]
    ensures |r.edges| >= 2 && r.edges[|r.edges| - 2] == first && r.edges[|r.edges| - 1] == second
    ensures r.id == w.id && r.(nodes := w.nodes, edges := w.edges, updatedAt := w.updatedAt) == w
  {
    var kept := Filter(w.edges, (e: WorkflowEdge) => e.id != edgeId);
    w.(nodes := shifted + [newNode], edges := kept + [first, second], updatedAt := nowIso)
  }

  /** Splitting an edge of a closed workflow through a new node keeps every
      edge closed: the old edges lose nothing but edges, and the two new ones
      join the split edge's ends to the new node. */
  lemma SplitEdgeKeepsInvariants(w: Workflow, k: nat, fromX: real, newNode: WorkflowNode,
                                 first: WorkflowEdge, second: WorkflowEdge, nowIso: string)
    requires EdgesClosed(w) && k < |w.edges|
    requires first.source == w.edges[k].source && first.target == newNode.id
    requires second.source == newNode.id && second.target == w.edges[k].target
    ensures var r := SplitEdge(w, ShiftRightOf(w.nodes, fromX), newNode, w.edges[k].id, first, second, nowIso);
            EdgesClosed(r) && |r.nodes| == |w.nodes| + 1
  {
    var edgeId := w.edges[k].id;
    var shifted := ShiftRightOf(w.nodes, fromX);
    var r := SplitEdge(w, shifted, newNode, edgeId, first, second, nowIso);
    var kept := WithoutEdge(w, edgeId, nowIso).edges;
    forall id | HasNode(w, id) ensures HasNode(r, id) {
      ShiftKeepsIds(w, fromX, id);
      var i :| 0 <= i < |shifted| && shifted[i].id == id;
      assert r.nodes[i] == shifted[i];
    }
    assert r.nodes[|shifted|] == newNode;
    forall i | 0 <= i < |r.edges|
      ensures HasNode(r, r.edges[i].source) && HasNode(r, r.edges[i].target)
    {
      if i < |kept| {
        assert r.edges[i] == kept[i] && kept[i] in w.edges;
        var j :| 0 <= j < |w.edges| && w.edges[j] == kept[i];
        assert HasNode(w, w.edges[j].source) && HasNode(w, w.edges[j].target);
      } else if i == |kept| {
        assert r.edges[i] == first;
      } else {
        assert r.edges[i] == second;
      }
    }
  }

  /** When the split edge's id is unique, the edge list grows by exactly one. */
  lemma SplitEdgeAddsOneEdge(w: Workflow, k: nat, shifted: seq<WorkflowNode>, newNode: WorkflowNode,
                             first: WorkflowEdge, second: WorkflowEdge, nowIso: string)
    requires k < |w.edges| && forall i :: 0 <= i < |w.edges| && i != k ==> w.edges[i].id != w.edges[k].id
    ensures |SplitEdge(w, shifted, newNode, w.edges[k].id, first, second, nowIso).edges| == |w.edges| + 1
  {
    var edgeId := w.edges[k].id;
    FilterDropsOne(w.edges, (e: WorkflowEdge) => e.id != edgeId, k);
  }

  /** Where the new node lands relative to the old edge's ends: when the
      source is left of the target, the source stays put, the target moves
      right by `NodeSpacingX`, and the midpoint lies strictly between them. */
  lemma SplitPlacement(nodes: seq<WorkflowNode>, si: nat, ti: nat)
    requires si < |nodes| && ti < |nodes| && nodes[si].position.x < nodes[ti].position.x
    ensures var shifted := ShiftRightOf(nodes, nodes[ti].position.x);
            var m := Midpoint(nodes[si].position, nodes[ti].position);
            && shifted[si] == nodes[si]
            && shifted[ti].position.x == nodes[ti].position.x + NodeSpacingX
            && shifted[si].position.x < m.x < shifted[ti].position.x
  {
  }

  // ---- Branch-aware placement ----

  function Abs(v: real): (r: real)
    ensures r >= 0.0 && (r == v || r == -v)
  {
    if v < 0.0 then -v else v
  }

  /** A JavaScript string is truthy when it is present and non-empty. */
  predicate Truthy(s: Option<string>)
  {
    s.Some? && s.value != ""
  }

  /** The spot `addNodeAndConnect` aims for: right of the source, raised for
      the "true" branch of a branching source, lowered for its "false" branch;
      `fallback` (a random spot) when the source node is missing. */
  function BranchSpot(source: Option<WorkflowNode>, sourceBranches: bool, sourceHandle: Option<string>,
                      fallback: Position): (p: Position)
    ensures source.None? ==> p == fallback
    ensures source.Some? ==> p.x == source.value.position.x + NodeSpacingX
    ensures source.Some? && sourceBranches && sourceHandle == Some("true")
            ==> p.y == source.value.position.y - NodeSpacingY
    ensures source.Some? && sourceBranches && sourceHandle == Some("false")
            ==> p.y == source.value.position.y + NodeSpacingY
    ensures source.Some? && !(sourceBranches && sourceHandle in {Some("true"), Some("false")})
            ==> p.y == source.value.position.y
  {
    match source
    case None => fallback
    case Some(src) =>
      var x := src.position.x + NodeSpacingX;
      if sourceBranches && Truthy(sourceHandle) then
        if sourceHandle.value == "true" then Position(x, src.position.y - NodeSpacingY)
        else if sourceHandle.value == "false" then Position(x, src.position.y + NodeSpacingY)
        else Position(x, src.position.y)
      else Position(x, src.position.y)
  }

  /** Node `n` overlaps spot `p`: closer than `OverlapDistance` on both axes. */
  predicate Near(n: WorkflowNode, p: Position)
  {
    Abs(n.position.x - p.x) < OverlapDistance && Abs(n.position.y - p.y) < OverlapDistance
  }

  /** `Math.min` over the nodes' y coordinates. */
  function MinY(ns: seq<WorkflowNode>): (m: real)
    requires |ns| > 0
    ensures forall i :: 0 <= i < |ns| ==> m <= ns[i].position.y
    ensures exists i :: 0 <= i < |ns| && m == ns[i].position.y
  {
    if |ns| == 1 then ns[0].position.y
    else
      var rest := MinY(ns[1..]);
      assert forall i :: 1 <= i < |ns| ==> ns[i] == ns[1..][i - 1];
      if ns[0].position.y <= rest then ns[0].position.y else rest
  }

  /** `Math.max` over the nodes' y coordinates. */
  function MaxY(ns: seq<WorkflowNode>): (m: real)
    requires |ns| > 0
    ensures forall i :: 0 <= i < |ns| ==> ns[i].position.y <= m
    ensures exists i :: 0 <= i < |ns| && m == ns[i].position.y
  {
    if |ns| == 1 then ns[0].position.y
    else
      var rest := MaxY(ns[1..]);
      assert forall i :: 1 <= i < |ns| ==> ns[i] == ns[1..][i - 1];
      if ns[0].position.y >= rest then ns[0].position.y else rest
  }

  /** The nodes that overlap `spot`, in canvas order. */
  function NodesNear(nodes: seq<WorkflowNode>, spot: Position): (r: seq<WorkflowNode>)
    ensures forall i :: 0 <= i < |r| ==> r[i] in nodes && Near(r[i], spot)
    ensures forall i :: 0 <= i < |nodes| && Near(nodes[i], spot) ==> nodes[i] in r
  {
    Filter(nodes, (n: WorkflowNode) => Near(n, spot))
  }

  /** One overlap correction: when nodes overlap `spot`, the "true" branch goes
      `NodeSpacingY` above the highest of them and anything else goes
      `NodeSpacingY` below the lowest; x never changes. */
  function AvoidOverlap(spot: Position, nodes: seq<WorkflowNode>, sourceHandle: Option<string>): (p: Position)
  {
    var near := NodesNear(nodes, spot);
    if |near| == 0 then spot
    else if sourceHandle == Some("true") then spot.(y := MinY(near) - NodeSpacingY)
    else spot.(y := MaxY(near) + NodeSpacingY)
  }

  /** The correction moves the spot vertically only, leaves it alone when no
      node overlaps it, and then puts it at least `NodeSpacingY` above (for
      "true") or below (otherwise) every node that overlapped, and exactly
      `NodeSpacingY` from the extreme one; so it overlaps none of them any more. */
  lemma AvoidOverlapMovesClear(spot: Position, nodes: seq<WorkflowNode>, sourceHandle: Option<string>)
    ensures var p := AvoidOverlap(spot, nodes, sourceHandle);
            && p.x == spot.x
            && ((forall i :: 0 <= i < |nodes| ==> !Near(nodes[i], spot)) ==> p == spot)
            && forall i :: 0 <= i < |nodes| && Near(nodes[i], spot) ==>
                 && !Near(nodes[i], p)
                 && (sourceHandle == Some("true") ==> p.y <= nodes[i].position.y - NodeSpacingY)
                 && (sourceHandle != Some("true") ==> p.y >= nodes[i].position.y + NodeSpacingY)
    ensures var p := AvoidOverlap(spot, nodes, sourceHandle);
            (exists i :: 0 <= i < |nodes| && Near(nodes[i], spot)) ==>
              exists i :: 0 <= i < |nodes| && Near(nodes[i], spot)
                          && p.y == nodes[i].position.y + (if sourceHandle == Some("true") then -NodeSpacingY else NodeSpacingY)
  {
    var near := NodesNear(nodes, spot);
    assert forall i :: 0 <= i < |nodes| && Near(nodes[i], spot) ==> nodes[i] in near;
    if |near| > 0 {
      var m := if sourceHandle == Some("true") then MinY(near) else MaxY(near);
      var j :| 0 <= j < |near| && m == near[j].position.y;
      var i :| 0 <= i < |nodes| && nodes[i] == near[j];
    }
  }

  // ---- Clipboard ----

  /** A copy of `n` under a new id and position, its label extended by `suffix`;
      the type, parameters and output are kept. */
  function CopyOf(n: WorkflowNode, newId: string, position: Position, suffix: string): (r: WorkflowNode)
    ensures r.id == newId && r.kind == n.kind && r.position == position
    ensures r.data.title == n.data.title + suffix && r.data.(title := n.data.title) == n.data
  {
    n.(id := newId, position := position, data := n.data.(title := n.data.title + suffix))
  }

  /** `n`'s position moved by `CopyOffset` on both axes. */
  function Offset(p: Position): (r: Position)
    ensures r.x - p.x == CopyOffset && r.y - p.y == CopyOffset
  {
    Position(p.x + CopyOffset, p.y + CopyOffset)
  }

  /** A copy placed at the offset spot never overlaps the original. */
  lemma OffsetClearsOriginal(n: WorkflowNode)
    ensures !Near(n, Offset(n.position))
  {
    assert Abs(n.position.x - Offset(n.position).x) == CopyOffset;
  }

  /** A new edge is an edge like itself, so `addEdge` with the same arguments
      a second time finds it and adds nothing. */
  lemma WithEdgeHasEdgeLike(w: Workflow, e: WorkflowEdge, nowIso: string)
    ensures HasEdgeLike(WithEdge(w, e, nowIso), e.source, e.target, e.sourceHandle)
  {
    assert WithEdge(w, e, nowIso).edges[|w.edges|] == e;
  }

  /** Adding an edge between two existing nodes keeps every edge closed. */
  lemma WithEdgeKeepsEdgesClosed(w: Workflow, e: WorkflowEdge, nowIso: string)
    requires EdgesClosed(w) && HasNode(w, e.source) && HasNode(w, e.target)
    ensures EdgesClosed(WithEdge(w, e, nowIso))
  {
    var r := WithEdge(w, e, nowIso);
    forall i | 0 <= i < |r.edges| ensures HasNode(r, r.edges[i].source) && HasNode(r, r.edges[i].target) {
      if i < |w.edges| {
        assert r.edges[i] == w.edges[i];
      }
    }
  }

  /** Deleting a node twice is deleting it once. */
  lemma WithoutNodeIdempotent(w: Workflow, nodeId: string, nowIso: string)
    ensures WithoutNode(WithoutNode(w, nodeId, nowIso), nodeId, nowIso) == WithoutNode(w, nodeId, nowIso)
  {
    var r := WithoutNode(w, nodeId, nowIso);
    FilterKeepsAll(r.nodes, (n: WorkflowNode) => n.id != nodeId);
    FilterKeepsAll(r.edges, (e: WorkflowEdge) => !Touches(e, nodeId));
  }
}
