/** The store's state as one value, and each action that looks something
    up before it sets the state as a pure step from the old state to the new
    one: the callback the store hands to `set`.

    Clock readings and random numbers are parameters: `nowMs` is the decimal
    text of `Date.now()` (new ids are "node-" + nowMs, "edge-" + nowMs, ...),
    `nowIso` the ISO timestamp stored in `updatedAt`, and `rx`, `ry` the two
    `Math.random()` draws of a fallback position. */
module StoreActions {
  import opened Seqs
  import opened Types
  import opened Graph
  import opened Catalogue

  /** Every field of the store, as one value. */
  datatype StoreState = StoreState(
    workflows: seq<Workflow>,
    activeWorkflowId: Option<string>,
    selectedNodeId: Option<string>,
    isDarkMode: bool,
    isRightPanelOpen: bool,
    isAddNodePanelOpen: bool,
    anpCategory: Option<string>,
    anpSearchQuery: string,
    anpEdgeInsertId: Option<string>,
    anpSourceNodeId: Option<string>,
    anpSourceHandle: Option<string>,
    copiedNode: Option<WorkflowNode>)

  // ---- Workflow-list helpers ----

  /** `workflows.map(w => w.id === target ? f(w) : w)`: every workflow whose id
      is `target` is rewritten by `f`, every other one is left as it is. */
  function MapMatching(ws: seq<Workflow>, target: Option<string>, f: Workflow -> Workflow): (r: seq<Workflow>)
    ensures |r| == |ws|
    ensures forall i :: 0 <= i < |ws| && Some(ws[i].id) == target ==> r[i] == f(ws[i])
    ensures forall i :: 0 <= i < |ws| && Some(ws[i].id) != target ==> r[i] == ws[i]
  {
    seq(|ws|, i requires 0 <= i < |ws| => if Some(ws[i].id) == target then f(ws[i]) else ws[i])
  }

  /** `workflows.find(w => w.id === activeWorkflowId)`. */
  function FindWorkflow(ws: seq<Workflow>, target: Option<string>): (r: Option<Workflow>)
    ensures r.None? <==> forall i :: 0 <= i < |ws| ==> Some(ws[i].id) != target
    ensures r.Some? ==> r.value in ws && Some(r.value.id) == target
  {
    Find(ws, (w: Workflow) => Some(w.id) == target)
  }

  /** `nodes.find(n => n.id === id)`. */
  function FindNode(nodes: seq<WorkflowNode>, id: string): (r: Option<WorkflowNode>)
    ensures r.None? <==> forall i :: 0 <= i < |nodes| ==> nodes[i].id != id
    ensures r.Some? ==> r.value in nodes && r.value.id == id
  {
    Find(nodes, (n: WorkflowNode) => n.id == id)
  }

  /** `edges.find(e => e.id === id)`. */
  function FindEdge(edges: seq<WorkflowEdge>, id: string): (r: Option<WorkflowEdge>)
    ensures r.None? <==> forall i :: 0 <= i < |edges| ==> edges[i].id != id
    ensures r.Some? ==> r.value in edges && r.value.id == id
  {
    Find(edges, (e: WorkflowEdge) => e.id == id)
  }

  predicate UniqueWorkflowIds(ws: seq<Workflow>)
  {
    forall i, j :: 0 <= i < j < |ws| ==> ws[i].id != ws[j].id
  }

  /** The workflows left by `deleteWorkflow(id)`. */
  function WithoutWorkflow(ws: seq<Workflow>, id: string): (r: seq<Workflow>)
    ensures forall i :: 0 <= i < |r| ==> r[i] in ws && r[i].id != id
    ensures forall i :: 0 <= i < |ws| && ws[i].id != id ==> ws[i] in r
    ensures IsSubsequence(r, ws)
  {
    Filter(ws, (w: Workflow) => w.id != id)
  }

  /** Deleting keeps every other workflow as often as it was there. */
  lemma WithoutWorkflowCounts(ws: seq<Workflow>, id: string)
    ensures multiset(WithoutWorkflow(ws, id)) <= multiset(ws)
    ensures forall i :: 0 <= i < |ws| && ws[i].id != id ==> multiset(WithoutWorkflow(ws, id))[ws[i]] == multiset(ws)[ws[i]]
  {
    FilterCounts(ws, (w: Workflow) => w.id != id);
  }

  /** The active id after `deleteWorkflow(id)`: unchanged unless the active
      workflow was deleted, in which case the first remaining workflow's id
      (nothing when none remains or that id is the falsy empty string). */
  function ActiveAfterDelete(remaining: seq<Workflow>, active: Option<string>, id: string): (r: Option<string>)
    ensures active != Some(id) ==> r == active
    ensures active == Some(id) && |remaining| > 0 && remaining[0].id != "" ==> r == Some(remaining[0].id)
    ensures active == Some(id) && (|remaining| == 0 || remaining[0].id == "") ==> r == None
  {
    if active == Some(id) then
      if |remaining| > 0 && remaining[0].id != "" then Some(remaining[0].id) else None
    else active
  }

  /** With unique ids, deleting one of at least two workflows leaves at least
      one, and removes at most one. */
  lemma DeleteKeepsOne(ws: seq<Workflow>, id: string)
    requires |ws| >= 2
    ensures UniqueWorkflowIds(ws) ==> |ws| - 1 <= |WithoutWorkflow(ws, id)| && |WithoutWorkflow(ws, id)| >= 1
  {
    var keep := (w: Workflow) => w.id != id;
    if !UniqueWorkflowIds(ws) {
    } else if k :| 0 <= k < |ws| && ws[k].id == id {
      FilterDropsOne(ws, keep, k);
    } else {
      FilterKeepsAll(ws, keep);
    }
  }

  /** With unique ids, when the active workflow is deleted the new active id
      names a remaining workflow (unless that workflow's id is empty). */
  lemma DeleteActiveMovesToRemaining(ws: seq<Workflow>, id: string)
    requires |ws| >= 2 && UniqueWorkflowIds(ws)
    ensures var remaining := WithoutWorkflow(ws, id);
            var next := ActiveAfterDelete(remaining, Some(id), id);
            |remaining| >= 1 && (next.Some? <==> remaining[0].id != "")
    ensures var remaining := WithoutWorkflow(ws, id);
            var next := ActiveAfterDelete(remaining, Some(id), id);
            next.Some? ==> next.value != id && exists i :: 0 <= i < |ws| && ws[i].id == next.value
  {
    DeleteKeepsOne(ws, id);
  }

  /** The guard counts workflows, not distinct ids: two workflows sharing the
      deleted id both go, leaving no workflow and no active id. */
  lemma DeleteCanEmptyWithSharedIds(w: Workflow)
    ensures var ws := [w, w];
            WithoutWorkflow(ws, w.id) == [] && ActiveAfterDelete([], Some(w.id), w.id) == None
  {
    FilterKeepsNone([w, w], (x: Workflow) => x.id != w.id);
  }

  /** `{ ...w, ...updates }`: each field present in the update overrides. */
  function ApplyUpdate(w: Workflow, u: WorkflowUpdate): Workflow
  {
    Workflow(
      if u.id.Some? then u.id.value else w.id,
      if u.name.Some? then u.name.value else w.name,
      if u.description.Some? then u.description else w.description,
      if u.status.Some? then u.status.value else w.status,
      if u.nodes.Some? then u.nodes.value else w.nodes,
      if u.edges.Some? then u.edges.value else w.edges,
      if u.createdAt.Some? then u.createdAt.value else w.createdAt,
      if u.updatedAt.Some? then u.updatedAt.value else w.updatedAt,
      if u.executionCount.Some? then u.executionCount.value else w.executionCount)
  }

  /** An update with no fields changes nothing; every field the update
      carries replaces the workflow's, and every field it leaves out is kept. */
  lemma ApplyUpdateFields(w: Workflow, u: WorkflowUpdate)
    ensures u == WorkflowUpdate(None, None, None, None, None, None, None, None, None) ==> ApplyUpdate(w, u) == w
    ensures var r := ApplyUpdate(w, u);
            && (u.id.Some? ==> r.id == u.id.value) && (u.id.None? ==> r.id == w.id)
            && (u.name.Some? ==> r.name == u.name.value) && (u.name.None? ==> r.name == w.name)
            && (u.description.Some? ==> r.description == u.description)
            && (u.description.None? ==> r.description == w.description)
            && (u.status.Some? ==> r.status == u.status.value) && (u.status.None? ==> r.status == w.status)
            && (u.nodes.Some? ==> r.nodes == u.nodes.value) && (u.nodes.None? ==> r.nodes == w.nodes)
            && (u.edges.Some? ==> r.edges == u.edges.value) && (u.edges.None? ==> r.edges == w.edges)
            && (u.createdAt.Some? ==> r.createdAt == u.createdAt.value) && (u.createdAt.None? ==> r.createdAt == w.createdAt)
            && (u.updatedAt.Some? ==> r.updatedAt == u.updatedAt.value) && (u.updatedAt.None? ==> r.updatedAt == w.updatedAt)
            && (u.executionCount.Some? ==> r.executionCount == u.executionCount.value)
            && (u.executionCount.None? ==> r.executionCount == w.executionCount)
  {
  }

  /** Applying the same update twice is applying it once. */
  lemma ApplyUpdateIdempotent(w: Workflow, u: WorkflowUpdate)
    ensures ApplyUpdate(ApplyUpdate(w, u), u) == ApplyUpdate(w, u)
  {
  }

  /** `{ ...n.data, ...data }`. */
  function ApplyDataUpdate(d: NodeData, u: NodeDataUpdate): NodeData
  {
    NodeData(
      if u.title.Some? then u.title.value else d.title,
      if u.nodeType.Some? then u.nodeType.value else d.nodeType,
      if u.parameters.Some? then u.parameters else d.parameters,
      if u.output.Some? then u.output else d.output)
  }

  /** `updateNode`'s rewrite: the data of every node with id `nodeId` is
      merged with `u`; every other node, and every node's id, type and
      position, stay as they are. */
  function UpdateNodes(nodes: seq<WorkflowNode>, nodeId: string, u: NodeDataUpdate): (r: seq<WorkflowNode>)
    ensures |r| == |nodes|
    ensures forall i :: 0 <= i < |nodes| ==>
              r[i].id == nodes[i].id && r[i].kind == nodes[i].kind && r[i].position == nodes[i].position
    ensures forall i :: 0 <= i < |nodes| && nodes[i].id != nodeId ==> r[i] == nodes[i]
    ensures forall i :: 0 <= i < |nodes| && nodes[i].id == nodeId ==> r[i].data == ApplyDataUpdate(nodes[i].data, u)
  {
    seq(|nodes|, i requires 0 <= i < |nodes| =>
      if nodes[i].id == nodeId then nodes[i].(data := ApplyDataUpdate(nodes[i].data, u)) else nodes[i])
  }

  /** Updating node data never touches ids, so every edge stays closed. */
  lemma UpdateNodesKeepsEdgesClosed(w: Workflow, nodeId: string, u: NodeDataUpdate)
    requires EdgesClosed(w)
    ensures EdgesClosed(w.(nodes := UpdateNodes(w.nodes, nodeId, u)))
  {
    var r := w.(nodes := UpdateNodes(w.nodes, nodeId, u));
    forall id | HasNode(w, id) ensures HasNode(r, id) {
      var i :| 0 <= i < |w.nodes| && w.nodes[i].id == id;
      assert r.nodes[i].id == id;
    }
  }

  /** The new node's position in `addNodeAndConnect`, before the edge is added. */
  function ConnectSpot(catalogue: seq<NodeDefinition>, aw: Workflow, sourceNodeId: string, sourceHandle: Option<string>,
                       fallback: Position): Position
  {
    var source := FindNode(aw.nodes, sourceNodeId);
    var sourceDef := if source.Some? then LookupIn(catalogue, source.value.kind) else None;
    var branches := sourceDef.Some? && sourceDef.value.hasBranch;
    AvoidOverlap(BranchSpot(source, branches, sourceHandle, fallback), aw.nodes, sourceHandle)
  }

  /** Where `addNodeAndConnect` puts the new node: one column right of an
      existing source (at the fallback's x otherwise), beside, above or below
      it by branch; when nodes overlap that first choice it moves to exactly
      `NodeSpacingY` above the highest of them (for "true") or below the
      lowest (otherwise), clear of all of them; with nothing in the way the
      first choice stands. */
  lemma ConnectSpotPlaces(catalogue: seq<NodeDefinition>, aw: Workflow, sourceNodeId: string,
                          sourceHandle: Option<string>, fallback: Position)
    ensures var p := ConnectSpot(catalogue, aw, sourceNodeId, sourceHandle, fallback);
            var source := FindNode(aw.nodes, sourceNodeId);
            var sourceDef := if source.Some? then LookupIn(catalogue, source.value.kind) else None;
            var first := BranchSpot(source, sourceDef.Some? && sourceDef.value.hasBranch, sourceHandle, fallback);
            && (source.Some? ==> p.x == source.value.position.x + NodeSpacingX)
            && (source.None? ==> p.x == fallback.x)
            && ((forall i :: 0 <= i < |aw.nodes| ==> !Near(aw.nodes[i], first)) ==> p == first)
            && (forall i :: 0 <= i < |aw.nodes| && Near(aw.nodes[i], first) ==> !Near(aw.nodes[i], p))
            && ((exists i :: 0 <= i < |aw.nodes| && Near(aw.nodes[i], first)) ==>
                  exists i :: 0 <= i < |aw.nodes| && Near(aw.nodes[i], first)
                              && p.y == aw.nodes[i].position.y + (if sourceHandle == Some("true") then -NodeSpacingY else NodeSpacingY))
  {
    var source := FindNode(aw.nodes, sourceNodeId);
    var sourceDef := if source.Some? then LookupIn(catalogue, source.value.kind) else None;
    AvoidOverlapMovesClear(BranchSpot(source, sourceDef.Some? && sourceDef.value.hasBranch, sourceHandle, fallback),
                           aw.nodes, sourceHandle);
  }

  /** `addNodeAndConnect`'s rewrite of one workflow: the new node, then the
      edge into it, appended; the workflow keeps its id. */
  function Connected(w: Workflow, n: WorkflowNode, e: WorkflowEdge, nowIso: string): (r: Workflow)
    ensures r.id == w.id && r.nodes == w.nodes + [n] && r.edges == w.edges + [e]
  {
    WithEdge(WithNode(w, n, nowIso), e, nowIso)
  }

  /** `addNodeAndConnect`'s rewrite keeps every edge closed when the source node exists. */
  lemma ConnectKeepsEdgesClosed(w: Workflow, n: WorkflowNode, e: WorkflowEdge, nowIso: string)
    requires EdgesClosed(w) && HasNode(w, e.source) && e.target == n.id
    ensures EdgesClosed(Connected(w, n, e, nowIso))
  {
    var w1 := WithNode(w, n, nowIso);
    var r := WithEdge(w1, e, nowIso);
    WithNodeKeepsInvariants(w, n, nowIso);
    forall id | HasNode(w1, id) ensures HasNode(r, id) {
      var i :| 0 <= i < |w1.nodes| && w1.nodes[i].id == id;
      assert r.nodes[i].id == id;
    }
    var s :| 0 <= s < |w.nodes| && w.nodes[s].id == e.source;
    assert w1.nodes[s] == w.nodes[s];
    assert w1.nodes[|w.nodes|] == n;
    forall i | 0 <= i < |r.edges| ensures HasNode(r, r.edges[i].source) && HasNode(r, r.edges[i].target) {
      if i < |w1.edges| {
        assert r.edges[i] == w1.edges[i];
      }
    }
  }

  /** A missing source node is not checked: the new edge then dangles. */
  lemma ConnectFromMissingSourceDangles(w: Workflow, n: WorkflowNode, e: WorkflowEdge, nowIso: string)
    requires !HasNode(w, e.source) && e.source != n.id
    ensures !EdgesClosed(Connected(w, n, e, nowIso))
  {
    var r := Connected(w, n, e, nowIso);
    assert r.edges[|w.edges|] == e;
    forall i | 0 <= i < |r.nodes| ensures r.nodes[i].id != e.source {
      if i < |w.nodes| {
        assert r.nodes[i] == w.nodes[i];
      }
    }
  }

  // ---- The initial demo workflow ----

  /** An animated "smoothstep" edge, the kind every action creates. */
  function SmoothEdge(id: string, source: string, target: string, sourceHandle: Option<string>,
                      targetHandle: Option<string>): WorkflowEdge
  {
    WorkflowEdge(id, source, target, sourceHandle, targetHandle, Some("smoothstep"), Some(true))
  }

  function DemoNode(id: string, kind: string, x: real, y: real, title: string, nodeType: string,
                    parameters: map<string, ParamValue>, output: map<string, Json>): WorkflowNode
  {
    WorkflowNode(id, kind, Position(x, y), NodeData(title, nodeType, Some(parameters), Some(output)))
  }

  /** The twelve nodes of the demo workflow. */
  function DemoNodes(): seq<WorkflowNode>
  {
    [ DemoNode("node-1", "telegram-trigger", 100.0, 100.0, "Telegram Trigger", "trigger",
        map["botToken" := Text("demo-token"), "allowedChats" := Text("")],
        map["message" := JObject(map["text" := JString("beli kopi 15000"),
                                     "chat" := JObject(map["id" := JNumber(123456.0)])])]),
      DemoNode("node-2", "edit-fields", 350.0, 100.0, "Edit Fields", "action",
        map["fields" := Text("text=message.text\nchatId=message.chat.id")],
        map["text" := JString("beli kopi 15000"), "chatId" := JNumber(123456.0)]),
      DemoNode("node-3", "if-else", 600.0, 100.0, "If Contains Total", "flow",
        map["condition" := Text("text.includes('total')")],
        map["result" := JBool(false)]),
      DemoNode("node-4", "ai-agent", 850.0, 250.0, "AI Agent", "ai",
        map["prompt" := Text("Extract financial data"), "model" := Text("gpt-4")],
        map["type" := JString("expense"), "amount" := JNumber(15000.0), "notes" := JString("kopi")]),
      DemoNode("node-5", "code-js", 1100.0, 250.0, "Code JS", "core",
        map["code" := Text("return { ...data, valid: true };")],
        map["type" := JString("expense"), "amount" := JNumber(15000.0), "notes" := JString("kopi"),
            "valid" := JBool(true)]),
      DemoNode("node-6", "if-else", 1350.0, 250.0, "If Valid", "flow",
        map["condition" := Text("valid === true")],
        map["result" := JBool(true)]),
      DemoNode("node-7", "append-row", 1600.0, 150.0, "Append Row", "action",
        map["spreadsheetId" := Text("demo-sheet"), "sheetName" := Text("Transactions"),
            "values" := Text("type,amount,notes")],
        map["success" := JBool(true)]),
      DemoNode("node-8", "send-message", 1850.0, 250.0, "Send Message", "action",
        map["chatId" := Text("123456"), "message" := Text("Transaction logged!")],
        map["sent" := JBool(true)]),
      DemoNode("node-9", "get-rows", 850.0, -50.0, "Get Row(s)", "data",
        map["spreadsheetId" := Text("demo-sheet"), "range" := Text("A:Z")],
        map["rows" := JArray([JArray([JString("expense"), JNumber(15000.0), JString("kopi")])])]),
      DemoNode("node-10", "ai-agent", 1100.0, -50.0, "AI Agent 2", "ai",
        map["prompt" := Text("Summarize total"), "model" := Text("gpt-4")],
        map["summary" := JString("Total: 15000")]),
      DemoNode("node-11", "send-message", 1350.0, -50.0, "Send Total", "action",
        map["chatId" := Text("123456"), "message" := Text("Total: 15000")],
        map["sent" := JBool(true)]),
      DemoNode("node-12", "no-op", 1600.0, 350.0, "No Operation", "flow", map[], map[])
    ]
  }

  /** The twelve edges of the demo workflow, all animated "smoothstep" edges. */
  function DemoEdges(): seq<WorkflowEdge>
  {
    [ SmoothEdge("edge-1", "node-1", "node-2", None, None),
      SmoothEdge("edge-2", "node-2", "node-3", None, None),
      SmoothEdge("edge-3", "node-3", "node-4", Some("false"), None),
      SmoothEdge("edge-4", "node-3", "node-9", Some("true"), None),
      SmoothEdge("edge-5", "node-4", "node-5", None, None),
      SmoothEdge("edge-6", "node-5", "node-6", None, None),
      SmoothEdge("edge-7", "node-6", "node-7", Some("true"), None),
      SmoothEdge("edge-8", "node-6", "node-12", Some("false"), None),
      SmoothEdge("edge-9", "node-7", "node-8", None, None),
      SmoothEdge("edge-10", "node-12", "node-8", None, None),
      SmoothEdge("edge-11", "node-9", "node-10", None, None),
      SmoothEdge("edge-12", "node-10", "node-11", None, None)
    ]
  }

  /** "Telegram Financial Bot", the workflow a fresh store starts with. */
  function DemoWorkflow(nowIso: string): Workflow
  {
    Workflow("demo-workflow-1", "Telegram Financial Bot", Some("Log financial transactions via Telegram"),
             Active, DemoNodes(), DemoEdges(), nowIso, nowIso, 16)
  }

  function NodeIds(nodes: seq<WorkflowNode>): (r: seq<string>)
    ensures |r| == |nodes| && forall i :: 0 <= i < |nodes| ==> r[i] == nodes[i].id
  {
    seq(|nodes|, i requires 0 <= i < |nodes| => nodes[i].id)
  }

  /** The ids of the demo nodes, in order. */
  lemma DemoNodeIds()
    ensures NodeIds(DemoNodes()) == ["node-1", "node-2", "node-3", "node-4", "node-5", "node-6",
                                   "node-7", "node-8", "node-9", "node-10", "node-11", "node-12"]
  {
  }

  /** The demo nodes' ids are pairwise distinct. */
  lemma DemoNodeIdsUnique()
    ensures UniqueNodeIds(DemoNodes())
  {
    DemoNodeIds();
    var ids := NodeIds(DemoNodes());
    assert forall i, j :: 0 <= i < j < |ids| ==> ids[i] != ids[j];
  }

  /** Every demo edge joins two demo nodes. */
  lemma DemoEdgesClosed(nowIso: string)
    ensures EdgesClosed(DemoWorkflow(nowIso))
  {
    DemoNodeIds();
    var ids := NodeIds(DemoNodes());
    var w := DemoWorkflow(nowIso);
    forall i | 0 <= i < |w.edges| ensures HasNode(w, w.edges[i].source) && HasNode(w, w.edges[i].target) {
      assert w.edges[i].source in ids && w.edges[i].target in ids;
    }
  }

  /** A workflow appended under a fresh id is the one found for that id. */
  lemma FindAppended(ws: seq<Workflow>, w: Workflow)
    requires forall i :: 0 <= i < |ws| ==> ws[i].id != w.id
    ensures FindWorkflow(ws + [w], Some(w.id)) == Some(w)
  {
    assert (ws + [w])[|ws|] == w;
  }

  /** With unique workflow ids, the workflow found for an id is the one
      carrying that id. */
  lemma ActiveIsUnique(ws: seq<Workflow>, target: Option<string>, i: nat)
    requires UniqueWorkflowIds(ws) && i < |ws| && Some(ws[i].id) == target
    ensures FindWorkflow(ws, target) == Some(ws[i])
  {
    var r := FindWorkflow(ws, target);
    assert r.Some?;
    var j :| 0 <= j < |ws| && ws[j] == r.value && Some(ws[j].id) == target;
    assert j == i;
  }

  /** `insertNodeOnEdge`'s rewrite of a closed workflow stays closed: the
      split edge's ends exist, so the new edges join existing nodes and the
      new one. */
  lemma SplitKeepsClosed(w: Workflow, edgeId: string, n: WorkflowNode, first: WorkflowEdge,
                         second: WorkflowEdge, nowIso: string)
    requires EdgesClosed(w)
    requires FindEdge(w.edges, edgeId).Some?
    requires var edge := FindEdge(w.edges, edgeId).value;
             first.source == edge.source && first.target == n.id
             && second.source == n.id && second.target == edge.target
    ensures var edge := FindEdge(w.edges, edgeId).value;
            var tgt := FindNode(w.nodes, edge.target);
            var shifted := if tgt.Some? then ShiftRightOf(w.nodes, tgt.value.position.x) else w.nodes;
            EdgesClosed(SplitEdge(w, shifted, n, edgeId, first, second, nowIso))
  {
    var edge := FindEdge(w.edges, edgeId).value;
    var k :| 0 <= k < |w.edges| && w.edges[k] == edge && edge.id == edgeId;
    assert HasNode(w, edge.target);
    var tgt := FindNode(w.nodes, edge.target);
    assert tgt.Some?;
    SplitEdgeKeepsInvariants(w, k, tgt.value.position.x, n, first, second, nowIso);
  }

  /** Every workflow's edges join two of its nodes. */
  predicate AllClosed(ws: seq<Workflow>)
  {
    forall i :: 0 <= i < |ws| ==> EdgesClosed(ws[i])
  }

  // ---- The rewrites the actions apply to the workflows carrying the active id ----

  function AddNodeIn(ws: seq<Workflow>, target: Option<string>, n: WorkflowNode, nowIso: string): seq<Workflow>
  {
    MapMatching(ws, target, (w: Workflow) => WithNode(w, n, nowIso))
  }

  function DeleteNodeIn(ws: seq<Workflow>, target: Option<string>, nodeId: string, nowIso: string): seq<Workflow>
  {
    MapMatching(ws, target, (w: Workflow) => WithoutNode(w, nodeId, nowIso))
  }

  function UpdateNodeIn(ws: seq<Workflow>, target: Option<string>, nodeId: string, u: NodeDataUpdate,
                        nowIso: string): seq<Workflow>
  {
    MapMatching(ws, target, (w: Workflow) => w.(nodes := UpdateNodes(w.nodes, nodeId, u), updatedAt := nowIso))
  }

  function AddEdgeIn(ws: seq<Workflow>, target: Option<string>, e: WorkflowEdge, nowIso: string): seq<Workflow>
  {
    MapMatching(ws, target, (w: Workflow) => WithEdge(w, e, nowIso))
  }

  function DeleteEdgeIn(ws: seq<Workflow>, target: Option<string>, edgeId: string, nowIso: string): seq<Workflow>
  {
    MapMatching(ws, target, (w: Workflow) => WithoutEdge(w, edgeId, nowIso))
  }

  function SplitEdgeIn(ws: seq<Workflow>, target: Option<string>, shifted: seq<WorkflowNode>, n: WorkflowNode,
                       edgeId: string, first: WorkflowEdge, second: WorkflowEdge, nowIso: string): seq<Workflow>
  {
    MapMatching(ws, target, (w: Workflow) => SplitEdge(w, shifted, n, edgeId, first, second, nowIso))
  }

  function ConnectIn(ws: seq<Workflow>, target: Option<string>, n: WorkflowNode, e: WorkflowEdge,
                     nowIso: string): seq<Workflow>
  {
    MapMatching(ws, target, (w: Workflow) => Connected(w, n, e, nowIso))
  }

  /** Rewriting the workflows carrying `target` by `f` keeps every workflow
      closed when `f` keeps each of those closed. */
  lemma MapMatchingKeepsClosed(ws: seq<Workflow>, target: Option<string>, f: Workflow -> Workflow)
    requires AllClosed(ws)
    requires forall i :: 0 <= i < |ws| && Some(ws[i].id) == target ==> EdgesClosed(f(ws[i]))
    ensures AllClosed(MapMatching(ws, target, f))
  {
  }

  /** `addNode`, `duplicateNode` and `pasteNode` keep every workflow closed. */
  lemma AddedNodeKeepsClosed(ws: seq<Workflow>, target: Option<string>, n: WorkflowNode, nowIso: string)
    ensures AllClosed(ws) ==> AllClosed(AddNodeIn(ws, target, n, nowIso))
  {
    if AllClosed(ws) {
      forall i | 0 <= i < |ws| ensures EdgesClosed(WithNode(ws[i], n, nowIso)) {
        WithNodeKeepsInvariants(ws[i], n, nowIso);
      }
      MapMatchingKeepsClosed(ws, target, (w: Workflow) => WithNode(w, n, nowIso));
    }
  }

  /** `deleteNode` and `cutNode` keep every workflow closed. */
  lemma DeletedNodeKeepsClosed(ws: seq<Workflow>, target: Option<string>, nodeId: string, nowIso: string)
    ensures AllClosed(ws) ==> AllClosed(DeleteNodeIn(ws, target, nodeId, nowIso))
  {
    if AllClosed(ws) {
      forall i | 0 <= i < |ws| ensures EdgesClosed(WithoutNode(ws[i], nodeId, nowIso)) {
        WithoutNodeKeepsEdgesClosed(ws[i], nodeId, nowIso);
      }
      MapMatchingKeepsClosed(ws, target, (w: Workflow) => WithoutNode(w, nodeId, nowIso));
    }
  }

  /** `deleteEdge` keeps every workflow closed. */
  lemma DeletedEdgeKeepsClosed(ws: seq<Workflow>, target: Option<string>, edgeId: string, nowIso: string)
    ensures AllClosed(ws) ==> AllClosed(DeleteEdgeIn(ws, target, edgeId, nowIso))
  {
    if AllClosed(ws) {
      forall i | 0 <= i < |ws| ensures EdgesClosed(WithoutEdge(ws[i], edgeId, nowIso)) {
        WithoutEdgeKeepsEdgesClosed(ws[i], edgeId, nowIso);
      }
      MapMatchingKeepsClosed(ws, target, (w: Workflow) => WithoutEdge(w, edgeId, nowIso));
    }
  }

  /** `updateNode` keeps every workflow closed. */
  lemma UpdatedNodeKeepsClosed(ws: seq<Workflow>, target: Option<string>, nodeId: string, u: NodeDataUpdate,
                               nowIso: string)
    ensures AllClosed(ws) ==> AllClosed(UpdateNodeIn(ws, target, nodeId, u, nowIso))
  {
    if AllClosed(ws) {
      forall i | 0 <= i < |ws|
        ensures EdgesClosed(ws[i].(nodes := UpdateNodes(ws[i].nodes, nodeId, u), updatedAt := nowIso))
      {
        UpdateNodesKeepsEdgesClosed(ws[i], nodeId, u);
      }
      MapMatchingKeepsClosed(ws, target,
                             (w: Workflow) => w.(nodes := UpdateNodes(w.nodes, nodeId, u), updatedAt := nowIso));
    }
  }

  /** `addEdge` between two nodes of the active workflow keeps every workflow
      closed, provided no other workflow shares the active id. */
  lemma AddedEdgeKeepsClosed(ws: seq<Workflow>, target: Option<string>, e: WorkflowEdge, nowIso: string)
    requires AllClosed(ws) && UniqueWorkflowIds(ws) && FindWorkflow(ws, target).Some?
    requires HasNode(FindWorkflow(ws, target).value, e.source) && HasNode(FindWorkflow(ws, target).value, e.target)
    ensures AllClosed(AddEdgeIn(ws, target, e, nowIso))
  {
    forall i | 0 <= i < |ws| && Some(ws[i].id) == target ensures EdgesClosed(WithEdge(ws[i], e, nowIso)) {
      ActiveIsUnique(ws, target, i);
      WithEdgeKeepsEdgesClosed(ws[i], e, nowIso);
    }
    MapMatchingKeepsClosed(ws, target, (w: Workflow) => WithEdge(w, e, nowIso));
  }

  /** `insertNodeOnEdge` keeps every workflow closed, provided no other
      workflow shares the active id. */
  lemma SplitKeepsAllClosed(ws: seq<Workflow>, target: Option<string>, edgeId: string, shifted: seq<WorkflowNode>,
                            n: WorkflowNode, first: WorkflowEdge, second: WorkflowEdge, nowIso: string)
    requires AllClosed(ws) && UniqueWorkflowIds(ws) && FindWorkflow(ws, target).Some?
    requires var aw := FindWorkflow(ws, target).value;
             var found := FindEdge(aw.edges, edgeId);
             && found.Some?
             && first.source == found.value.source && first.target == n.id
             && second.source == n.id && second.target == found.value.target
             && var tgt := FindNode(aw.nodes, found.value.target);
                shifted == if tgt.Some? then ShiftRightOf(aw.nodes, tgt.value.position.x) else aw.nodes
    ensures AllClosed(SplitEdgeIn(ws, target, shifted, n, edgeId, first, second, nowIso))
  {
    forall i | 0 <= i < |ws| && Some(ws[i].id) == target
      ensures EdgesClosed(SplitEdge(ws[i], shifted, n, edgeId, first, second, nowIso))
    {
      ActiveIsUnique(ws, target, i);
      SplitKeepsClosed(ws[i], edgeId, n, first, second, nowIso);
    }
    MapMatchingKeepsClosed(ws, target, (w: Workflow) => SplitEdge(w, shifted, n, edgeId, first, second, nowIso));
  }

  /** `addNodeAndConnect` from an existing node keeps every workflow closed,
      provided no other workflow shares the active id. */
  lemma ConnectKeepsAllClosed(ws: seq<Workflow>, target: Option<string>, n: WorkflowNode, e: WorkflowEdge,
                              nowIso: string)
    requires AllClosed(ws) && UniqueWorkflowIds(ws) && FindWorkflow(ws, target).Some?
    requires HasNode(FindWorkflow(ws, target).value, e.source) && e.target == n.id
    ensures AllClosed(ConnectIn(ws, target, n, e, nowIso))
  {
    forall i | 0 <= i < |ws| && Some(ws[i].id) == target
      ensures EdgesClosed(Connected(ws[i], n, e, nowIso))
    {
      ActiveIsUnique(ws, target, i);
      ConnectKeepsEdgesClosed(ws[i], n, e, nowIso);
    }
    MapMatchingKeepsClosed(ws, target, (w: Workflow) => Connected(w, n, e, nowIso));
  }

  // ---- The store's state and the steps of its lookup-first actions ----

  /** The workflow the store treats as active: the first one carrying the active id. */
  function ActiveIn(s: StoreState): Option<Workflow>
  {
    FindWorkflow(s.workflows, s.activeWorkflowId)
  }

  /** A fresh store: the demo workflow, active, with every panel closed. */
  function InitialState(nowIso: string): StoreState
  {
    StoreState([DemoWorkflow(nowIso)], Some("demo-workflow-1"), None, false, false, false, None, "", None,
               None, None, None)
  }

  /** A fresh store's active workflow is the demo, and its graph is well formed. */
  lemma InitialStateWellFormed(nowIso: string)
    ensures ActiveIn(InitialState(nowIso)) == Some(DemoWorkflow(nowIso))
    ensures AllClosed(InitialState(nowIso).workflows) && UniqueWorkflowIds(InitialState(nowIso).workflows)
    ensures UniqueNodeIds(ActiveIn(InitialState(nowIso)).value.nodes)
  {
    DemoEdgesClosed(nowIso);
    DemoNodeIdsUnique();
    ActiveIsUnique([DemoWorkflow(nowIso)], Some("demo-workflow-1"), 0);
  }

  /** The random spot `400 + rx * 200, 200 + ry * 100` for draws in [0, 1). */
  function RandomSpot(rx: real, ry: real): (p: Position)
    ensures 0.0 <= rx < 1.0 && 0.0 <= ry < 1.0 ==> 400.0 <= p.x < 600.0 && 200.0 <= p.y < 300.0
  {
    Position(400.0 + rx * 200.0, 200.0 + ry * 100.0)
  }

  /** A rewrite that keeps workflow ids, applied to the workflows carrying
      the active id, turns the active workflow `aw` into `f(aw)` (when no
      two workflows share an id). */
  lemma FindAfterRewrite(ws: seq<Workflow>, target: Option<string>, f: Workflow -> Workflow)
    requires UniqueWorkflowIds(ws) && FindWorkflow(ws, target).Some?
    requires forall i :: 0 <= i < |ws| ==> f(ws[i]).id == ws[i].id
    ensures FindWorkflow(MapMatching(ws, target, f), target) == Some(f(FindWorkflow(ws, target).value))
    ensures UniqueWorkflowIds(MapMatching(ws, target, f))
  {
    var aw := FindWorkflow(ws, target).value;
    var k :| 0 <= k < |ws| && ws[k] == aw && Some(aw.id) == target;
    var r := MapMatching(ws, target, f);
    assert forall i :: 0 <= i < |ws| ==> r[i].id == ws[i].id;
    ActiveIsUnique(r, target, k);
  }

  /** `deleteWorkflow(id)`: with more than one workflow, every workflow with
      that id goes, the selection is dropped, the right panel closes, and a
      deleted active workflow hands over to the first survivor. */
  function DeleteWorkflowStep(s: StoreState, id: string): (r: StoreState)
    ensures |s.workflows| <= 1 ==> r == s
    ensures |s.workflows| > 1 ==>
              && r.workflows == WithoutWorkflow(s.workflows, id)
              && r.activeWorkflowId == ActiveAfterDelete(r.workflows, s.activeWorkflowId, id)
              && r.selectedNodeId.None? && !r.isRightPanelOpen
              && r.(workflows := s.workflows, activeWorkflowId := s.activeWorkflowId,
                    selectedNodeId := s.selectedNodeId, isRightPanelOpen := s.isRightPanelOpen) == s
    ensures UniqueWorkflowIds(s.workflows) && |s.workflows| >= 1 ==> |r.workflows| >= 1
    ensures AllClosed(s.workflows) ==> AllClosed(r.workflows)
  {
    if |s.workflows| <= 1 then s
    else
      var remaining := WithoutWorkflow(s.workflows, id);
      DeleteKeepsOne(s.workflows, id);
      s.(workflows := remaining, activeWorkflowId := ActiveAfterDelete(remaining, s.activeWorkflowId, id),
         selectedNodeId := None, isRightPanelOpen := false)
  }

  /** `addNode(nodeType, position)`: when there is an active workflow and the
      type is in the catalogue, a node seeded from the catalogue entry is
      appended to it under the id "node-" + nowMs, at `position` or at a
      random spot, and becomes the selection with the right panel open. */
  function AddNodeStep(catalogue: seq<NodeDefinition>, s: StoreState, nodeType: string, position: Option<Position>,
                       nowMs: string, nowIso: string, rx: real, ry: real): (r: StoreState)
    ensures ActiveIn(s).None? || LookupIn(catalogue, nodeType).None? ==> r == s
    ensures ActiveIn(s).Some? && LookupIn(catalogue, nodeType).Some? ==>
              && r.selectedNodeId == Some("node-" + nowMs) && r.isRightPanelOpen
              && r == s.(workflows := r.workflows, selectedNodeId := r.selectedNodeId, isRightPanelOpen := true)
    ensures AllClosed(s.workflows) ==> AllClosed(r.workflows)
  {
    var aw := ActiveIn(s);
    var def := LookupIn(catalogue, nodeType);
    if aw.None? || def.None? then s
    else
      var spot := if position.Some? then position.value else RandomSpot(rx, ry);
      var n := NewNode("node-" + nowMs, nodeType, spot, def.value);
      AddedNodeKeepsClosed(s.workflows, s.activeWorkflowId, n, nowIso);
      s.(workflows := AddNodeIn(s.workflows, s.activeWorkflowId, n, nowIso), selectedNodeId := Some(n.id),
         isRightPanelOpen := true)
  }

  /** `addEdge(source, target, sourceHandle, targetHandle)`: unless there is
      no active workflow or it already has an edge from `source` to `target`
      leaving by `sourceHandle`, a "smoothstep" edge "edge-" + nowMs is
      appended to it; nothing but the workflows changes. */
  function AddEdgeStep(s: StoreState, source: string, target: string, sourceHandle: Option<string>,
                       targetHandle: Option<string>, nowMs: string, nowIso: string): (r: StoreState)
    ensures ActiveIn(s).None? || HasEdgeLike(ActiveIn(s).value, source, target, sourceHandle) ==> r == s
    ensures r == s.(workflows := r.workflows)
  {
    var aw := ActiveIn(s);
    if aw.None? || HasEdgeLike(aw.value, source, target, sourceHandle) then s
    else
      var e := SmoothEdge("edge-" + nowMs, source, target, sourceHandle, targetHandle);
      s.(workflows := AddEdgeIn(s.workflows, s.activeWorkflowId, e, nowIso))
  }

  /** The parts of `insertNodeOnEdge` computed from the active workflow `aw`
      and the split edge `edge`: where the new node goes (the midpoint of the
      edge's ends when both exist, else (400, 200)), and the node list after
      making room right of the edge's target. */
  function InsertSpot(aw: Workflow, edge: WorkflowEdge): (p: Position)
    ensures var src := FindNode(aw.nodes, edge.source);
            var tgt := FindNode(aw.nodes, edge.target);
            && (src.Some? && tgt.Some? ==> p == Midpoint(src.value.position, tgt.value.position))
            && (src.None? || tgt.None? ==> p == Position(400.0, 200.0))
  {
    var src := FindNode(aw.nodes, edge.source);
    var tgt := FindNode(aw.nodes, edge.target);
    if src.Some? && tgt.Some? then Midpoint(src.value.position, tgt.value.position) else Position(400.0, 200.0)
  }

  function InsertShifted(aw: Workflow, edge: WorkflowEdge): (r: seq<WorkflowNode>)
    ensures var tgt := FindNode(aw.nodes, edge.target);
            && (tgt.Some? ==> r == ShiftRightOf(aw.nodes, tgt.value.position.x))
            && (tgt.None? ==> r == aw.nodes)
  {
    var tgt := FindNode(aw.nodes, edge.target);
    if tgt.Some? then ShiftRightOf(aw.nodes, tgt.value.position.x) else aw.nodes
  }

  /** `insertNodeOnEdge(edgeId, nodeType)`: when the active workflow has an
      edge `edgeId` and the type is in the catalogue, a new node "node-" +
      nowMs is put on the edge: the edge gives way to "edge-" + nowMs + "-1"
      (into the new node, keeping the source handle) and "edge-" + nowMs +
      "-2" (out of it, keeping the target handle); the new node is selected,
      the right panel opens and the pending insertion is cleared. */
  function InsertNodeOnEdgeStep(catalogue: seq<NodeDefinition>, s: StoreState, edgeId: string, nodeType: string,
                                nowMs: string, nowIso: string): (r: StoreState)
    ensures (|| ActiveIn(s).None? || FindEdge(ActiveIn(s).value.edges, edgeId).None?
             || LookupIn(catalogue, nodeType).None?) ==> r == s
    ensures (&& ActiveIn(s).Some? && FindEdge(ActiveIn(s).value.edges, edgeId).Some?
             && LookupIn(catalogue, nodeType).Some?) ==>
              && r.selectedNodeId == Some("node-" + nowMs) && r.isRightPanelOpen && r.anpEdgeInsertId.None?
              && r == s.(workflows := r.workflows, selectedNodeId := r.selectedNodeId, isRightPanelOpen := true,
                         anpEdgeInsertId := None)
  {
    var aw := ActiveIn(s);
    if aw.None? then s
    else
      var edge := FindEdge(aw.value.edges, edgeId);
      var def := LookupIn(catalogue, nodeType);
      if edge.None? || def.None? then s
      else
        var n := NewNode("node-" + nowMs, nodeType, InsertSpot(aw.value, edge.value), def.value);
        var first := SmoothEdge("edge-" + nowMs + "-1", edge.value.source, n.id, edge.value.sourceHandle, None);
        var second := SmoothEdge("edge-" + nowMs + "-2", n.id, edge.value.target, None, edge.value.targetHandle);
        s.(workflows := SplitEdgeIn(s.workflows, s.activeWorkflowId, InsertShifted(aw.value, edge.value), n, edgeId,
                                    first, second, nowIso),
           selectedNodeId := Some(n.id), isRightPanelOpen := true, anpEdgeInsertId := None)
  }

  /** `addNodeAndConnect(nodeType, sourceNodeId, sourceHandle)`: when there is
      an active workflow and the type is in the catalogue, a node "node-" +
      nowMs is appended at `spot` (the store computes it as `ConnectSpot`) with
      an edge "edge-" + nowMs into it from `sourceNodeId` by `sourceHandle`;
      the new node is selected, the right panel opens, and the panel's
      pending source is cleared. */
  function ConnectStep(catalogue: seq<NodeDefinition>, s: StoreState, nodeType: string, sourceNodeId: string,
                       sourceHandle: Option<string>, spot: Position, nowMs: string, nowIso: string): (r: StoreState)
    ensures ActiveIn(s).None? || LookupIn(catalogue, nodeType).None? ==> r == s
    ensures ActiveIn(s).Some? && LookupIn(catalogue, nodeType).Some? ==>
              && r.selectedNodeId == Some("node-" + nowMs) && r.isRightPanelOpen
              && r.anpSourceNodeId.None? && r.anpSourceHandle.None?
              && r == s.(workflows := r.workflows, selectedNodeId := r.selectedNodeId, isRightPanelOpen := true,
                         anpSourceNodeId := None, anpSourceHandle := None)
  {
    var aw := ActiveIn(s);
    var def := LookupIn(catalogue, nodeType);
    if aw.None? || def.None? then s
    else
      var n := NewNode("node-" + nowMs, nodeType, spot, def.value);
      var e := SmoothEdge("edge-" + nowMs, sourceNodeId, n.id, sourceHandle, None);
      s.(workflows := ConnectIn(s.workflows, s.activeWorkflowId, n, e, nowIso), selectedNodeId := Some(n.id),
         isRightPanelOpen := true, anpSourceNodeId := None, anpSourceHandle := None)
  }

  /** `duplicateNode(nodeId)`: a copy of the active workflow's node `nodeId`,
      labelled "<label> (copy)", is appended under the id "node-" + nowMs,
      50 right and 50 below the original, and becomes the selection. */
  function DuplicateStep(s: StoreState, nodeId: string, nowMs: string, nowIso: string): (r: StoreState)
    ensures ActiveIn(s).None? || FindNode(ActiveIn(s).value.nodes, nodeId).None? ==> r == s
    ensures ActiveIn(s).Some? && FindNode(ActiveIn(s).value.nodes, nodeId).Some? ==>
              && r.selectedNodeId == Some("node-" + nowMs) && r.isRightPanelOpen
              && r == s.(workflows := r.workflows, selectedNodeId := r.selectedNodeId, isRightPanelOpen := true)
    ensures AllClosed(s.workflows) ==> AllClosed(r.workflows)
  {
    var aw := ActiveIn(s);
    if aw.None? then s
    else
      var found := FindNode(aw.value.nodes, nodeId);
      if found.None? then s
      else
        var n := CopyOf(found.value, "node-" + nowMs, Offset(found.value.position), " (copy)");
        AddedNodeKeepsClosed(s.workflows, s.activeWorkflowId, n, nowIso);
        s.(workflows := AddNodeIn(s.workflows, s.activeWorkflowId, n, nowIso), selectedNodeId := Some(n.id),
           isRightPanelOpen := true)
  }

  /** `copyNode(nodeId)`: the active workflow's node `nodeId` goes to the
      clipboard; nothing else changes. */
  function CopyStep(s: StoreState, nodeId: string): (r: StoreState)
    ensures ActiveIn(s).None? || FindNode(ActiveIn(s).value.nodes, nodeId).None? ==> r == s
    ensures ActiveIn(s).Some? && FindNode(ActiveIn(s).value.nodes, nodeId).Some? ==>
              && r.copiedNode.Some? && r.copiedNode.value in ActiveIn(s).value.nodes && r.copiedNode.value.id == nodeId
              && r == s.(copiedNode := r.copiedNode)
  {
    var aw := ActiveIn(s);
    if aw.None? then s
    else
      var found := FindNode(aw.value.nodes, nodeId);
      if found.None? then s else s.(copiedNode := found)
  }

  /** `pasteNode(position)`: with a node on the clipboard and an active
      workflow, a copy labelled "<label> (pasted)" is appended under the id
      "node-" + nowMs, at `position` or 50 right and 50 below the copied
      node, and becomes the selection; the clipboard keeps the node. */
  function PasteStep(s: StoreState, position: Option<Position>, nowMs: string, nowIso: string): (r: StoreState)
    ensures s.copiedNode.None? || ActiveIn(s).None? ==> r == s
    ensures s.copiedNode.Some? && ActiveIn(s).Some? ==>
              && r.selectedNodeId == Some("node-" + nowMs) && r.isRightPanelOpen
              && r == s.(workflows := r.workflows, selectedNodeId := r.selectedNodeId, isRightPanelOpen := true)
    ensures AllClosed(s.workflows) ==> AllClosed(r.workflows)
  {
    if s.copiedNode.None? || ActiveIn(s).None? then s
    else
      var c := s.copiedNode.value;
      var spot := if position.Some? then position.value else Offset(c.position);
      var n := CopyOf(c, "node-" + nowMs, spot, " (pasted)");
      AddedNodeKeepsClosed(s.workflows, s.activeWorkflowId, n, nowIso);
      s.(workflows := AddNodeIn(s.workflows, s.activeWorkflowId, n, nowIso), selectedNodeId := Some(n.id),
         isRightPanelOpen := true)
  }

  /** `cutNode(nodeId)`: the active workflow's node `nodeId` goes to the
      clipboard and is deleted together with its edges; the selection is
      dropped and the right panel closes. */
  function CutStep(s: StoreState, nodeId: string, nowIso: string): (r: StoreState)
    ensures ActiveIn(s).None? || FindNode(ActiveIn(s).value.nodes, nodeId).None? ==> r == s
    ensures ActiveIn(s).Some? && FindNode(ActiveIn(s).value.nodes, nodeId).Some? ==>
              && r.copiedNode == FindNode(ActiveIn(s).value.nodes, nodeId)
              && r.selectedNodeId.None? && !r.isRightPanelOpen
              && r == s.(workflows := r.workflows, copiedNode := r.copiedNode, selectedNodeId := None,
                         isRightPanelOpen := false)
    ensures r == s.(workflows := r.workflows, copiedNode := r.copiedNode, selectedNodeId := r.selectedNodeId,
                    isRightPanelOpen := r.isRightPanelOpen)
    ensures AllClosed(s.workflows) ==> AllClosed(r.workflows)
  {
    var aw := ActiveIn(s);
    if aw.None? then s
    else
      var found := FindNode(aw.value.nodes, nodeId);
      if found.None? then s
      else
        DeletedNodeKeepsClosed(s.workflows, s.activeWorkflowId, nodeId, nowIso);
        s.(workflows := DeleteNodeIn(s.workflows, s.activeWorkflowId, nodeId, nowIso), copiedNode := found,
           selectedNodeId := None, isRightPanelOpen := false)
  }

  // ---- What the steps do to the active workflow ----

  /** `addNode` appends one node to the active workflow: its id is
      "node-" + nowMs, its type the requested one, its label and node type
      the catalogue entry's, its parameters the entry's defaults and its
      output empty; it sits at `position`, or inside the random box when no
      position is given. The edges stay as they are. */
  lemma AddNodeStepAppends(catalogue: seq<NodeDefinition>, s: StoreState, nodeType: string, position: Option<Position>,
                           nowMs: string, nowIso: string, rx: real, ry: real)
    requires UniqueWorkflowIds(s.workflows) && ActiveIn(s).Some? && LookupIn(catalogue, nodeType).Some?
    ensures var aw := ActiveIn(s).value;
            var d := LookupIn(catalogue, nodeType).value;
            var r := AddNodeStep(catalogue, s, nodeType, position, nowMs, nowIso, rx, ry);
            && UniqueWorkflowIds(r.workflows) && ActiveIn(r).Some?
            && ActiveIn(r).value.edges == aw.edges
            && |ActiveIn(r).value.nodes| == |aw.nodes| + 1 && ActiveIn(r).value.nodes[..|aw.nodes|] == aw.nodes
            && var n := ActiveIn(r).value.nodes[|aw.nodes|];
               && n.id == "node-" + nowMs && n.kind == nodeType
               && n.data.title == d.title && n.data.nodeType == d.kind
               && n.data.parameters == Some(SeedParameters(d)) && n.data.output == Some(map[])
               && (position.Some? ==> n.position == position.value)
               && (position.None? && 0.0 <= rx < 1.0 && 0.0 <= ry < 1.0 ==>
                     400.0 <= n.position.x < 600.0 && 200.0 <= n.position.y < 300.0)
  {
    var d := LookupIn(catalogue, nodeType).value;
    var spot := if position.Some? then position.value else RandomSpot(rx, ry);
    var n := NewNode("node-" + nowMs, nodeType, spot, d);
    FindAfterRewrite(s.workflows, s.activeWorkflowId, (w: Workflow) => WithNode(w, n, nowIso));
  }

  /** `addEdge` appends exactly the new edge to the active workflow when no
      edge like it is there yet. */
  lemma AddEdgeStepAppends(s: StoreState, source: string, target: string, sourceHandle: Option<string>,
                           targetHandle: Option<string>, nowMs: string, nowIso: string)
    requires UniqueWorkflowIds(s.workflows) && ActiveIn(s).Some?
    requires !HasEdgeLike(ActiveIn(s).value, source, target, sourceHandle)
    ensures var aw := ActiveIn(s).value;
            var r := AddEdgeStep(s, source, target, sourceHandle, targetHandle, nowMs, nowIso);
            && UniqueWorkflowIds(r.workflows) && ActiveIn(r).Some?
            && ActiveIn(r).value.nodes == aw.nodes
            && ActiveIn(r).value.edges == aw.edges + [SmoothEdge("edge-" + nowMs, source, target, sourceHandle, targetHandle)]
  {
    var e := SmoothEdge("edge-" + nowMs, source, target, sourceHandle, targetHandle);
    FindAfterRewrite(s.workflows, s.activeWorkflowId, (w: Workflow) => WithEdge(w, e, nowIso));
  }

  /** Connecting the same two nodes by the same handle twice adds one edge:
      the second `addEdge` finds the first one's edge and changes nothing,
      whatever its target handle and clock reading. */
  lemma AddEdgeStepIdempotent(s: StoreState, source: string, target: string, sourceHandle: Option<string>,
                              targetHandle: Option<string>, otherTargetHandle: Option<string>,
                              nowMs: string, nowIso: string, laterMs: string, laterIso: string)
    requires UniqueWorkflowIds(s.workflows)
    ensures var r := AddEdgeStep(s, source, target, sourceHandle, targetHandle, nowMs, nowIso);
            AddEdgeStep(r, source, target, sourceHandle, otherTargetHandle, laterMs, laterIso) == r
  {
    if ActiveIn(s).Some? && !HasEdgeLike(ActiveIn(s).value, source, target, sourceHandle) {
      var e := SmoothEdge("edge-" + nowMs, source, target, sourceHandle, targetHandle);
      AddEdgeStepAppends(s, source, target, sourceHandle, targetHandle, nowMs, nowIso);
      WithEdgeHasEdgeLike(ActiveIn(s).value, e, nowIso);
    }
  }

  /** `addEdge` between two nodes of the active workflow keeps every workflow closed. */
  lemma AddEdgeStepKeepsClosed(s: StoreState, source: string, target: string, sourceHandle: Option<string>,
                               targetHandle: Option<string>, nowMs: string, nowIso: string)
    requires AllClosed(s.workflows) && UniqueWorkflowIds(s.workflows) && ActiveIn(s).Some?
    requires HasNode(ActiveIn(s).value, source) && HasNode(ActiveIn(s).value, target)
    ensures AllClosed(AddEdgeStep(s, source, target, sourceHandle, targetHandle, nowMs, nowIso).workflows)
  {
    if !HasEdgeLike(ActiveIn(s).value, source, target, sourceHandle) {
      var e := SmoothEdge("edge-" + nowMs, source, target, sourceHandle, targetHandle);
      AddedEdgeKeepsClosed(s.workflows, s.activeWorkflowId, e, nowIso);
    }
  }

  /** `addEdge` does not check its ends: an edge from an id that is not a
      node of the active workflow is appended all the same, and the active
      workflow is no longer closed. */
  lemma AddEdgeStepFromMissingSourceDangles(s: StoreState, source: string, target: string,
                                            sourceHandle: Option<string>, targetHandle: Option<string>,
                                            nowMs: string, nowIso: string)
    requires UniqueWorkflowIds(s.workflows) && ActiveIn(s).Some?
    requires !HasEdgeLike(ActiveIn(s).value, source, target, sourceHandle) && !HasNode(ActiveIn(s).value, source)
    ensures var r := AddEdgeStep(s, source, target, sourceHandle, targetHandle, nowMs, nowIso);
            ActiveIn(r).Some? && !EdgesClosed(ActiveIn(r).value)
  {
    var aw := ActiveIn(s).value;
    AddEdgeStepAppends(s, source, target, sourceHandle, targetHandle, nowMs, nowIso);
    var nw := ActiveIn(AddEdgeStep(s, source, target, sourceHandle, targetHandle, nowMs, nowIso)).value;
    assert nw.edges[|aw.edges|].source == source;
    assert !HasNode(nw, source);
  }

  /** `insertNodeOnEdge` puts the new node on the edge: it is appended at
      `InsertSpot`, every older node keeps its id (nodes at or right of the
      target move right), and the edges end with the two halves of the split
      edge, which run from its source into the new node and from the new node
      to its target (`InsertNodeOnEdgeStepKeepsEdges` says what stands before
      them). */
  lemma InsertNodeOnEdgeStepSplits(catalogue: seq<NodeDefinition>, s: StoreState, edgeId: string, nodeType: string,
                                   nowMs: string, nowIso: string)
    requires UniqueWorkflowIds(s.workflows) && ActiveIn(s).Some?
    requires FindEdge(ActiveIn(s).value.edges, edgeId).Some? && LookupIn(catalogue, nodeType).Some?
    ensures var aw := ActiveIn(s).value;
            var edge := FindEdge(aw.edges, edgeId).value;
            var r := InsertNodeOnEdgeStep(catalogue, s, edgeId, nodeType, nowMs, nowIso);
            && UniqueWorkflowIds(r.workflows) && ActiveIn(r).Some?
            && var nw := ActiveIn(r).value;
               && |nw.nodes| == |aw.nodes| + 1
               && (forall i :: 0 <= i < |aw.nodes| ==> nw.nodes[i].id == aw.nodes[i].id)
               && nw.nodes[|aw.nodes|].id == "node-" + nowMs && nw.nodes[|aw.nodes|].kind == nodeType
               && nw.nodes[|aw.nodes|].position == InsertSpot(aw, edge)
               && InsertMoves(aw, edge, nw.nodes)
               && |nw.edges| >= 2
               && nw.edges[|nw.edges| - 2].source == edge.source && nw.edges[|nw.edges| - 2].target == "node-" + nowMs
               && nw.edges[|nw.edges| - 2].sourceHandle == edge.sourceHandle
               && nw.edges[|nw.edges| - 1].source == "node-" + nowMs && nw.edges[|nw.edges| - 1].target == edge.target
               && nw.edges[|nw.edges| - 1].targetHandle == edge.targetHandle
  {
    var aw := ActiveIn(s).value;
    var edge := FindEdge(aw.edges, edgeId).value;
    var n := NewNode("node-" + nowMs, nodeType, InsertSpot(aw, edge), LookupIn(catalogue, nodeType).value);
    InsertStepActive(catalogue, s, edgeId, nodeType, nowMs, nowIso);
    SplitShape(aw, edge, n, edgeId, SmoothEdge("edge-" + nowMs + "-1", edge.source, n.id, edge.sourceHandle, None),
               SmoothEdge("edge-" + nowMs + "-2", n.id, edge.target, None, edge.targetHandle), nowIso);
  }

  /** Before the two halves, `insertNodeOnEdge` leaves exactly the edges
      `deleteEdge(edgeId)` would leave: every old edge but the split one, in
      order and as often as before. */
  lemma InsertNodeOnEdgeStepKeepsEdges(catalogue: seq<NodeDefinition>, s: StoreState, edgeId: string,
                                       nodeType: string, nowMs: string, nowIso: string)
    requires UniqueWorkflowIds(s.workflows) && ActiveIn(s).Some?
    requires FindEdge(ActiveIn(s).value.edges, edgeId).Some? && LookupIn(catalogue, nodeType).Some?
    ensures var aw := ActiveIn(s).value;
            var r := InsertNodeOnEdgeStep(catalogue, s, edgeId, nodeType, nowMs, nowIso);
            && ActiveIn(r).Some? && |ActiveIn(r).value.edges| >= 2
            && var kept := ActiveIn(r).value.edges[..|ActiveIn(r).value.edges| - 2];
               && kept == WithoutEdge(aw, edgeId, nowIso).edges
               && (forall i :: 0 <= i < |kept| ==> kept[i] in aw.edges && kept[i].id != edgeId)
               && (forall i :: 0 <= i < |aw.edges| && aw.edges[i].id != edgeId ==> aw.edges[i] in kept)
  {
    InsertStepActive(catalogue, s, edgeId, nodeType, nowMs, nowIso);
    var nw := ActiveIn(InsertNodeOnEdgeStep(catalogue, s, edgeId, nodeType, nowMs, nowIso)).value;
    assert nw.edges[..|nw.edges| - 2] == WithoutEdge(ActiveIn(s).value, edgeId, nowIso).edges;
  }

  /** How `insertNodeOnEdge` moves the old nodes: with the edge's target
      found, every node at or right of the target's x moves right by
      `NodeSpacingX` and the rest stay; without it nothing moves. */
  predicate InsertMoves(aw: Workflow, edge: WorkflowEdge, nodes: seq<WorkflowNode>)
    requires |nodes| >= |aw.nodes|
  {
    var tgt := FindNode(aw.nodes, edge.target);
    forall i :: 0 <= i < |aw.nodes| ==>
      && nodes[i].position.y == aw.nodes[i].position.y
      && (tgt.Some? && aw.nodes[i].position.x >= tgt.value.position.x ==>
            nodes[i].position.x == aw.nodes[i].position.x + NodeSpacingX)
      && (tgt.None? || aw.nodes[i].position.x < tgt.value.position.x ==> nodes[i].position.x == aw.nodes[i].position.x)
  }

  /** The split of a workflow keeps its node ids in place, moves them as
      `InsertMoves` says and appends the new node. */
  lemma SplitShape(aw: Workflow, edge: WorkflowEdge, n: WorkflowNode, edgeId: string, first: WorkflowEdge,
                   second: WorkflowEdge, nowIso: string)
    ensures var nw := SplitEdge(aw, InsertShifted(aw, edge), n, edgeId, first, second, nowIso);
            && |nw.nodes| == |aw.nodes| + 1 && nw.nodes[|aw.nodes|] == n
            && (forall i :: 0 <= i < |aw.nodes| ==> nw.nodes[i].id == aw.nodes[i].id)
            && InsertMoves(aw, edge, nw.nodes)
  {
    var shifted := InsertShifted(aw, edge);
    var nw := SplitEdge(aw, shifted, n, edgeId, first, second, nowIso);
    assert nw.nodes == shifted + [n];
    var tgt := FindNode(aw.nodes, edge.target);
    if tgt.Some? {
      assert forall i :: 0 <= i < |aw.nodes| ==> shifted[i] == ShiftNode(aw.nodes[i], tgt.value.position.x);
    }
  }

  /** The active workflow after `insertNodeOnEdge` is the split of the one before. */
  lemma InsertStepActive(catalogue: seq<NodeDefinition>, s: StoreState, edgeId: string, nodeType: string,
                         nowMs: string, nowIso: string)
    requires UniqueWorkflowIds(s.workflows) && ActiveIn(s).Some?
    requires FindEdge(ActiveIn(s).value.edges, edgeId).Some? && LookupIn(catalogue, nodeType).Some?
    ensures var aw := ActiveIn(s).value;
            var edge := FindEdge(aw.edges, edgeId).value;
            var n := NewNode("node-" + nowMs, nodeType, InsertSpot(aw, edge), LookupIn(catalogue, nodeType).value);
            var first := SmoothEdge("edge-" + nowMs + "-1", edge.source, n.id, edge.sourceHandle, None);
            var second := SmoothEdge("edge-" + nowMs + "-2", n.id, edge.target, None, edge.targetHandle);
            var r := InsertNodeOnEdgeStep(catalogue, s, edgeId, nodeType, nowMs, nowIso);
            && UniqueWorkflowIds(r.workflows)
            && ActiveIn(r) == Some(SplitEdge(aw, InsertShifted(aw, edge), n, edgeId, first, second, nowIso))
  {
    var aw := ActiveIn(s).value;
    var edge := FindEdge(aw.edges, edgeId).value;
    var n := NewNode("node-" + nowMs, nodeType, InsertSpot(aw, edge), LookupIn(catalogue, nodeType).value);
    var first := SmoothEdge("edge-" + nowMs + "-1", edge.source, n.id, edge.sourceHandle, None);
    var second := SmoothEdge("edge-" + nowMs + "-2", n.id, edge.target, None, edge.targetHandle);
    SplitEdgeInActive(s.workflows, s.activeWorkflowId, InsertShifted(aw, edge), n, edgeId, first, second, nowIso);
  }

  /** Splitting an edge in the workflows carrying the active id turns the
      active workflow `aw` into its split. */
  lemma SplitEdgeInActive(ws: seq<Workflow>, target: Option<string>, shifted: seq<WorkflowNode>, n: WorkflowNode,
                          edgeId: string, first: WorkflowEdge, second: WorkflowEdge, nowIso: string)
    requires UniqueWorkflowIds(ws) && FindWorkflow(ws, target).Some?
    ensures FindWorkflow(SplitEdgeIn(ws, target, shifted, n, edgeId, first, second, nowIso), target)
            == Some(SplitEdge(FindWorkflow(ws, target).value, shifted, n, edgeId, first, second, nowIso))
    ensures UniqueWorkflowIds(SplitEdgeIn(ws, target, shifted, n, edgeId, first, second, nowIso))
  {
    FindAfterRewrite(ws, target, (w: Workflow) => SplitEdge(w, shifted, n, edgeId, first, second, nowIso));
  }

  /** When the split edge's id is unique, `insertNodeOnEdge` adds exactly one
      edge: one goes and two come. */
  lemma InsertNodeOnEdgeStepAddsOneEdge(catalogue: seq<NodeDefinition>, s: StoreState, edgeId: string,
                                        nodeType: string, nowMs: string, nowIso: string)
    requires UniqueWorkflowIds(s.workflows) && ActiveIn(s).Some?
    requires FindEdge(ActiveIn(s).value.edges, edgeId).Some? && LookupIn(catalogue, nodeType).Some?
    requires var es := ActiveIn(s).value.edges;
             forall i, j :: 0 <= i < j < |es| ==> es[i].id != es[j].id
    ensures var r := InsertNodeOnEdgeStep(catalogue, s, edgeId, nodeType, nowMs, nowIso);
            ActiveIn(r).Some? && |ActiveIn(r).value.edges| == |ActiveIn(s).value.edges| + 1
  {
    var aw := ActiveIn(s).value;
    var edge := FindEdge(aw.edges, edgeId).value;
    var d := LookupIn(catalogue, nodeType).value;
    var n := NewNode("node-" + nowMs, nodeType, InsertSpot(aw, edge), d);
    var first := SmoothEdge("edge-" + nowMs + "-1", edge.source, n.id, edge.sourceHandle, None);
    var second := SmoothEdge("edge-" + nowMs + "-2", n.id, edge.target, None, edge.targetHandle);
    var shifted := InsertShifted(aw, edge);
    InsertStepActive(catalogue, s, edgeId, nodeType, nowMs, nowIso);
    var k :| 0 <= k < |aw.edges| && aw.edges[k] == edge && edge.id == edgeId;
    SplitEdgeAddsOneEdge(aw, k, shifted, n, first, second, nowIso);
  }

  /** `insertNodeOnEdge` keeps every workflow closed. */
  lemma InsertNodeOnEdgeStepKeepsClosed(catalogue: seq<NodeDefinition>, s: StoreState, edgeId: string,
                                        nodeType: string, nowMs: string, nowIso: string)
    requires AllClosed(s.workflows) && UniqueWorkflowIds(s.workflows)
    ensures AllClosed(InsertNodeOnEdgeStep(catalogue, s, edgeId, nodeType, nowMs, nowIso).workflows)
  {
    var aw := ActiveIn(s);
    if aw.Some? && FindEdge(aw.value.edges, edgeId).Some? && LookupIn(catalogue, nodeType).Some? {
      var edge := FindEdge(aw.value.edges, edgeId).value;
      var d := LookupIn(catalogue, nodeType).value;
      var n := NewNode("node-" + nowMs, nodeType, InsertSpot(aw.value, edge), d);
      var first := SmoothEdge("edge-" + nowMs + "-1", edge.source, n.id, edge.sourceHandle, None);
      var second := SmoothEdge("edge-" + nowMs + "-2", n.id, edge.target, None, edge.targetHandle);
      SplitKeepsAllClosed(s.workflows, s.activeWorkflowId, edgeId, InsertShifted(aw.value, edge), n, first, second,
                          nowIso);
    }
  }

  /** `addNodeAndConnect` appends the new node at `spot` and an edge
      into it from the source by the source handle, so the two are now
      connected; nothing else in the active workflow changes. */
  lemma ConnectStepConnects(catalogue: seq<NodeDefinition>, s: StoreState, nodeType: string, sourceNodeId: string,
                            sourceHandle: Option<string>, spot: Position, nowMs: string, nowIso: string)
    requires UniqueWorkflowIds(s.workflows) && ActiveIn(s).Some? && LookupIn(catalogue, nodeType).Some?
    ensures var aw := ActiveIn(s).value;
            var r := ConnectStep(catalogue, s, nodeType, sourceNodeId, sourceHandle, spot, nowMs, nowIso);
            && UniqueWorkflowIds(r.workflows) && ActiveIn(r).Some?
            && var nw := ActiveIn(r).value;
               && |nw.nodes| == |aw.nodes| + 1 && nw.nodes[..|aw.nodes|] == aw.nodes
               && nw.nodes[|aw.nodes|].id == "node-" + nowMs && nw.nodes[|aw.nodes|].kind == nodeType
               && nw.nodes[|aw.nodes|].position == spot
               && |nw.edges| == |aw.edges| + 1 && nw.edges[..|aw.edges|] == aw.edges
               && HasEdgeLike(nw, sourceNodeId, "node-" + nowMs, sourceHandle)
  {
    var aw := ActiveIn(s).value;
    var n := NewNode("node-" + nowMs, nodeType, spot, LookupIn(catalogue, nodeType).value);
    ConnectStepActive(catalogue, s, nodeType, sourceNodeId, sourceHandle, spot, nowMs, nowIso);
    ConnectShape(aw, n, SmoothEdge("edge-" + nowMs, sourceNodeId, n.id, sourceHandle, None), nowIso);
  }

  /** The active workflow after `addNodeAndConnect` is the one before with the
      new node and its edge appended. */
  lemma ConnectStepActive(catalogue: seq<NodeDefinition>, s: StoreState, nodeType: string, sourceNodeId: string,
                          sourceHandle: Option<string>, spot: Position, nowMs: string, nowIso: string)
    requires UniqueWorkflowIds(s.workflows) && ActiveIn(s).Some? && LookupIn(catalogue, nodeType).Some?
    ensures var aw := ActiveIn(s).value;
            var n := NewNode("node-" + nowMs, nodeType, spot, LookupIn(catalogue, nodeType).value);
            var e := SmoothEdge("edge-" + nowMs, sourceNodeId, n.id, sourceHandle, None);
            var r := ConnectStep(catalogue, s, nodeType, sourceNodeId, sourceHandle, spot, nowMs, nowIso);
            && UniqueWorkflowIds(r.workflows)
            && ActiveIn(r) == Some(Connected(aw, n, e, nowIso))
  {
    var aw := ActiveIn(s).value;
    var n := NewNode("node-" + nowMs, nodeType, spot, LookupIn(catalogue, nodeType).value);
    var e := SmoothEdge("edge-" + nowMs, sourceNodeId, n.id, sourceHandle, None);
    ConnectInActive(s.workflows, s.activeWorkflowId, n, e, nowIso);
  }

  /** `ConnectIn` turns the active workflow into itself with the node and the edge appended. */
  lemma ConnectInActive(ws: seq<Workflow>, target: Option<string>, n: WorkflowNode, e: WorkflowEdge, nowIso: string)
    requires UniqueWorkflowIds(ws) && FindWorkflow(ws, target).Some?
    ensures FindWorkflow(ConnectIn(ws, target, n, e, nowIso), target)
            == Some(Connected(FindWorkflow(ws, target).value, n, e, nowIso))
    ensures UniqueWorkflowIds(ConnectIn(ws, target, n, e, nowIso))
  {
    FindAfterRewrite(ws, target, (w: Workflow) => Connected(w, n, e, nowIso));
  }

  /** Adding a node to the workflows carrying the active id turns the active
      workflow `aw` into `aw` with the node appended. */
  lemma AddNodeInActive(ws: seq<Workflow>, target: Option<string>, n: WorkflowNode, nowIso: string)
    requires UniqueWorkflowIds(ws) && FindWorkflow(ws, target).Some?
    ensures FindWorkflow(AddNodeIn(ws, target, n, nowIso), target) == Some(WithNode(FindWorkflow(ws, target).value, n, nowIso))
    ensures UniqueWorkflowIds(AddNodeIn(ws, target, n, nowIso))
  {
    FindAfterRewrite(ws, target, (w: Workflow) => WithNode(w, n, nowIso));
  }

  /** Deleting a node from the workflows carrying the active id turns the
      active workflow `aw` into `aw` without the node and its edges. */
  lemma DeleteNodeInActive(ws: seq<Workflow>, target: Option<string>, nodeId: string, nowIso: string)
    requires UniqueWorkflowIds(ws) && FindWorkflow(ws, target).Some?
    ensures FindWorkflow(DeleteNodeIn(ws, target, nodeId, nowIso), target)
            == Some(WithoutNode(FindWorkflow(ws, target).value, nodeId, nowIso))
    ensures UniqueWorkflowIds(DeleteNodeIn(ws, target, nodeId, nowIso))
  {
    FindAfterRewrite(ws, target, (w: Workflow) => WithoutNode(w, nodeId, nowIso));
  }

  /** Appending a node and an edge into it extends both lists and connects the two. */
  lemma ConnectShape(aw: Workflow, n: WorkflowNode, e: WorkflowEdge, nowIso: string)
    ensures var nw := Connected(aw, n, e, nowIso);
            && |nw.nodes| == |aw.nodes| + 1 && nw.nodes[..|aw.nodes|] == aw.nodes && nw.nodes[|aw.nodes|] == n
            && |nw.edges| == |aw.edges| + 1 && nw.edges[..|aw.edges|] == aw.edges
            && HasEdgeLike(nw, e.source, e.target, e.sourceHandle)
  {
    var w1 := WithNode(aw, n, nowIso);
    WithEdgeHasEdgeLike(w1, e, nowIso);
  }

  /** `addNodeAndConnect` from a node of the active workflow keeps every workflow closed. */
  lemma ConnectStepKeepsClosed(catalogue: seq<NodeDefinition>, s: StoreState, nodeType: string, sourceNodeId: string,
                               sourceHandle: Option<string>, spot: Position, nowMs: string, nowIso: string)
    requires AllClosed(s.workflows) && UniqueWorkflowIds(s.workflows) && ActiveIn(s).Some?
    requires HasNode(ActiveIn(s).value, sourceNodeId)
    ensures AllClosed(ConnectStep(catalogue, s, nodeType, sourceNodeId, sourceHandle, spot, nowMs, nowIso).workflows)
  {
    var aw := ActiveIn(s).value;
    if LookupIn(catalogue, nodeType).Some? {
        var n := NewNode("node-" + nowMs, nodeType, spot, LookupIn(catalogue, nodeType).value);
      var e := SmoothEdge("edge-" + nowMs, sourceNodeId, n.id, sourceHandle, None);
      ConnectKeepsAllClosed(s.workflows, s.activeWorkflowId, n, e, nowIso);
    }
  }

  /** The source node is not checked: from a missing source (other than the
      new node's own id) the new edge dangles and the active workflow is no
      longer closed. */
  lemma ConnectStepFromMissingSourceDangles(catalogue: seq<NodeDefinition>, s: StoreState, nodeType: string,
                                            sourceNodeId: string, sourceHandle: Option<string>, spot: Position,
                                            nowMs: string, nowIso: string)
    requires UniqueWorkflowIds(s.workflows) && ActiveIn(s).Some? && LookupIn(catalogue, nodeType).Some?
    requires !HasNode(ActiveIn(s).value, sourceNodeId) && sourceNodeId != "node-" + nowMs
    ensures var r := ConnectStep(catalogue, s, nodeType, sourceNodeId, sourceHandle, spot, nowMs, nowIso);
            ActiveIn(r).Some? && !EdgesClosed(ActiveIn(r).value)
  {
    var aw := ActiveIn(s).value;
    var n := NewNode("node-" + nowMs, nodeType, spot, LookupIn(catalogue, nodeType).value);
    var e := SmoothEdge("edge-" + nowMs, sourceNodeId, n.id, sourceHandle, None);
    ConnectInActive(s.workflows, s.activeWorkflowId, n, e, nowIso);
    ConnectFromMissingSourceDangles(aw, n, e, nowIso);
  }

  /** `duplicateNode` appends a copy of the node under the new id, labelled
      "<label> (copy)", at the offset spot, where it does not overlap the
      original; the edges stay as they are. */
  lemma DuplicateStepCopies(s: StoreState, nodeId: string, nowMs: string, nowIso: string)
    requires UniqueWorkflowIds(s.workflows) && ActiveIn(s).Some? && FindNode(ActiveIn(s).value.nodes, nodeId).Some?
    ensures var aw := ActiveIn(s).value;
            var orig := FindNode(aw.nodes, nodeId).value;
            var r := DuplicateStep(s, nodeId, nowMs, nowIso);
            && UniqueWorkflowIds(r.workflows) && ActiveIn(r).Some?
            && var nw := ActiveIn(r).value;
               && nw.edges == aw.edges && |nw.nodes| == |aw.nodes| + 1 && nw.nodes[..|aw.nodes|] == aw.nodes
               && var c := nw.nodes[|aw.nodes|];
                  && c == CopyOf(orig, "node-" + nowMs, Offset(orig.position), " (copy)")
                  && !Near(orig, c.position)
  {
    var aw := ActiveIn(s).value;
    var orig := FindNode(aw.nodes, nodeId).value;
    var c := CopyOf(orig, "node-" + nowMs, Offset(orig.position), " (copy)");
    AddNodeInActive(s.workflows, s.activeWorkflowId, c, nowIso);
    OffsetClearsOriginal(orig);
  }

  /** `cutNode` moves the node to the clipboard: afterwards the active
      workflow has no node with that id and no edge touching it, and the
      clipboard holds the node as it was. */
  lemma CutStepMovesToClipboard(s: StoreState, nodeId: string, nowIso: string)
    requires UniqueWorkflowIds(s.workflows) && ActiveIn(s).Some? && FindNode(ActiveIn(s).value.nodes, nodeId).Some?
    ensures var aw := ActiveIn(s).value;
            var r := CutStep(s, nodeId, nowIso);
            && UniqueWorkflowIds(r.workflows) && ActiveIn(r).Some?
            && r.copiedNode.Some? && r.copiedNode.value in aw.nodes && r.copiedNode.value.id == nodeId
            && !HasNode(ActiveIn(r).value, nodeId)
            && (forall i :: 0 <= i < |ActiveIn(r).value.edges| ==> !Touches(ActiveIn(r).value.edges[i], nodeId))
  {
    DeleteNodeInActive(s.workflows, s.activeWorkflowId, nodeId, nowIso);
  }

  /** `pasteNode` appends a copy of the clipboard node under the new id,
      labelled "<label> (pasted)", at `position` or 50 right and 50 below the
      copied node; the edges stay as they are and the clipboard keeps the node. */
  lemma PasteStepAppends(s: StoreState, position: Option<Position>, nowMs: string, nowIso: string)
    requires UniqueWorkflowIds(s.workflows) && ActiveIn(s).Some? && s.copiedNode.Some?
    ensures var aw := ActiveIn(s).value;
            var c := s.copiedNode.value;
            var r := PasteStep(s, position, nowMs, nowIso);
            && UniqueWorkflowIds(r.workflows) && ActiveIn(r).Some? && r.copiedNode == s.copiedNode
            && var nw := ActiveIn(r).value;
               && nw.edges == aw.edges && |nw.nodes| == |aw.nodes| + 1 && nw.nodes[..|aw.nodes|] == aw.nodes
               && var p := nw.nodes[|aw.nodes|];
                  && p == CopyOf(c, "node-" + nowMs, if position.Some? then position.value else Offset(c.position), " (pasted)")
  {
    var c := s.copiedNode.value;
    var spot := if position.Some? then position.value else Offset(c.position);
    var p := CopyOf(c, "node-" + nowMs, spot, " (pasted)");
    AddNodeInActive(s.workflows, s.activeWorkflowId, p, nowIso);
  }

  /** Cutting a node and pasting it back without a position restores a copy
      of it, labelled "<label> (pasted)", 50 right and 50 below where it was,
      into the workflow the cut left behind. */
  lemma CutThenPaste(s: StoreState, nodeId: string, cutIso: string, nowMs: string, nowIso: string)
    requires UniqueWorkflowIds(s.workflows) && ActiveIn(s).Some? && FindNode(ActiveIn(s).value.nodes, nodeId).Some?
    ensures var aw := ActiveIn(s).value;
            var orig := FindNode(aw.nodes, nodeId).value;
            var cut := CutStep(s, nodeId, cutIso);
            var r := PasteStep(cut, None, nowMs, nowIso);
            && ActiveIn(cut).Some? && ActiveIn(r).Some?
            && ActiveIn(r).value.nodes == ActiveIn(cut).value.nodes + [CopyOf(orig, "node-" + nowMs, Offset(orig.position), " (pasted)")]
            && ActiveIn(r).value.edges == ActiveIn(cut).value.edges
            && r.copiedNode == Some(orig)
  {
    var aw := ActiveIn(s).value;
    var orig := FindNode(aw.nodes, nodeId).value;
    DeleteNodeInActive(s.workflows, s.activeWorkflowId, nodeId, cutIso);
    var cut := CutStep(s, nodeId, cutIso);
    var c := CopyOf(orig, "node-" + nowMs, Offset(orig.position), " (pasted)");
    AddNodeInActive(cut.workflows, cut.activeWorkflowId, c, nowIso);
  }

  // ---- What the direct rewrites do to the active workflow ----

  /** `deleteNode` removes the node and every edge touching it from the
      active workflow and keeps all its other nodes and edges. */
  lemma DeleteNodeInRemoves(ws: seq<Workflow>, target: Option<string>, nodeId: string, nowIso: string)
    requires UniqueWorkflowIds(ws) && FindWorkflow(ws, target).Some?
    ensures var aw := FindWorkflow(ws, target).value;
            var r := DeleteNodeIn(ws, target, nodeId, nowIso);
            && UniqueWorkflowIds(r) && FindWorkflow(r, target).Some?
            && var nw := FindWorkflow(r, target).value;
               && !HasNode(nw, nodeId) && (forall i :: 0 <= i < |nw.edges| ==> !Touches(nw.edges[i], nodeId))
               && (forall i :: 0 <= i < |aw.nodes| && aw.nodes[i].id != nodeId ==> aw.nodes[i] in nw.nodes)
               && (forall i :: 0 <= i < |aw.edges| && !Touches(aw.edges[i], nodeId) ==> aw.edges[i] in nw.edges)
  {
    FindAfterRewrite(ws, target, (w: Workflow) => WithoutNode(w, nodeId, nowIso));
  }

  /** `deleteEdge` removes the edges with that id from the active workflow
      and keeps its nodes and its other edges. */
  lemma DeleteEdgeInRemoves(ws: seq<Workflow>, target: Option<string>, edgeId: string, nowIso: string)
    requires UniqueWorkflowIds(ws) && FindWorkflow(ws, target).Some?
    ensures var aw := FindWorkflow(ws, target).value;
            var r := DeleteEdgeIn(ws, target, edgeId, nowIso);
            && UniqueWorkflowIds(r) && FindWorkflow(r, target).Some?
            && var nw := FindWorkflow(r, target).value;
               && nw.nodes == aw.nodes && FindEdge(nw.edges, edgeId).None?
               && (forall i :: 0 <= i < |aw.edges| && aw.edges[i].id != edgeId ==> aw.edges[i] in nw.edges)
  {
    FindAfterRewrite(ws, target, (w: Workflow) => WithoutEdge(w, edgeId, nowIso));
  }

  /** `updateNode` merges the update into the data of the active workflow's
      nodes with that id; ids, types, positions, other nodes and edges stay. */
  lemma UpdateNodeInMerges(ws: seq<Workflow>, target: Option<string>, nodeId: string, u: NodeDataUpdate,
                           nowIso: string)
    requires UniqueWorkflowIds(ws) && FindWorkflow(ws, target).Some?
    ensures var aw := FindWorkflow(ws, target).value;
            var r := UpdateNodeIn(ws, target, nodeId, u, nowIso);
            && UniqueWorkflowIds(r) && FindWorkflow(r, target).Some?
            && var nw := FindWorkflow(r, target).value;
               && nw.edges == aw.edges && |nw.nodes| == |aw.nodes|
               && (forall i :: 0 <= i < |aw.nodes| ==>
                     nw.nodes[i].id == aw.nodes[i].id && nw.nodes[i].position == aw.nodes[i].position)
               && (forall i :: 0 <= i < |aw.nodes| && aw.nodes[i].id != nodeId ==> nw.nodes[i] == aw.nodes[i])
               && (forall i :: 0 <= i < |aw.nodes| && aw.nodes[i].id == nodeId ==>
                     nw.nodes[i].data == ApplyDataUpdate(aw.nodes[i].data, u))
  {
    FindAfterRewrite(ws, target, (w: Workflow) => w.(nodes := UpdateNodes(w.nodes, nodeId, u), updatedAt := nowIso));
  }
}
