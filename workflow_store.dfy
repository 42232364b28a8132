/** The editor's store as an object whose fields the actions overwrite.

    Each action sets some of the store's fields and leaves the others alone;
    a method's `modifies` clause names exactly the fields its action sets.
    Actions that look something up first (the active workflow, a node, an
    edge, a catalogue entry) commit the state computed by their step in
    `StoreActions`, where what they do is proved; the others assign their
    fields directly. Clock readings, random draws and persistence are
    described in `StoreActions`. */
module WorkflowStore {
  import opened Seqs
  import opened Types
  import opened Graph
  import opened Catalogue
  import opened StoreActions

  /** `addNodeAndConnect`'s placement of the new node: beside the source
      node, then away from the nodes that overlap that spot. */
  method PlaceConnected(catalogue: seq<NodeDefinition>, aw: Workflow, sourceNodeId: string,
                        sourceHandle: Option<string>, fallback: Position) returns (newPosition: Position)
    ensures newPosition == ConnectSpot(catalogue, aw, sourceNodeId, sourceHandle, fallback)
  {
    var sourceNode := FindNode(aw.nodes, sourceNodeId);
    var sourceNodeDef := if sourceNode.Some? then LookupIn(catalogue, sourceNode.value.kind) else None;
    var hasBranch := sourceNodeDef.Some? && sourceNodeDef.value.hasBranch;
    newPosition := PlaceBeside(sourceNode, hasBranch, sourceHandle, fallback);
    newPosition := MoveClear(newPosition, aw.nodes, sourceHandle);
  }

  /** Starts at `fallback`; with a source node, goes `NodeSpacingX` right of
      it, and for a branching source with a truthy handle `NodeSpacingY` up
      for "true" or down for "false". */
  method PlaceBeside(sourceNode: Option<WorkflowNode>, hasBranch: bool, sourceHandle: Option<string>,
                     fallback: Position) returns (newPosition: Position)
    ensures newPosition == BranchSpot(sourceNode, hasBranch, sourceHandle, fallback)
  {
    newPosition := fallback;
    if sourceNode.Some? {
      var src := sourceNode.value.position;
      if hasBranch && Truthy(sourceHandle) {
        if sourceHandle.value == "true" {
          newPosition := Position(src.x + NodeSpacingX, src.y - NodeSpacingY);
        } else if sourceHandle.value == "false" {
          newPosition := Position(src.x + NodeSpacingX, src.y + NodeSpacingY);
        } else {
          newPosition := Position(src.x + NodeSpacingX, src.y);
        }
      } else {
        newPosition := Position(src.x + NodeSpacingX, src.y);
      }
    }
  }

  /** When nodes overlap `spot`, moves it `NodeSpacingY` above the highest of
      them for "true", and below the lowest for "false" or any other handle. */
  method MoveClear(spot: Position, nodes: seq<WorkflowNode>, sourceHandle: Option<string>)
    returns (newPosition: Position)
    ensures newPosition == AvoidOverlap(spot, nodes, sourceHandle)
  {
    newPosition := spot;
    var existing := NodesNear(nodes, spot);
    if |existing| > 0 {
      var minY := MinY(existing);
      var maxY := MaxY(existing);
      if sourceHandle == Some("true") {
        newPosition := newPosition.(y := minY - NodeSpacingY);
      } else if sourceHandle == Some("false") {
        newPosition := newPosition.(y := maxY + NodeSpacingY);
      } else {
        newPosition := newPosition.(y := maxY + NodeSpacingY);
      }
    }
  }

  /** The spot `addNodeAndConnect` computes for state `s`: `ConnectSpot` in the
      active workflow, or the random spot when there is none (the action then
      does nothing). */
  function ConnectSpotIn(catalogue: seq<NodeDefinition>, s: StoreState, sourceNodeId: string,
                         sourceHandle: Option<string>, rx: real, ry: real): Position
  {
    var aw := ActiveIn(s);
    if aw.Some? then ConnectSpot(catalogue, aw.value, sourceNodeId, sourceHandle, RandomSpot(rx, ry))
    else RandomSpot(rx, ry)
  }

  /** Draws the random spot, then places the new node from the active workflow's nodes. */
  method PlaceConnectedIn(catalogue: seq<NodeDefinition>, s: StoreState, sourceNodeId: string,
                          sourceHandle: Option<string>, rx: real, ry: real) returns (spot: Position)
    ensures spot == ConnectSpotIn(catalogue, s, sourceNodeId, sourceHandle, rx, ry)
  {
    var aw := ActiveIn(s);
    spot := RandomSpot(rx, ry);
    if aw.Some? {
      spot := PlaceConnected(catalogue, aw.value, sourceNodeId, sourceHandle, spot);
    }
  }

  class Store {
    /** The node catalogue node types are looked up in. */
    const catalogue: seq<NodeDefinition>
    var workflows: seq<Workflow>
    var activeWorkflowId: Option<string>
    var selectedNodeId: Option<string>
    var isDarkMode: bool
    var isRightPanelOpen: bool
    var isAddNodePanelOpen: bool
    var anpCategory: Option<string>
    var anpSearchQuery: string
    var anpEdgeInsertId: Option<string>
    var anpSourceNodeId: Option<string>
    var anpSourceHandle: Option<string>
    var copiedNode: Option<WorkflowNode>

    /** The store's fields as one value. */
    function State(): StoreState
      reads this
    {
      StoreState(workflows, activeWorkflowId, selectedNodeId, isDarkMode, isRightPanelOpen, isAddNodePanelOpen,
                 anpCategory, anpSearchQuery, anpEdgeInsertId, anpSourceNodeId, anpSourceHandle, copiedNode)
    }

    /** A fresh store looking node types up in `catalogue`: the demo
        workflow, active and well formed, with every panel closed. */
    constructor(catalogue: seq<NodeDefinition>, nowIso: string)
      ensures State() == InitialState(nowIso) && this.catalogue == catalogue
      ensures AllClosed(workflows) && UniqueWorkflowIds(workflows)
      ensures ActiveIn(State()) == Some(DemoWorkflow(nowIso))
    {
      this.catalogue := catalogue;
      var s := InitialState(nowIso);
      workflows, activeWorkflowId, selectedNodeId, isDarkMode := s.workflows, s.activeWorkflowId, s.selectedNodeId,
                                                                  s.isDarkMode;
      isRightPanelOpen, isAddNodePanelOpen, anpCategory, anpSearchQuery := s.isRightPanelOpen, s.isAddNodePanelOpen,
                                                                          s.anpCategory, s.anpSearchQuery;
      anpEdgeInsertId, anpSourceNodeId, anpSourceHandle, copiedNode := s.anpEdgeInsertId, s.anpSourceNodeId,
                                                                      s.anpSourceHandle, s.copiedNode;
      InitialStateWellFormed(nowIso);
    }

    // ---- Workflow actions ----

    /** Switches to workflow `id` (existing or not), dropping the selection
        and closing the right panel. */
    method SetActiveWorkflow(id: string)
      modifies this`activeWorkflowId, this`selectedNodeId, this`isRightPanelOpen
      ensures activeWorkflowId == Some(id) && selectedNodeId.None? && !isRightPanelOpen
    {
      activeWorkflowId := Some(id);
      selectedNodeId := None;
      isRightPanelOpen := false;
    }

    /** Appends an empty draft workflow "workflow-" + nowMs and makes it active;
        when its id is fresh, it is the workflow the store now treats as active. */
    method AddWorkflow(name: string, nowMs: string, nowIso: string)
      modifies this`workflows, this`activeWorkflowId, this`selectedNodeId
      ensures var w := Workflow("workflow-" + nowMs, name, None, Draft, [], [], nowIso, nowIso, 0);
              && workflows == old(workflows) + [w] && activeWorkflowId == Some(w.id) && selectedNodeId.None?
              && ((forall i :: 0 <= i < |old(workflows)| ==> old(workflows)[i].id != w.id) ==> ActiveIn(State()) == Some(w))
      ensures AllClosed(old(workflows)) ==> AllClosed(workflows)
    {
      var w := Workflow("workflow-" + nowMs, name, None, Draft, [], [], nowIso, nowIso, 0);
      if forall i :: 0 <= i < |workflows| ==> workflows[i].id != w.id {
        FindAppended(workflows, w);
      }
      workflows := workflows + [w];
      activeWorkflowId := Some(w.id);
      selectedNodeId := None;
    }

    /** `deleteWorkflow(id)`, as `DeleteWorkflowStep` states it. */
    method DeleteWorkflow(id: string)
      modifies this`workflows, this`activeWorkflowId, this`selectedNodeId, this`isRightPanelOpen
      ensures State() == DeleteWorkflowStep(old(State()), id)
    {
      var next := DeleteWorkflowStep(State(), id);
      workflows, activeWorkflowId, selectedNodeId, isRightPanelOpen := next.workflows, next.activeWorkflowId,
                                                                        next.selectedNodeId, next.isRightPanelOpen;
      assert State() == next;
    }

    /** Merges `updates` into every workflow with id `id`, active or not, and
        stamps it. */
    method UpdateWorkflow(id: string, updates: WorkflowUpdate, nowIso: string)
      modifies this`workflows
      ensures workflows == MapMatching(old(workflows), Some(id), (w: Workflow) => ApplyUpdate(w, updates).(updatedAt := nowIso))
    {
      workflows := MapMatching(workflows, Some(id), (w: Workflow) => ApplyUpdate(w, updates).(updatedAt := nowIso));
    }

    // ---- Node actions ----

    /** `addNode(nodeType, position)`, as `AddNodeStep` states it; answers the
        new node's id, or nothing when there is no active workflow or the type
        is not in the catalogue. */
    method AddNode(nodeType: string, position: Option<Position>, nowMs: string, nowIso: string, rx: real, ry: real)
      returns (newNodeId: Option<string>)
      modifies this`workflows, this`selectedNodeId, this`isRightPanelOpen
      ensures State() == AddNodeStep(catalogue, old(State()), nodeType, position, nowMs, nowIso, rx, ry)
      ensures newNodeId == if ActiveIn(old(State())).Some? && LookupIn(catalogue, nodeType).Some?
                           then Some("node-" + nowMs) else None
    {
      var next := AddNodeStep(catalogue, State(), nodeType, position, nowMs, nowIso, rx, ry);
      newNodeId := if ActiveIn(State()).Some? && LookupIn(catalogue, nodeType).Some? then Some("node-" + nowMs)
                   else None;
      workflows, selectedNodeId, isRightPanelOpen := next.workflows, next.selectedNodeId, next.isRightPanelOpen;
      assert State() == next;
    }

    /** Merges `data` into the data of the active workflow's nodes `nodeId`;
        edges stay closed. */
    method UpdateNode(nodeId: string, data: NodeDataUpdate, nowIso: string)
      modifies this`workflows
      ensures workflows == UpdateNodeIn(old(workflows), activeWorkflowId, nodeId, data, nowIso)
      ensures AllClosed(old(workflows)) ==> AllClosed(workflows)
    {
      UpdatedNodeKeepsClosed(workflows, activeWorkflowId, nodeId, data, nowIso);
      workflows := UpdateNodeIn(workflows, activeWorkflowId, nodeId, data, nowIso);
    }

    /** Deletes node `nodeId` and every edge touching it from the active
        workflow; only when that node was selected is the selection dropped
        and the right panel closed. */
    method DeleteNode(nodeId: string, nowIso: string)
      modifies this`workflows, this`selectedNodeId, this`isRightPanelOpen
      ensures workflows == DeleteNodeIn(old(workflows), activeWorkflowId, nodeId, nowIso)
      ensures old(selectedNodeId) == Some(nodeId) ==> selectedNodeId.None? && !isRightPanelOpen
      ensures old(selectedNodeId) != Some(nodeId) ==>
                selectedNodeId == old(selectedNodeId) && isRightPanelOpen == old(isRightPanelOpen)
      ensures AllClosed(old(workflows)) ==> AllClosed(workflows)
    {
      DeletedNodeKeepsClosed(workflows, activeWorkflowId, nodeId, nowIso);
      workflows := DeleteNodeIn(workflows, activeWorkflowId, nodeId, nowIso);
      if selectedNodeId == Some(nodeId) {
        selectedNodeId := None;
        isRightPanelOpen := false;
      }
    }

    method SetSelectedNode(nodeId: Option<string>)
      modifies this`selectedNodeId
      ensures selectedNodeId == nodeId
    {
      selectedNodeId := nodeId;
    }

    // ---- Edge actions ----

    /** `addEdge(source, target, sourceHandle, targetHandle)`, as
        `AddEdgeStep` states it. */
    method AddEdge(source: string, target: string, sourceHandle: Option<string>, targetHandle: Option<string>,
                   nowMs: string, nowIso: string)
      modifies this`workflows
      ensures State() == AddEdgeStep(old(State()), source, target, sourceHandle, targetHandle, nowMs, nowIso)
    {
      var next := AddEdgeStep(State(), source, target, sourceHandle, targetHandle, nowMs, nowIso);
      workflows := next.workflows;
      assert State() == next;
    }

    /** Removes the active workflow's edges `edgeId`; edges stay closed. */
    method DeleteEdge(edgeId: string, nowIso: string)
      modifies this`workflows
      ensures workflows == DeleteEdgeIn(old(workflows), activeWorkflowId, edgeId, nowIso)
      ensures AllClosed(old(workflows)) ==> AllClosed(workflows)
    {
      DeletedEdgeKeepsClosed(workflows, activeWorkflowId, edgeId, nowIso);
      workflows := DeleteEdgeIn(workflows, activeWorkflowId, edgeId, nowIso);
    }

    /** `insertNodeOnEdge(edgeId, nodeType)`, as `InsertNodeOnEdgeStep` states it. */
    method InsertNodeOnEdge(edgeId: string, nodeType: string, nowMs: string, nowIso: string)
      modifies this`workflows, this`selectedNodeId, this`isRightPanelOpen, this`anpEdgeInsertId
      ensures State() == InsertNodeOnEdgeStep(catalogue, old(State()), edgeId, nodeType, nowMs, nowIso)
    {
      var next := InsertNodeOnEdgeStep(catalogue, State(), edgeId, nodeType, nowMs, nowIso);
      workflows, selectedNodeId, isRightPanelOpen, anpEdgeInsertId := next.workflows, next.selectedNodeId,
                                                                       next.isRightPanelOpen, next.anpEdgeInsertId;
    }

    /** `addNodeAndConnect(nodeType, sourceNodeId, sourceHandle)`: the spot is
        placed by `PlaceConnectedIn`, then committed as `ConnectStep` states it. */
    method AddNodeAndConnect(nodeType: string, sourceNodeId: string, sourceHandle: Option<string>,
                             nowMs: string, nowIso: string, rx: real, ry: real)
      modifies this`workflows, this`selectedNodeId, this`isRightPanelOpen, this`anpSourceNodeId, this`anpSourceHandle
      ensures State() == ConnectStep(catalogue, old(State()), nodeType, sourceNodeId, sourceHandle,
                                     ConnectSpotIn(catalogue, old(State()), sourceNodeId, sourceHandle, rx, ry),
                                     nowMs, nowIso)
    {
      var s := State();
      var spot := PlaceConnectedIn(catalogue, s, sourceNodeId, sourceHandle, rx, ry);
      var next := ConnectStep(catalogue, s, nodeType, sourceNodeId, sourceHandle, spot, nowMs, nowIso);
      workflows, selectedNodeId, isRightPanelOpen := next.workflows, next.selectedNodeId, next.isRightPanelOpen;
      anpSourceNodeId, anpSourceHandle := next.anpSourceNodeId, next.anpSourceHandle;
    }

    // ---- Panel actions ----

    /** Flips dark mode (the page's `dark` class is not modelled). */
    method ToggleDarkMode()
      modifies this`isDarkMode
      ensures isDarkMode == !old(isDarkMode)
    {
      isDarkMode := !isDarkMode;
    }

    method ToggleRightPanel()
      modifies this`isRightPanelOpen
      ensures isRightPanelOpen == !old(isRightPanelOpen)
    {
      isRightPanelOpen := !isRightPanelOpen;
    }

    method OpenRightPanel()
      modifies this`isRightPanelOpen
      ensures isRightPanelOpen
    {
      isRightPanelOpen := true;
    }

    /** Closing the right panel also drops the selection. */
    method CloseRightPanel()
      modifies this`isRightPanelOpen, this`selectedNodeId
      ensures !isRightPanelOpen && selectedNodeId.None?
    {
      isRightPanelOpen := false;
      selectedNodeId := None;
    }

    /** Flips the add-node panel and resets its category and search. */
    method ToggleAddNodePanel()
      modifies this`isAddNodePanelOpen, this`anpCategory, this`anpSearchQuery
      ensures isAddNodePanelOpen == !old(isAddNodePanelOpen) && anpCategory.None? && anpSearchQuery == ""
    {
      isAddNodePanelOpen := !isAddNodePanelOpen;
      anpCategory := None;
      anpSearchQuery := "";
    }

    /** Opens the add-node panel on a category (the empty string counts as
        none) with no pending source connection; a pending edge insertion is
        kept. */
    method OpenAddNodePanel(category: Option<string>)
      modifies this`isAddNodePanelOpen, this`anpCategory, this`anpSearchQuery, this`anpSourceNodeId,
               this`anpSourceHandle
      ensures isAddNodePanelOpen && anpSearchQuery == "" && anpSourceNodeId.None? && anpSourceHandle.None?
      ensures anpCategory == if Truthy(category) then category else None
    {
      isAddNodePanelOpen := true;
      anpCategory := if Truthy(category) then category else None;
      anpSearchQuery := "";
      anpSourceNodeId := None;
      anpSourceHandle := None;
    }

    /** Opens the add-node panel to connect a new node from `nodeId`'s handle
        (the empty string counts as none); cancels any pending edge insertion. */
    method OpenAddNodePanelForSource(nodeId: string, sourceHandle: Option<string>)
      modifies this`isAddNodePanelOpen, this`anpCategory, this`anpSearchQuery, this`anpSourceNodeId,
               this`anpSourceHandle, this`anpEdgeInsertId
      ensures isAddNodePanelOpen && anpCategory.None? && anpSearchQuery == "" && anpEdgeInsertId.None?
      ensures anpSourceNodeId == Some(nodeId) && anpSourceHandle == if Truthy(sourceHandle) then sourceHandle else None
    {
      isAddNodePanelOpen := true;
      anpCategory := None;
      anpSearchQuery := "";
      anpSourceNodeId := Some(nodeId);
      anpSourceHandle := if Truthy(sourceHandle) then sourceHandle else None;
      anpEdgeInsertId := None;
    }

    /** Closes the add-node panel and forgets everything it was opened for. */
    method CloseAddNodePanel()
      modifies this`isAddNodePanelOpen, this`anpCategory, this`anpSearchQuery, this`anpSourceNodeId,
               this`anpSourceHandle, this`anpEdgeInsertId
      ensures !isAddNodePanelOpen && anpCategory.None? && anpSearchQuery == "" && anpEdgeInsertId.None?
      ensures anpSourceNodeId.None? && anpSourceHandle.None?
    {
      isAddNodePanelOpen := false;
      anpCategory := None;
      anpSearchQuery := "";
      anpEdgeInsertId := None;
      anpSourceNodeId := None;
      anpSourceHandle := None;
    }

    method SetAnpCategory(category: Option<string>)
      modifies this`anpCategory
      ensures anpCategory == category
    {
      anpCategory := category;
    }

    method SetAnpSearchQuery(query: string)
      modifies this`anpSearchQuery
      ensures anpSearchQuery == query
    {
      anpSearchQuery := query;
    }

    method SetAnpEdgeInsertId(edgeId: Option<string>)
      modifies this`anpEdgeInsertId
      ensures anpEdgeInsertId == edgeId
    {
      anpEdgeInsertId := edgeId;
    }

    // ---- Clipboard actions ----

    /** `duplicateNode(nodeId)`, as `DuplicateStep` states it. */
    method DuplicateNode(nodeId: string, nowMs: string, nowIso: string)
      modifies this`workflows, this`selectedNodeId, this`isRightPanelOpen
      ensures State() == DuplicateStep(old(State()), nodeId, nowMs, nowIso)
    {
      var next := DuplicateStep(State(), nodeId, nowMs, nowIso);
      workflows, selectedNodeId, isRightPanelOpen := next.workflows, next.selectedNodeId, next.isRightPanelOpen;
      assert State() == next;
    }

    /** `copyNode(nodeId)`, as `CopyStep` states it. */
    method CopyNode(nodeId: string)
      modifies this`copiedNode
      ensures State() == CopyStep(old(State()), nodeId)
    {
      var next := CopyStep(State(), nodeId);
      copiedNode := next.copiedNode;
    }

    /** `pasteNode(position)`, as `PasteStep` states it. */
    method PasteNode(position: Option<Position>, nowMs: string, nowIso: string)
      modifies this`workflows, this`selectedNodeId, this`isRightPanelOpen
      ensures State() == PasteStep(old(State()), position, nowMs, nowIso)
    {
      var next := PasteStep(State(), position, nowMs, nowIso);
      workflows, selectedNodeId, isRightPanelOpen := next.workflows, next.selectedNodeId, next.isRightPanelOpen;
      assert State() == next;
    }

    /** `cutNode(nodeId)`, as `CutStep` states it. */
    method CutNode(nodeId: string, nowIso: string)
      modifies this`workflows, this`copiedNode, this`selectedNodeId, this`isRightPanelOpen
      ensures State() == CutStep(old(State()), nodeId, nowIso)
    {
      var s := State();
      var next := CutStep(s, nodeId, nowIso);
      ghost var framed := s.(workflows := next.workflows, copiedNode := next.copiedNode,
                             selectedNodeId := next.selectedNodeId, isRightPanelOpen := next.isRightPanelOpen);
      assert next == framed;
      workflows, copiedNode, selectedNodeId, isRightPanelOpen := next.workflows, next.copiedNode, next.selectedNodeId,
                                                                  next.isRightPanelOpen;
      assert State() == framed;
    }
  }
}
