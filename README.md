# Workflow builder store and node catalogue, in Dafny

This project models the two logic files of a browser workflow builder in the style of n8n:

- **The workflow store** (`src/stores/workflowStore.ts`) is a zustand store. It holds:
  - a list of workflows, each a graph of nodes and edges;
  - the UI state around them: the active workflow, the selected node, the right panel, the add-node panel fields (`anp*`) and the node clipboard.

  Its actions are modelled in two layers:
  - **`StoreActions`**: a pure step function per lookup-first action, over the value `StoreState`. These are the ones that find the active workflow, a node, an edge or a catalogue entry first, then commit. The lemmas about what each step does sit next to it.
  - **`WorkflowStore.Store`**: a class with one mutable field per store field. Each store action is a method with a field-level `modifies` clause. The method either assigns the fields the source's `set(...)` assigns, or commits the step function's result and states `State() == XStep(old(State()), ...)`. The node placement of `addNodeAndConnect` keeps the source's imperative form: a `newPosition` variable is reassigned by branch, then its `y` is corrected (`PlaceConnected`, `PlaceBeside`, `MoveClear`).

- **The node catalogue** (`src/utils/nodeConfig.ts`) is the constant table of node types and categories. It offers three queries: lookup by id, filter by category, and case-insensitive search. Module `NodeConfig` holds these.

The other modules:
- **`Types`**: the entities of `src/types/index.ts`.
- **`Graph`**: the per-workflow rewrites, which add or remove nodes and edges, split an edge, shift nodes, place nodes and copy nodes.
- **`Seqs`**: the `find`/`filter` primitives.
- **`Text`**: ASCII lower-casing and substring search.
- **`Catalogue`**: lookup in any catalogue.
- **`Editor`**: builds a store over the real catalogue.

The recurring invariants are:
- `EdgesClosed`: every edge's endpoints are nodes of the workflow.
- `UniqueWorkflowIds`.

The model proves which actions keep `EdgesClosed` in every workflow, and under which conditions. Three actions can break it:
- `addNodeAndConnect` from a node that is not there (`ConnectStepFromMissingSourceDangles`);
- `addEdge` between ids that are not nodes, since it checks only for a duplicate edge (`AddEdgeStepFromMissingSourceDangles`);
- `updateWorkflow`, which can replace `nodes` and `edges` with anything.

The source's non-deterministic inputs are parameters of the actions:
- `nowMs`: the decimal text of `Date.now()`, used in the ids `node-…`, `edge-…` and `workflow-…`;
- `nowIso`: the ISO time stamp;
- `rx` and `ry`: the two `Math.random()` draws of the fallback position.

JavaScript numbers (positions) are modelled as `real`. The catalogue is a constructor argument of the store; `Editor.NewStore` passes `NodeConfig.NodeDefinitions`.

## Model

| member | source | states |
|---|---|---|
| NodeConfig.GetNodeDefinition | src/utils/nodeConfig.ts:653-655 | returns an entry with the given id taken from the table, and nothing exactly when no entry has that id |
| NodeConfig.GetNodeDefinitionExact | src/utils/nodeConfig.ts:653-655 | since ids are distinct, the lookup returns `d` if and only if `d` is the table's entry with that id |
| NodeConfig.GetNodesByCategory | src/utils/nodeConfig.ts:648-650 | exactly the entries of that category, in table order (an order-preserving subsequence) |
| NodeConfig.SearchNodes | src/utils/nodeConfig.ts:658-666 | exactly the entries whose lower-cased label, subtitle (when present) or description contains the lower-cased query, in table order |
| NodeConfig.SearchIgnoresCase | src/utils/nodeConfig.ts:659-664 | searching for a query and for its lower-cased form gives the same result |
| NodeConfig.SearchEmptyReturnsAll | src/utils/nodeConfig.ts:658-666 | the empty query returns the whole table |
| NodeConfig.NodeIdsDistinct | src/utils/nodeConfig.ts:50-645 | no two catalogue entries share an id |
| NodeConfig.NodeIdListDistinct | src/utils/nodeConfig.ts:50-645 | the listed ids of the eighteen entries are pairwise different |
| NodeConfig.NodeIdsListed | src/utils/nodeConfig.ts:50-645 | the table's ids, in order, are the listed ones |
| NodeConfig.CategoriesKnown | src/utils/nodeConfig.ts:4-47 | every entry's category is one of the seven category ids |
| NodeConfig.OnlyIfElseBranches | src/utils/nodeConfig.ts:357-398 | an entry branches if and only if its id is "if-else" |
| NodeConfig.IfElseDefault | src/utils/nodeConfig.ts:374-397 | the if-else entry's only parameter defaults to one "and" group holding one "equals" rule, joined by "and" |
| Catalogue.LookupIn | src/utils/nodeConfig.ts:653-655 | `find` by id in any catalogue: a result with that id taken from the catalogue, and none exactly when the id is absent |
| Catalogue.LookupInExact | src/utils/nodeConfig.ts:653-655 | with distinct ids, lookup returns `d` if and only if `d` is in the catalogue under that id |
| Text.Lower | src/utils/nodeConfig.ts:659-664 | `toLowerCase` on ASCII: same length, every capital lowered by 32 and every other character kept |
| Text.LowerIdempotent | src/utils/nodeConfig.ts:659-664 | lower-casing twice is lower-casing once |
| Text.LowerHasNoCapitals | src/utils/nodeConfig.ts:659-664 | a lower-cased string has no capital letters |
| Text.EmptyIncluded | src/utils/nodeConfig.ts:662-664 | `includes("")` holds for every string |
| Text.IncludesItself | src/utils/nodeConfig.ts:662-664 | every string includes itself |
| Seqs.Find | src/stores/workflowStore.ts:492-494 | `Array.find`: none exactly when no element matches, otherwise the first match |
| Seqs.Filter | src/stores/workflowStore.ts:304 | `Array.filter`: only matching elements, every matching element present, in order (a subsequence) |
| Seqs.FilterCounts | src/stores/workflowStore.ts:304 | `Array.filter` keeps each matching element as often as it occurs and adds nothing, so with `Filter`'s contract the result is pinned |
| Seqs.FilterKeepsAll | src/stores/workflowStore.ts:304 | a filter every element passes is the identity |
| Seqs.FilterKeepsNone | src/stores/workflowStore.ts:304 | a filter no element passes is empty |
| Seqs.FilterDropsOne | src/stores/workflowStore.ts:304 | a filter that rejects exactly one element shortens the list by one |
| StoreActions.FindWorkflow | src/stores/workflowStore.ts:492-494 | the workflow carrying the active id, or none exactly when no workflow carries it |
| StoreActions.FindNode | src/stores/workflowStore.ts:862-864 | the node with an id, or none exactly when no node has it |
| StoreActions.FindEdge | src/stores/workflowStore.ts:497-498 | the edge with an id, or none exactly when no edge has it |
| StoreActions.ActiveIsUnique | src/stores/workflowStore.ts:492-494 | with unique workflow ids, the active workflow is the one at the index carrying the id |
| StoreActions.MapMatching | src/stores/workflowStore.ts:319-328 | the `workflows.map` rewrite: same length, the workflows with the target id rewritten, all others unchanged |
| StoreActions.FindAfterRewrite | src/stores/workflowStore.ts:366-378 | after an id-keeping rewrite of the active workflow, the active workflow is the rewritten one and ids stay unique |
| StoreActions.WithoutWorkflow | src/stores/workflowStore.ts:304 | the workflows without the deleted id: none with that id, every other one present, in order |
| StoreActions.WithoutWorkflowCounts | src/stores/workflowStore.ts:304 | every other workflow is kept as often as it was there, and nothing is added |
| StoreActions.ActiveAfterDelete | src/stores/workflowStore.ts:305-308 | the active id is kept unless it was deleted, in which case it becomes the first survivor's id, or null when there is none or that id is empty |
| StoreActions.DeleteWorkflowStep | src/stores/workflowStore.ts:300-317 | at most one workflow: no change; otherwise the id's workflows removed, the active id handed on, the selection cleared and the right panel closed; nothing else changes; closure kept |
| StoreActions.DeleteKeepsOne | src/stores/workflowStore.ts:302 | with unique ids and at least two workflows, deleting leaves at least one |
| StoreActions.DeleteActiveMovesToRemaining | src/stores/workflowStore.ts:305-308 | deleting the active workflow makes a survivor active (unless its id is empty), never the deleted one |
| StoreActions.DeleteCanEmptyWithSharedIds | src/stores/workflowStore.ts:300-308 | the last-workflow guard counts workflows, not ids: two workflows sharing an id are both deleted, leaving none active |
| StoreActions.ApplyUpdateFields | src/stores/workflowStore.ts:323 | the spread of a partial update, field by field for all nine fields: a field the update carries replaces the workflow's, a field it leaves out is kept; the empty update changes nothing |
| StoreActions.ApplyUpdateIdempotent | src/stores/workflowStore.ts:323 | merging the same update twice is merging it once |
| StoreActions.UpdateNodes | src/stores/workflowStore.ts:384-401 | node ids, types and positions kept; only the named node's data is merged with the update |
| StoreActions.UpdateNodesKeepsEdgesClosed | src/stores/workflowStore.ts:384-401 | merging node data keeps every edge closed |
| StoreActions.Connected | src/stores/workflowStore.ts:800-814 | `addNodeAndConnect`'s rewrite appends exactly the new node and the new edge |
| StoreActions.ConnectKeepsEdgesClosed | src/stores/workflowStore.ts:791-814 | connecting from an existing node keeps every edge closed |
| StoreActions.ConnectFromMissingSourceDangles | src/stores/workflowStore.ts:695-814 | the source id is never checked: from a missing source the new edge dangles |
| StoreActions.ConnectSpotPlaces | src/stores/workflowStore.ts:697-766 | the new node goes 250 right of an existing source; with nothing in the way it takes the branch spot, otherwise its y is exactly 150 above the highest ("true") or below the lowest overlapping node, clear of all of them |
| StoreActions.DemoNodeIds | src/stores/workflowStore.ts:13-249 | the demo workflow's nodes are node-1 to node-12, in order |
| StoreActions.DemoNodeIdsUnique | src/stores/workflowStore.ts:13-249 | the demo's node ids are distinct |
| StoreActions.DemoEdgesClosed | src/stores/workflowStore.ts:13-249 | every demo edge joins two demo nodes |
| StoreActions.InitialStateWellFormed | src/stores/workflowStore.ts:251-265 | the fresh store's active workflow is the demo; its ids are unique and its edges closed |
| StoreActions.RandomSpot | src/stores/workflowStore.ts:342-345 | draws in [0, 1) land in [400, 600) × [200, 300) |
| StoreActions.FindAppended | src/stores/workflowStore.ts:281-298 | a workflow appended under a fresh id is the one found by that id |
| StoreActions.SplitKeepsClosed | src/stores/workflowStore.ts:490-598 | splitting an edge of a closed workflow keeps it closed |
| StoreActions.MapMatchingKeepsClosed | src/stores/workflowStore.ts:319-328 | a closure-keeping rewrite of the target workflows keeps every workflow closed |
| StoreActions.AddedNodeKeepsClosed | src/stores/workflowStore.ts:366-378 | adding a node keeps every workflow closed |
| StoreActions.DeletedNodeKeepsClosed | src/stores/workflowStore.ts:403-423 | the cascade delete keeps every workflow closed |
| StoreActions.DeletedEdgeKeepsClosed | src/stores/workflowStore.ts:475-488 | deleting an edge keeps every workflow closed |
| StoreActions.UpdatedNodeKeepsClosed | src/stores/workflowStore.ts:384-401 | updating node data keeps every workflow closed |
| StoreActions.AddedEdgeKeepsClosed | src/stores/workflowStore.ts:459-470 | an edge between two nodes of the active workflow keeps every workflow closed |
| StoreActions.SplitKeepsAllClosed | src/stores/workflowStore.ts:580-598 | inserting a node on an edge keeps every workflow closed |
| StoreActions.ConnectKeepsAllClosed | src/stores/workflowStore.ts:800-814 | connecting from an existing node keeps every workflow closed |
| StoreActions.DeleteNodeInRemoves | src/stores/workflowStore.ts:403-423 | the node and every edge touching it leave the active workflow; every other node and edge stays |
| StoreActions.DeleteEdgeInRemoves | src/stores/workflowStore.ts:475-488 | the edge id leaves the active workflow; nodes and every other edge stay |
| StoreActions.UpdateNodeInMerges | src/stores/workflowStore.ts:384-401 | in the active workflow only the named node's data changes, merged with the update; edges, ids and positions stay |
| StoreActions.AddNodeStep | src/stores/workflowStore.ts:331-382 | no active workflow or unknown type: no change; otherwise the new node is selected and the right panel opened, nothing else outside the workflows changes, closure kept |
| StoreActions.AddNodeStepAppends | src/stores/workflowStore.ts:331-382 | exactly one node appended to the active workflow: id node-nowMs, the type, the entry's label and type, parameters seeded from the defaults, empty output, at the given or the random spot; edges unchanged |
| StoreActions.AddEdgeStep | src/stores/workflowStore.ts:430-473 | no active workflow or an edge with the same source, target and source handle: no change; only the workflows change |
| StoreActions.AddEdgeStepAppends | src/stores/workflowStore.ts:451-470 | otherwise exactly one smoothstep animated edge is appended and the nodes are unchanged |
| StoreActions.AddEdgeStepIdempotent | src/stores/workflowStore.ts:442-449 | adding the same edge again, at any time and with any target handle, changes nothing |
| StoreActions.AddEdgeStepKeepsClosed | src/stores/workflowStore.ts:430-473 | an edge between existing nodes keeps every workflow closed |
| StoreActions.AddEdgeStepFromMissingSourceDangles | src/stores/workflowStore.ts:430-473 | `addEdge` does not check its ends: an edge from an id that is no node of the active workflow is appended and leaves that workflow not closed |
| StoreActions.InsertSpot | src/stores/workflowStore.ts:515-524 | the midpoint of source and target when both exist, else (400, 200) |
| StoreActions.InsertShifted | src/stores/workflowStore.ts:527-539 | nodes shifted from the target's x when the target exists, else unchanged |
| StoreActions.InsertNodeOnEdgeStep | src/stores/workflowStore.ts:490-601 | missing workflow, edge or type: no change; otherwise the new node is selected, the right panel opens and the edge-insert id clears, nothing else outside the workflows changes |
| StoreActions.InsertNodeOnEdgeStepSplits | src/stores/workflowStore.ts:503-598 | one node appended at the insert spot; old nodes keep ids and move right by 250 from the target's x; the edge ends the list as source→new (keeping the source handle) and new→target (keeping the target handle) |
| StoreActions.InsertNodeOnEdgeStepKeepsEdges | src/stores/workflowStore.ts:580-598 | before the two halves stand exactly the edges `deleteEdge` would keep: every old edge but the split one is present, no other edge is, in order and multiplicity |
| StoreActions.SplitShape | src/stores/workflowStore.ts:527-539 | the split keeps node ids in place, moves nodes as `InsertMoves` says and appends the new node |
| StoreActions.InsertStepActive | src/stores/workflowStore.ts:580-598 | the active workflow after the step is the split of the old one |
| StoreActions.InsertNodeOnEdgeStepAddsOneEdge | src/stores/workflowStore.ts:562-586 | with distinct edge ids, the edge count grows by exactly one |
| StoreActions.InsertNodeOnEdgeStepKeepsClosed | src/stores/workflowStore.ts:490-601 | inserting a node on an edge keeps every workflow closed |
| StoreActions.ConnectStep | src/stores/workflowStore.ts:682-817 | no active workflow or unknown type: no change; otherwise the new node is selected, the right panel opens and the source fields clear; nothing else outside the workflows changes |
| StoreActions.ConnectStepConnects | src/stores/workflowStore.ts:770-814 | one node appended at the computed spot, one edge appended from the source with its handle to the new node |
| StoreActions.ConnectStepActive | src/stores/workflowStore.ts:800-814 | the active workflow after the step is the old one with the node and the edge appended |
| StoreActions.ConnectInActive | src/stores/workflowStore.ts:800-814 | the rewrite of the active workflow is found by its id afterwards, ids kept unique |
| StoreActions.AddNodeInActive | src/stores/workflowStore.ts:366-378 | adding a node to the active id's workflows makes the active workflow the old one with the node appended, ids kept unique |
| StoreActions.DeleteNodeInActive | src/stores/workflowStore.ts:403-416 | deleting a node in the active id's workflows makes the active workflow the old one without the node and its edges, ids kept unique |
| StoreActions.SplitEdgeInActive | src/stores/workflowStore.ts:580-598 | splitting in the active id's workflows makes the active workflow the split of the old one, ids kept unique |
| StoreActions.ConnectShape | src/stores/workflowStore.ts:800-814 | appending node and edge keeps the old prefix and records the edge |
| StoreActions.ConnectStepKeepsClosed | src/stores/workflowStore.ts:682-817 | connecting from an existing node keeps every workflow closed |
| StoreActions.ConnectStepFromMissingSourceDangles | src/stores/workflowStore.ts:695-814 | connecting from a missing node leaves a dangling edge |
| StoreActions.DuplicateStep | src/stores/workflowStore.ts:855-896 | missing workflow or node: no change; otherwise the copy is selected, the right panel opens, closure kept |
| StoreActions.DuplicateStepCopies | src/stores/workflowStore.ts:867-892 | one node appended: the original under id "node-" + nowMs, 50 right and 50 down, label plus " (copy)", every other data field (type, parameters, output) kept, clear of the original; edges unchanged |
| StoreActions.CopyStep | src/stores/workflowStore.ts:898-909 | missing workflow or node: no change; otherwise only the clipboard changes, to that node |
| StoreActions.PasteStep | src/stores/workflowStore.ts:911-951 | empty clipboard or no active workflow: no change; otherwise the pasted node is selected and the right panel opens, closure kept |
| StoreActions.PasteStepAppends | src/stores/workflowStore.ts:921-946 | one node appended: the clipboard node under id "node-" + nowMs, label plus " (pasted)", every other data field kept, at the given position or 50 right and down; clipboard kept |
| StoreActions.CutStep | src/stores/workflowStore.ts:953-985 | missing workflow or node: no change; otherwise the node goes to the clipboard, the selection clears and the right panel closes, closure kept |
| StoreActions.CutStepMovesToClipboard | src/stores/workflowStore.ts:962-981 | the clipboard holds the cut node; it and every edge touching it are gone |
| StoreActions.CutThenPaste | src/stores/workflowStore.ts:953-985 | cut then paste restores the node as a " (pasted)" copy 50 right and down, without its edges |
| Graph.DefaultParametersKeys | src/stores/workflowStore.ts:350-357 | the seeded parameters' keys are exactly the definition's parameter ids |
| Graph.DefaultParametersLastWins | src/stores/workflowStore.ts:350-357 | the `reduce` keeps the last default for a repeated id |
| Graph.SeedParametersExact | src/stores/workflowStore.ts:350-357 | with distinct ids, every parameter id maps to its default value |
| Graph.WithNode | src/stores/workflowStore.ts:366-378 | exactly the node appended, the rest of the workflow unchanged but its time stamp |
| Graph.WithNodeKeepsInvariants | src/stores/workflowStore.ts:366-378 | adding a node keeps edges closed, and keeps node ids unique when the id is fresh |
| Graph.WithEdge | src/stores/workflowStore.ts:459-470 | exactly the edge appended, the rest unchanged but the time stamp |
| Graph.WithEdgeHasEdgeLike | src/stores/workflowStore.ts:442-449 | after adding, an edge with the same source, target and handle exists |
| Graph.WithEdgeKeepsEdgesClosed | src/stores/workflowStore.ts:459-470 | an edge between existing nodes keeps edges closed |
| Graph.WithoutNode | src/stores/workflowStore.ts:408-411 | removes the node with that id and every edge touching it, keeping every other node and edge in order and as often as before |
| Graph.WithoutNodeKeepsEdgesClosed | src/stores/workflowStore.ts:403-423 | the cascade delete keeps edges closed and removes the node |
| Graph.WithoutNodeIdempotent | src/stores/workflowStore.ts:403-423 | deleting a node twice is deleting it once |
| Graph.WithoutEdge | src/stores/workflowStore.ts:481 | removes the edges with that id, keeping every other edge in order and as often as before |
| Graph.WithoutEdgeKeepsEdgesClosed | src/stores/workflowStore.ts:475-488 | deleting an edge keeps edges closed |
| Graph.Midpoint | src/stores/workflowStore.ts:515-524 | the point equidistant from both ends on each axis |
| Graph.ShiftNode | src/stores/workflowStore.ts:527-539 | a node at or right of the cut moves 250 right; anything else stays; y, id and data kept |
| Graph.ShiftRightOf | src/stores/workflowStore.ts:527-539 | every node shifted as `ShiftNode` says, same length |
| Graph.ShiftKeepsOrder | src/stores/workflowStore.ts:527-539 | the shift never reverses the left-to-right order of two nodes |
| Graph.ShiftKeepsIds | src/stores/workflowStore.ts:527-539 | the shift keeps the set of node ids |
| Graph.SplitEdge | src/stores/workflowStore.ts:580-598 | shifted nodes plus the new node; the edges are exactly those `WithoutEdge` keeps, then the two halves |
| Graph.SplitEdgeKeepsInvariants | src/stores/workflowStore.ts:562-598 | splitting an edge through a new node keeps edges closed |
| Graph.SplitEdgeAddsOneEdge | src/stores/workflowStore.ts:584-588 | with a unique edge id, the edge count grows by one |
| Graph.SplitPlacement | src/stores/workflowStore.ts:515-539 | with the source left of the target, the source stays, the target moves 250 right, and the new node lies strictly between them |
| Graph.BranchSpot | src/stores/workflowStore.ts:704-742 | "true" on a branching source: (x+250, y−150); "false": (x+250, y+150); any other case: (x+250, y); no source: the fallback |
| Graph.MinY | src/stores/workflowStore.ts:752-754 | `Math.min` of the ys: no greater than any, equal to one |
| Graph.MaxY | src/stores/workflowStore.ts:755-757 | `Math.max` of the ys: no smaller than any, equal to one |
| Graph.NodesNear | src/stores/workflowStore.ts:745-749 | exactly the nodes within 50 on both axes |
| Graph.AvoidOverlapMovesClear | src/stores/workflowStore.ts:745-766 | x kept; no overlap: unchanged; otherwise y is exactly 150 above the highest ("true") or below the lowest overlapping node, hence at least 150 from each and clear of all of them |
| Graph.CopyOf | src/stores/workflowStore.ts:867-880 | a copy under a new id and position with the label suffixed, type and other data kept |
| Graph.Offset | src/stores/workflowStore.ts:872-875 | the position 50 right and 50 down |
| Graph.OffsetClearsOriginal | src/stores/workflowStore.ts:867-880 | the offset copy does not overlap its original |
| Graph.Abs | src/stores/workflowStore.ts:747-748 | `Math.abs`: non-negative and ± its argument |
| WorkflowStore.PlaceBeside | src/stores/workflowStore.ts:704-742 | the imperative branch placement computes `BranchSpot` |
| WorkflowStore.MoveClear | src/stores/workflowStore.ts:745-766 | the imperative overlap correction computes `AvoidOverlap` |
| WorkflowStore.PlaceConnected | src/stores/workflowStore.ts:695-766 | the source lookup plus both placement steps compute `ConnectSpot` |
| WorkflowStore.PlaceConnectedIn | src/stores/workflowStore.ts:686-766 | the random draw plus placement compute `ConnectSpotIn` |
| WorkflowStore.Store.constructor | src/stores/workflowStore.ts:251-270 | the fresh store is the initial state, with the demo active, ids unique and edges closed |
| WorkflowStore.Store.SetActiveWorkflow | src/stores/workflowStore.ts:273-279 | the id becomes active, the selection clears, the right panel closes |
| WorkflowStore.Store.AddWorkflow | src/stores/workflowStore.ts:281-298 | one empty draft workflow with execution count 0 appended, made active (found by its id when fresh), selection cleared; earlier workflows unchanged; closure kept |
| WorkflowStore.Store.DeleteWorkflow | src/stores/workflowStore.ts:300-317 | the new state is `DeleteWorkflowStep` of the old one |
| WorkflowStore.Store.UpdateWorkflow | src/stores/workflowStore.ts:319-328 | the workflows with the id are merged with the update and re-stamped, the others unchanged |
| WorkflowStore.Store.AddNode | src/stores/workflowStore.ts:331-382 | the new state is `AddNodeStep` of the old one; returns the new id exactly when a node was added |
| WorkflowStore.Store.UpdateNode | src/stores/workflowStore.ts:384-401 | only the active workflow's named node data is merged; closure kept |
| WorkflowStore.Store.DeleteNode | src/stores/workflowStore.ts:403-423 | cascade delete in the active workflow; selection cleared and right panel closed only when the deleted node was selected; closure kept |
| WorkflowStore.Store.SetSelectedNode | src/stores/workflowStore.ts:425-427 | the selection becomes the argument |
| WorkflowStore.Store.AddEdge | src/stores/workflowStore.ts:430-473 | the new state is `AddEdgeStep` of the old one |
| WorkflowStore.Store.DeleteEdge | src/stores/workflowStore.ts:475-488 | the edge id is removed from the active workflow; closure kept |
| WorkflowStore.Store.InsertNodeOnEdge | src/stores/workflowStore.ts:490-601 | the new state is `InsertNodeOnEdgeStep` of the old one |
| WorkflowStore.Store.AddNodeAndConnect | src/stores/workflowStore.ts:682-817 | the new state is `ConnectStep` of the old one at the spot `ConnectSpotIn` computes |
| WorkflowStore.Store.ToggleDarkMode | src/stores/workflowStore.ts:604-616 | the dark-mode flag flips |
| WorkflowStore.Store.ToggleRightPanel | src/stores/workflowStore.ts:618-620 | the right panel flag flips |
| WorkflowStore.Store.OpenRightPanel | src/stores/workflowStore.ts:622-624 | the right panel opens |
| WorkflowStore.Store.CloseRightPanel | src/stores/workflowStore.ts:626-628 | the right panel closes and the selection clears |
| WorkflowStore.Store.ToggleAddNodePanel | src/stores/workflowStore.ts:630-636 | the add-node panel flips; category and query reset |
| WorkflowStore.Store.OpenAddNodePanel | src/stores/workflowStore.ts:638-646 | the panel opens with the category if truthy, else none; query and source fields reset |
| WorkflowStore.Store.OpenAddNodePanelForSource | src/stores/workflowStore.ts:648-657 | the panel opens for the source node and handle (a falsy handle becomes none); category, query and edge-insert id reset |
| WorkflowStore.Store.CloseAddNodePanel | src/stores/workflowStore.ts:659-668 | the panel closes and all its fields reset |
| WorkflowStore.Store.SetAnpCategory | src/stores/workflowStore.ts:670-672 | the panel category becomes the argument |
| WorkflowStore.Store.SetAnpSearchQuery | src/stores/workflowStore.ts:674-676 | the panel query becomes the argument |
| WorkflowStore.Store.SetAnpEdgeInsertId | src/stores/workflowStore.ts:678-680 | the edge-insert id becomes the argument |
| WorkflowStore.Store.DuplicateNode | src/stores/workflowStore.ts:855-896 | the new state is `DuplicateStep` of the old one |
| WorkflowStore.Store.CopyNode | src/stores/workflowStore.ts:898-909 | the new state is `CopyStep` of the old one |
| WorkflowStore.Store.PasteNode | src/stores/workflowStore.ts:911-951 | the new state is `PasteStep` of the old one |
| WorkflowStore.Store.CutNode | src/stores/workflowStore.ts:953-985 | the new state is `CutStep` of the old one: both of the source's `set` calls are combined |
| Editor.NewStore | src/stores/workflowStore.ts:251-270 | a fresh store over the real catalogue, in the initial state |

## Left out

- Persistence is not modelled. This covers `saveToLocalStorage`, `loadFromLocalStorage`, the zustand `persist` middleware and the start-up dark-mode bootstrap; they are browser storage and JSON I/O.
- `toggleDarkMode`'s changes to the document's class list are not modelled; they are DOM side effects. Only the flag flip is modelled.
- The React components, the icon lookup, and the `updateNodePosition`/`layoutNodes` actions are not modelled. The two actions are declared in the state interface but have no body in the store.
- Condition evaluation (AND/OR, the rule operators) is not modelled because no code evaluates conditions. Only the `ConditionsConfig` types and the catalogue's default value exist. The demo's if-else outputs are fixed values.
- The catalogue's presentation fields (colours, parameter options, placeholders) are left out because no modelled operation reads them.
- Text.Lower: only ASCII letters are lowered, whereas `toLowerCase` folds all of Unicode.
- JavaScript numbers are modelled as unbounded reals, so floating-point rounding of positions is not captured.
- Each action reads the clock once: every id and time stamp in one action shares `nowMs`/`nowIso`. The source calls `Date.now()` and `new Date()` several times, so two ids of one action may differ in the last digit. Freshness of ids is not assumed. The lemmas about the active workflow after a rewrite take `UniqueWorkflowIds` as a premise and also conclude it; their statement about the active workflow alone would hold without it.
- `copyNode` and `cutNode` store a JSON deep copy. With value types that copy is the node itself, and JSON's dropping of `undefined` fields is not captured.
- The store takes its catalogue as a constructor argument; `Editor.NewStore` supplies the real table, which matches the source's import of `getNodeDefinition`.
- updateWorkflow: the partial update is a record of optional fields, so a key set explicitly to `undefined` (which the spread copies) is not distinguished from an absent one.
