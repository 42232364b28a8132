/** The store the editor uses: the workflow store over the node catalogue. */
module Editor {
  import opened StoreActions
  import opened WorkflowStore
  import NodeConfig

  /** Creates the store with its initial state, looking node types up in the
      node catalogue. */
  method NewStore(nowIso: string) returns (store: Store)
    ensures fresh(store) && store.catalogue == NodeConfig.NodeDefinitions
    ensures store.State() == InitialState(nowIso)
  {
    store := new Store(NodeConfig.NodeDefinitions, nowIso);
  }
}
