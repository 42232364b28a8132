/** The entities of the workflow builder: condition configurations, node
    catalogue entries, and the workflows (nodes and edges) the store edits. */
module Types {
  import opened Seqs

  // ---- Condition configuration of the If/Else node (declarations only) ----

  datatype Logic = And | Or

  datatype Operator =
    | Equals | NotEquals | Contains | NotContains
    | GreaterThan | LessThan | IsEmpty | IsNotEmpty

  datatype ConditionRule = ConditionRule(id: string, field: string, operator: Operator, value: string)

  datatype ConditionGroup = ConditionGroup(id: string, logic: Logic, conditions: seq<ConditionRule>)

  datatype ConditionsConfig = ConditionsConfig(groups: seq<ConditionGroup>, groupLogic: Logic)

  // ---- Node catalogue ----

  /** A parameter value: `string | number | boolean | ConditionsConfig`. */
  datatype ParamValue =
    | Text(text: string)
    | Number(number: real)
    | Bool(flag: bool)
    | Conditions(config: ConditionsConfig)

  /** One editable parameter of a node type; `kind` is its editor kind
      ("text", "number", "select", "textarea", "checkbox" or "conditions"). */
  datatype NodeParameter = NodeParameter(id: string, title: string, kind: string, value: ParamValue)

  /** One catalogue entry. `kind` is the entry's `type` field and `title` its `label`; an absent
      `hasBranch` is `false`. */
  datatype NodeDefinition = NodeDefinition(
    id: string,
    kind: string,
    category: string,
    title: string,
    subtitle: Option<string>,
    icon: string,
    description: string,
    hasInput: bool,
    hasOutput: bool,
    hasBranch: bool,
    parameters: Option<seq<NodeParameter>>)

  datatype CategoryDefinition = CategoryDefinition(id: string, title: string, description: string, icon: string)

  // ---- Workflows ----

  /** A canvas position; JavaScript numbers are modelled as reals. */
  datatype Position = Position(x: real, y: real)

  /** The `unknown` values of a node's example output. */
  datatype Json =
    | JNull
    | JBool(b: bool)
    | JNumber(n: real)
    | JString(s: string)
    | JArray(items: seq<Json>)
    | JObject(fields: map<string, Json>)

  datatype NodeData = NodeData(
    title: string,
    nodeType: string,
    parameters: Option<map<string, ParamValue>>,
    output: Option<map<string, Json>>)

  /** A node on the canvas; `kind` is its catalogue id (the `type` field). */
  datatype WorkflowNode = WorkflowNode(id: string, kind: string, position: Position, data: NodeData)

  datatype WorkflowEdge = WorkflowEdge(
    id: string,
    source: string,
    target: string,
    sourceHandle: Option<string>,
    targetHandle: Option<string>,
    edgeType: Option<string>,
    animated: Option<bool>)

  datatype Status = Active | Inactive | Draft

  datatype Workflow = Workflow(
    id: string,
    name: string,
    description: Option<string>,
    status: Status,
    nodes: seq<WorkflowNode>,
    edges: seq<WorkflowEdge>,
    createdAt: string,
    updatedAt: string,
    executionCount: int)

  /** `Partial<Workflow>`: each present field overrides the workflow's. */
  datatype WorkflowUpdate = WorkflowUpdate(
    id: Option<string>,
    name: Option<string>,
    description: Option<string>,
    status: Option<Status>,
    nodes: Option<seq<WorkflowNode>>,
    edges: Option<seq<WorkflowEdge>>,
    createdAt: Option<string>,
    updatedAt: Option<string>,
    executionCount: Option<int>)

  /** `Partial<WorkflowNode["data"]>`: each present field overrides the node data's. */
  datatype NodeDataUpdate = NodeDataUpdate(
    title: Option<string>,
    nodeType: Option<string>,
    parameters: Option<map<string, ParamValue>>,
    output: Option<map<string, Json>>)
}
