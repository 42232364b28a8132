/** The node catalogue: the seven categories, the eighteen node types the
    editor offers, and the three lookups over them (by category, by id, and
    a case-insensitive text search). */
module NodeConfig {
  import opened Seqs
  import opened Types
  import Text
  import Catalogue

  const Categories: seq<CategoryDefinition> := [
    CategoryDefinition("ai", "AI", "Agents, summarize, search documents", "Brain"),
    CategoryDefinition("actions", "Action in an app", "Google Sheets, Telegram, Notion", "AppWindow"),
    CategoryDefinition("data", "Data transformation", "Manipulate, filter, convert", "Database"),
    CategoryDefinition("flow", "Flow", "Branch, merge, loop", "GitBranch"),
    CategoryDefinition("core", "Core", "Code, HTTP requests, webhooks", "Code"),
    CategoryDefinition("human", "Human review", "Approval via Slack/Telegram", "UserCheck"),
    CategoryDefinition("triggers", "Add another trigger", "Multiple triggers per workflow", "Zap")
  ]

  /** The default condition set of a fresh If/Else node: one AND group holding
      one empty `equals` rule, groups combined with AND. */
  const DefaultConditions: ConditionsConfig :=
    ConditionsConfig([ConditionGroup("group-1", And, [ConditionRule("condition-1", "", Equals, "")])], And)

  const NodeDefinitions: seq<NodeDefinition> := [
    // Triggers
    NodeDefinition("manual-trigger", "trigger", "triggers", "Manual Trigger", Some("Run workflow manually"), "Play",
      "Triggers workflow execution manually with a button click", false, true, false,
      Some([NodeParameter("testData", "Test Data (JSON)", "textarea", Text("{}"))])),
    NodeDefinition("telegram-trigger", "trigger", "triggers", "Telegram Trigger", Some("On message received"), "MessageSquare",
      "Triggers when a message is received via Telegram bot", false, true, false,
      Some([NodeParameter("botToken", "Bot Token", "text", Text("")),
            NodeParameter("allowedChats", "Allowed Chat IDs", "text", Text(""))])),
    NodeDefinition("webhook", "trigger", "triggers", "Webhook", Some("HTTP trigger"), "Webhook",
      "Triggers when an HTTP request is received", false, true, false,
      Some([NodeParameter("path", "Webhook Path", "text", Text("/webhook")),
            NodeParameter("method", "HTTP Method", "select", Text("POST"))])),
    NodeDefinition("schedule-trigger", "trigger", "triggers", "Schedule Trigger", Some("Cron based trigger"), "Clock",
      "Triggers on a schedule using cron expression", false, true, false,
      Some([NodeParameter("cron", "Cron Expression", "text", Text("0 * * * *"))])),
    // Actions
    NodeDefinition("edit-fields", "action", "actions", "Edit Fields", Some("Set field values"), "Edit3",
      "Edit or set field values in the data", true, true, false,
      Some([NodeParameter("fields", "Fields to Set", "textarea", Text(""))])),
    NodeDefinition("send-message", "action", "actions", "Send Message", Some("Telegram send"), "Send",
      "Send a message via Telegram", true, true, false,
      Some([NodeParameter("chatId", "Chat ID", "text", Text("")),
            NodeParameter("message", "Message", "textarea", Text(""))])),
    NodeDefinition("append-row", "action", "actions", "Append Row", Some("Google Sheets"), "Table",
      "Append a row to Google Sheets", true, true, false,
      Some([NodeParameter("spreadsheetId", "Spreadsheet ID", "text", Text("")),
            NodeParameter("sheetName", "Sheet Name", "text", Text("Sheet1")),
            NodeParameter("values", "Row Values", "textarea", Text(""))])),
    NodeDefinition("http-request", "action", "actions", "HTTP Request", Some("Make HTTP call"), "Globe",
      "Make an HTTP request to any API", true, true, false,
      Some([NodeParameter("url", "URL", "text", Text("")),
            NodeParameter("method", "Method", "select", Text("GET")),
            NodeParameter("headers", "Headers", "textarea", Text(""))])),
    // Data
    NodeDefinition("get-rows", "data", "data", "Get Row(s)", Some("Google Sheets"), "Sheet",
      "Get rows from Google Sheets", true, true, false,
      Some([NodeParameter("spreadsheetId", "Spreadsheet ID", "text", Text("")),
            NodeParameter("range", "Range", "text", Text("A:Z"))])),
    // Flow
    NodeDefinition("if-else", "flow", "flow", "If / If-Else", Some("Conditional branch"), "GitBranch",
      "Branch workflow based on condition", true, true, true,
      Some([NodeParameter("conditions", "Conditions", "conditions", Conditions(DefaultConditions))])),
    NodeDefinition("filter", "flow", "flow", "Filter", Some("Filter items"), "Filter",
      "Filter items based on condition", true, true, false,
      Some([NodeParameter("field", "Field", "text", Text("")),
            NodeParameter("operator", "Operator", "select", Text("equals")),
            NodeParameter("value", "Value", "text", Text(""))])),
    NodeDefinition("switch", "flow", "flow", "Switch", Some("Multiple branches"), "Route",
      "Route to multiple branches based on value", true, true, false,
      Some([NodeParameter("field", "Field to Check", "text", Text(""))])),
    NodeDefinition("no-op", "flow", "flow", "No Operation", Some("Pass through"), "Minus",
      "Does nothing, just passes data through", true, false, false,
      None),
    // Core
    NodeDefinition("code-js", "core", "core", "Code JS", Some("JavaScript code"), "Code",
      "Run custom JavaScript code", true, true, false,
      Some([NodeParameter("code", "JavaScript Code", "textarea", Text(""))])),
    // AI
    NodeDefinition("ai-agent", "ai", "ai", "AI Agent", Some("Analyze intent"), "Brain",
      "AI agent to analyze and process data", true, true, false,
      Some([NodeParameter("prompt", "System Prompt", "textarea", Text("")),
            NodeParameter("model", "Model", "select", Text("gpt-4"))])),
    NodeDefinition("openai", "ai", "ai", "OpenAI", Some("GPT completion"), "Sparkles",
      "OpenAI GPT completion", true, true, false,
      Some([NodeParameter("prompt", "Prompt", "textarea", Text("")),
            NodeParameter("model", "Model", "select", Text("gpt-4"))])),
    NodeDefinition("ai-transform", "ai", "ai", "AI Transform", Some("Transform data"), "Wand2",
      "Transform data using AI", true, true, false,
      Some([NodeParameter("instruction", "Transform Instruction", "textarea", Text(""))])),
    // Human
    NodeDefinition("human-review", "human", "human", "Human Review", Some("Approval required"), "UserCheck",
      "Require human approval before continuing", true, true, false,
      Some([NodeParameter("reviewers", "Reviewers", "text", Text("")),
            NodeParameter("timeout", "Timeout (hours)", "number", Number(24.0))]))
  ]

  /** `getNodesByCategory`: the entries of one category, in catalogue order. */
  function GetNodesByCategory(category: string): (r: seq<NodeDefinition>)
    ensures forall i :: 0 <= i < |r| ==> r[i] in NodeDefinitions && r[i].category == category
    ensures forall i :: 0 <= i < |NodeDefinitions| && NodeDefinitions[i].category == category
                        ==> NodeDefinitions[i] in r
    ensures IsSubsequence(r, NodeDefinitions)
  {
    Filter(NodeDefinitions, (d: NodeDefinition) => d.category == category)
  }

  /** `getNodeDefinition`: the first entry with the given id, if any. */
  function GetNodeDefinition(id: string): (r: Option<NodeDefinition>)
    ensures r.None? <==> forall i :: 0 <= i < |NodeDefinitions| ==> NodeDefinitions[i].id != id
    ensures r.Some? ==> r.value in NodeDefinitions && r.value.id == id
  {
    Catalogue.LookupIn(NodeDefinitions, id)
  }

  /** The search test of one entry against an already lowercased query: the
      label, the subtitle when it is present and non-empty, or the
      description includes the query, ignoring ASCII case. */
  predicate Matches(d: NodeDefinition, lowerQuery: string)
  {
    || Text.Includes(Text.Lower(d.title), lowerQuery)
    || (d.subtitle.Some? && d.subtitle.value != "" && Text.Includes(Text.Lower(d.subtitle.value), lowerQuery))
    || Text.Includes(Text.Lower(d.description), lowerQuery)
  }

  /** `searchNodes`: the entries matching the lowercased query, in catalogue order. */
  function SearchNodes(query: string): (r: seq<NodeDefinition>)
    ensures forall i :: 0 <= i < |r| ==> r[i] in NodeDefinitions && Matches(r[i], Text.Lower(query))
    ensures forall i :: 0 <= i < |NodeDefinitions| && Matches(NodeDefinitions[i], Text.Lower(query))
                        ==> NodeDefinitions[i] in r
    ensures IsSubsequence(r, NodeDefinitions)
  {
    var lowerQuery := Text.Lower(query);
    Filter(NodeDefinitions, (d: NodeDefinition) => Matches(d, lowerQuery))
  }

  // ---- Properties of the tables and the lookups ----

  /** The ids of the eighteen entries, in catalogue order. */
  function NodeIds(): (r: seq<string>)
    ensures |r| == |NodeDefinitions| && forall k :: 0 <= k < |r| ==> r[k] == NodeDefinitions[k].id
  {
    seq(|NodeDefinitions|, k requires 0 <= k < |NodeDefinitions| => NodeDefinitions[k].id)
  }

  /** The eighteen ids, spelled out in catalogue order. */
  function NodeIdList(): seq<string>
  {
    ["manual-trigger", "telegram-trigger", "webhook", "schedule-trigger", "edit-fields", "send-message",
     "append-row", "http-request", "get-rows", "if-else", "filter", "switch", "no-op", "code-js", "ai-agent",
     "openai", "ai-transform", "human-review"]
  }

  lemma NodeIdListDistinct()
    ensures forall i, j :: 0 <= i < j < |NodeIdList()| ==> NodeIdList()[i] != NodeIdList()[j]
  {
  }

  lemma NodeIdsListed()
    ensures NodeIds() == NodeIdList()
  {
  }

  /** The ids of the catalogue entries are pairwise distinct. */
  lemma NodeIdsDistinct()
    ensures Catalogue.IdsDistinct(NodeDefinitions)
  {
    NodeIdsListed();
    NodeIdListDistinct();
  }

  /** The ids of the seven categories, in table order. */
  function CategoryIds(): (r: seq<string>)
    ensures |r| == |Categories| && forall k :: 0 <= k < |r| ==> r[k] == Categories[k].id
  {
    seq(|Categories|, k requires 0 <= k < |Categories| => Categories[k].id)
  }

  /** Every entry's category is one of the seven category ids. */
  lemma CategoriesKnown()
    ensures forall i :: 0 <= i < |NodeDefinitions| ==> NodeDefinitions[i].category in CategoryIds()
  {
    assert CategoryIds() == ["ai", "actions", "data", "flow", "core", "human", "triggers"];
  }

  /** Only the If/Else entry branches. */
  lemma OnlyIfElseBranches()
    ensures forall i :: 0 <= i < |NodeDefinitions| ==>
              (NodeDefinitions[i].hasBranch <==> NodeDefinitions[i].id == "if-else")
  {
    assert forall i :: 0 <= i < |NodeDefinitions| && NodeDefinitions[i].hasBranch ==> i == 9;
    assert forall i :: 0 <= i < |NodeDefinitions| && NodeDefinitions[i].id == "if-else" ==> i == 9;
  }

  /** The If/Else entry seeds one "conditions" parameter whose value has one
      AND group with a single `equals` rule, groups combined with AND. */
  lemma IfElseDefault()
    ensures GetNodeDefinition("if-else").Some?
    ensures var d := GetNodeDefinition("if-else").value;
            && d.hasBranch
            && d.parameters == Some([NodeParameter("conditions", "Conditions", "conditions", Conditions(DefaultConditions))])
    ensures |DefaultConditions.groups| == 1 && DefaultConditions.groupLogic == And
    ensures DefaultConditions.groups[0].logic == And && |DefaultConditions.groups[0].conditions| == 1
    ensures DefaultConditions.groups[0].conditions[0].operator == Equals
  {
    GetNodeDefinitionExact("if-else", NodeDefinitions[9]);
  }

  /** The catalogue lookup finds an entry exactly when it is in the catalogue under that id. */
  lemma GetNodeDefinitionExact(id: string, d: NodeDefinition)
    ensures GetNodeDefinition(id) == Some(d) <==> d in NodeDefinitions && d.id == id
  {
    NodeIdsDistinct();
    Catalogue.LookupInExact(NodeDefinitions, id, d);
  }

  /** The search ignores the case of the query. */
  lemma SearchIgnoresCase(query: string)
    ensures SearchNodes(query) == SearchNodes(Text.Lower(query))
  {
    Text.LowerIdempotent(query);
  }

  /** The empty query returns the whole catalogue, in order. */
  lemma SearchEmptyReturnsAll()
    ensures SearchNodes("") == NodeDefinitions
  {
    var keep := (d: NodeDefinition) => Matches(d, Text.Lower(""));
    forall i | 0 <= i < |NodeDefinitions|
      ensures keep(NodeDefinitions[i])
    {
      Text.EmptyIncluded(Text.Lower(NodeDefinitions[i].title));
    }
    FilterKeepsAll(NodeDefinitions, keep);
  }
}
