// A workflow as it is submitted: nodes, explicit edges and JSON payloads.
module WorkflowTypes {
  import opened Collections

  /** A JSON value. Object fields keep their order. */
  datatype Value =
    | Null
    | Bool(b: bool)
    | Num(n: int)
    | Str(s: string)
    | Arr(items: seq<Value>)
    | Obj(fields: seq<Field>)

  datatype Field = Field(key: string, value: Value)

  datatype Node = Node(
    nodeId: string,
    capabilityId: string,
    dependencies: Option<seq<string>>,
    payload: Option<seq<Field>>,
    compensationPayload: Option<seq<Field>>)

  datatype Edge = Edge(fromNodeId: string, toNodeId: string)

  datatype Dag = Dag(workflowId: string, nodes: seq<Node>, edges: seq<Edge>)

  function DependenciesOf(node: Node): seq<string> {
    if node.dependencies.Some? then node.dependencies.value else []
  }
}
