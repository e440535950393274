/** Values and nodes that travel through a workflow. */
module WorkflowNodes {
  import opened Wrappers

  /** A JavaScript value; an object keeps its own keys in insertion order. */
  datatype Json =
    | Undefined
    | Null
    | Bool(b: bool)
    | Num(n: real)
    | Str(s: string)
    | Arr(items: seq<Json>)
    | Obj(entries: seq<(string, Json)>)

  datatype Kind = Connector | Agent | Adapter | Decision | Human | Skill | Start | End | Unknown(name: string)

  datatype Operator = Eq | Neq | Gt | Lt | Exists | OtherOperator

  /** The condition of a decision node; `Absent` is any falsy value. */
  datatype Condition =
    | Absent
    | Fixed(value: bool)
    | Test(field: Option<string>, operator: Operator, operand: Json)

  datatype Node = Node(
    id: string,
    kind: Kind,
    capability: Option<string>,
    condition: Condition,
    prompt: Json,
    defaultInput: seq<(string, Json)>,
    inputMapping: seq<(string, string)>,
    dependsOn: seq<string>)
}
