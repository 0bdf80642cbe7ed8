// Value entities shared by several components.
module Models {
  type Id = string

  datatype Option<+T> = None | Some(value: T)

  datatype Result<+T, +E> = Ok(value: T) | Err(error: E)

  // A decoded JSON value. Integers and floats are different types to the
  // validator; an object is a mapping from distinct keys.
  datatype Json =
    | Null
    | Bool(b: bool)
    | Int(i: int)
    | Float(r: real)
    | Str(s: string)
    | Arr(items: seq<Json>)
    | Obj(fields: map<string, Json>)

  datatype RiskLevel = LOW | MEDIUM | HIGH

  datatype AgentState =
    | CREATED | WAITING | READY | WORKING | BLOCKED | WAITING_FOR_DEPENDENCY
    | WAITING_FOR_CALL | REVIEWING | COMPLETE | STOPPED | FAILED

  // A generated specialist, as persisted.
  datatype AgentSpec = AgentSpec(
    id: Id,
    name: string,
    role: string,
    objective: string,
    whyNeeded: string,
    owns: string,
    allowedTools: seq<string>,
    requiredInputs: seq<string>,
    dependencies: seq<Id>,
    outputSchema: Json,
    doesNotControl: seq<string>,
    stopConditions: seq<string>,
    riskLevel: RiskLevel)
}
