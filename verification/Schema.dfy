// The JSON-schema subset: which schemas are accepted, which values they admit,
// and the extra rules a call's result schema has to obey.
module Schema {
  import opened Models
  import opened Ordering

  const ALLOWED_TYPES := {"object", "string", "number", "integer", "boolean", "array"}
  const ALLOWED_KEYS := {"type", "properties", "required", "enum", "description", "additionalProperties", "items"}
  const MAX_DEPTH := 6

  // ---------------------------------------------------------------- schema acceptance

  predicate IsStringList(j: Json) {
    j.Arr? && forall i :: 0 <= i < |j.items| ==> j.items[i].Str?
  }

  // No SchemaError is raised for this node.
  predicate CheckNode(node: Json, depth: nat)
    decreases node
  {
    && depth <= MAX_DEPTH
    && node.Obj?
    && node.fields.Keys <= ALLOWED_KEYS
    && "type" in node.fields && node.fields["type"].Str? && node.fields["type"].s in ALLOWED_TYPES
    && ("description" in node.fields ==> node.fields["description"].Str?)
    && ("enum" in node.fields ==>
          && IsStringList(node.fields["enum"]) && node.fields["enum"].items != []
          && node.fields["type"].s == "string")
    && (if node.fields["type"].s == "object" then
          && "properties" in node.fields && node.fields["properties"].Obj?
          && "additionalProperties" in node.fields && node.fields["additionalProperties"] == Bool(false)
          && ("required" in node.fields ==>
                && IsStringList(node.fields["required"])
                && forall r :: r in node.fields["required"].items ==> r.s in node.fields["properties"].fields)
          && PropertiesAccepted(node.fields["properties"], depth + 1)
        else
          "properties" !in node.fields && "required" !in node.fields && "additionalProperties" !in node.fields)
    && (if node.fields["type"].s == "array"
        then "items" in node.fields && CheckNode(node.fields["items"], depth + 1)
        else "items" !in node.fields)
  }

  predicate PropertiesAccepted(properties: Json, depth: nat)
    requires properties.Obj?
    decreases properties
  {
    forall name :: name in properties.fields ==> name != "" && CheckNode(properties.fields[name], depth)
  }

  predicate ValidateSchema(schema: Json) {
    CheckNode(schema, 0) && schema.fields["type"].s == "object"
  }

  function TypeOf(node: Json): string
    requires node.Obj? && "type" in node.fields && node.fields["type"].Str?
  {
    node.fields["type"].s
  }

  function Strings(j: Json): (r: seq<string>)
    requires IsStringList(j)
    ensures |r| == |j.items| && forall i :: 0 <= i < |r| ==> r[i] == j.items[i].s
  {
    seq(|j.items|, i requires 0 <= i < |j.items| => j.items[i].s)
  }

  function RequiredNames(node: Json): seq<string>
    requires node.Obj? && ("required" in node.fields ==> IsStringList(node.fields["required"]))
  {
    if "required" in node.fields then Strings(node.fields["required"]) else []
  }

  // ---------------------------------------------------------------- validation of a value

  // Where in a value: $ followed by .name and [index] in the text of a message.
  datatype Segment = Property(name: string) | Item(index: nat)

  type Path = seq<Segment>

  const ROOT: Path := []

  datatype Problem =
    | WrongType(path: Path, expected: string)
    | NotInEnum(path: Path)
    | MissingProperty(path: Path, name: string)
    | UnexpectedProperty(path: Path, name: string)

  predicate TypeMatches(value: Json, nodeType: string) {
    match nodeType
    case "object" => value.Obj?
    case "array" => value.Arr?
    case "string" => value.Str?
    case "boolean" => value.Bool?
    case "integer" => value.Int?
    case "number" => value.Int? || value.Float?
    case _ => false
  }

  function MissingProblems(value: Json, names: seq<string>, path: Path): seq<Problem>
    requires value.Obj?
  {
    if names == [] then [] else
      (if names[0] !in value.fields then [MissingProperty(path, names[0])] else [])
      + MissingProblems(value, names[1..], path)
  }

  function UnexpectedProblems(names: seq<string>, properties: Json, path: Path): seq<Problem>
    requires properties.Obj?
  {
    if names == [] then [] else
      (if names[0] !in properties.fields then [UnexpectedProperty(path, names[0])] else [])
      + UnexpectedProblems(names[1..], properties, path)
  }

  // Everything `_collect` reports about a value, in order.
  function Problems(value: Json, node: Json, path: Path, depth: nat): seq<Problem>
    requires CheckNode(node, depth)
    decreases node, 1
  {
    var t := TypeOf(node);
    if !TypeMatches(value, t) then [WrongType(path, t)] else
      EnumProblems(value, node, path) + InnerProblems(value, node, path, depth)
  }

  function EnumProblems(value: Json, node: Json, path: Path): seq<Problem>
    requires node.Obj? && ("enum" in node.fields ==> IsStringList(node.fields["enum"]))
  {
    if "enum" in node.fields && value !in node.fields["enum"].items then [NotInEnum(path)] else []
  }

  function InnerProblems(value: Json, node: Json, path: Path, depth: nat): seq<Problem>
    requires CheckNode(node, depth) && TypeMatches(value, TypeOf(node))
    decreases node, 0, 1, 0
  {
    if TypeOf(node) == "object" then
      ObjectProblems(value, node.fields["properties"], RequiredNames(node), path, depth)
    else if TypeOf(node) == "array" then
      ItemProblems(value.items, node, path, depth)
    else []
  }

  function ObjectProblems(value: Json, properties: Json, required: seq<string>, path: Path, depth: nat): seq<Problem>
    requires value.Obj? && properties.Obj? && PropertiesAccepted(properties, depth + 1)
    decreases properties, 3
  {
    MissingProblems(value, required, path)
    + UnexpectedProblems(Sorted(value.fields.Keys), properties, path)
    + PropertyProblems(value, properties, Sorted(properties.fields.Keys), path, depth)
  }

  function PropertyProblems(value: Json, properties: Json, names: seq<string>, path: Path, depth: nat): seq<Problem>
    requires value.Obj? && properties.Obj? && PropertiesAccepted(properties, depth + 1)
    requires forall n :: n in names ==> n in properties.fields
    decreases properties, 2, |names|
  {
    if names == [] then [] else
      (if names[0] in value.fields
       then Problems(value.fields[names[0]], properties.fields[names[0]], path + [Property(names[0])], depth + 1)
       else [])
      + PropertyProblems(value, properties, names[1..], path, depth)
  }

  function ItemProblems(items: seq<Json>, node: Json, path: Path, depth: nat): seq<Problem>
    requires CheckNode(node, depth) && TypeOf(node) == "array"
    decreases node, 0, 0, |items|
  {
    if items == [] then [] else
      ItemProblems(items[..|items| - 1], node, path, depth)
      + Problems(items[|items| - 1], node.fields["items"], path + [Item(|items| - 1)], depth + 1)
  }

  // The error list the recursive check shares.
  class ErrorList {
    var items: seq<Problem>

    constructor ()
      ensures items == []
    {
      items := [];
    }

    method Append(p: Problem)
      modifies this
      ensures items == old(items) + [p]
    {
      items := items + [p];
    }
  }

  method Collect(value: Json, node: Json, path: Path, errors: ErrorList, ghost depth: nat)
    requires CheckNode(node, depth)
    modifies errors
    ensures errors.items == old(errors.items) + Problems(value, node, path, depth)
    decreases node, 1
  {
    var t := TypeOf(node);
    if !TypeMatches(value, t) {
      errors.Append(WrongType(path, t));
      return;
    }
    ghost var before := errors.items;
    if "enum" in node.fields && value !in node.fields["enum"].items {
      errors.Append(NotInEnum(path));
    }
    assert errors.items == before + EnumProblems(value, node, path);
    CollectInner(value, node, path, errors, depth);
    Joined(before, EnumProblems(value, node, path), InnerProblems(value, node, path, depth));
  }

  lemma Joined<T>(a: seq<T>, b: seq<T>, c: seq<T>)
    ensures a + (b + c) == a + b + c
  {
  }

  method CollectInner(value: Json, node: Json, path: Path, errors: ErrorList, ghost depth: nat)
    requires CheckNode(node, depth) && TypeMatches(value, TypeOf(node))
    modifies errors
    ensures errors.items == old(errors.items) + InnerProblems(value, node, path, depth)
    decreases node, 0, 1
  {
    if TypeOf(node) == "object" {
      CollectObject(value, node.fields["properties"], RequiredNames(node), path, errors, depth);
    } else if TypeOf(node) == "array" {
      CollectItems(value.items, node, path, errors, depth);
    }
  }

  lemma ItemsSnoc(items: seq<Json>, index: nat, node: Json, path: Path, depth: nat)
    requires CheckNode(node, depth) && TypeOf(node) == "array" && index < |items|
    ensures ItemProblems(items[..index + 1], node, path, depth)
         == ItemProblems(items[..index], node, path, depth)
            + Problems(items[index], node.fields["items"], path + [Item(index)], depth + 1)
  {
    assert items[..index + 1][..index] == items[..index];
  }

  method CollectItems(items: seq<Json>, node: Json, path: Path, errors: ErrorList, ghost depth: nat)
    requires CheckNode(node, depth) && TypeOf(node) == "array"
    modifies errors
    ensures errors.items == old(errors.items) + ItemProblems(items, node, path, depth)
    decreases node, 0, 0
  {
    ghost var before := errors.items;
    var itemNode := node.fields["items"];
    for index := 0 to |items|
      invariant errors.items == before + ItemProblems(items[..index], node, path, depth)
    {
      ItemsSnoc(items, index, node, path, depth);
      Collect(items[index], itemNode, path + [Item(index)], errors, depth + 1);
      Joined(before, ItemProblems(items[..index], node, path, depth),
          Problems(items[index], itemNode, path + [Item(index)], depth + 1));
    }
    assert items[..|items|] == items;
  }

  method CollectObject(value: Json, properties: Json, required: seq<string>, path: Path, errors: ErrorList,
      ghost depth: nat)
    requires value.Obj? && properties.Obj? && PropertiesAccepted(properties, depth + 1)
    modifies errors
    ensures errors.items == old(errors.items) + ObjectProblems(value, properties, required, path, depth)
    decreases properties, 3
  {
    var present, declared := Sorted(value.fields.Keys), Sorted(properties.fields.Keys);
    ghost var before := errors.items;
    ghost var missing, unexpected := MissingProblems(value, required, path),
        UnexpectedProblems(present, properties, path);
    ghost var nested := PropertyProblems(value, properties, declared, path, depth);
    CollectMissing(value, required, path, errors);
    CollectUnexpected(present, properties, path, errors);
    CollectProperties(value, properties, declared, path, errors, depth);
    Joined(before, missing + unexpected, nested);
    Joined(before, missing, unexpected);
  }

  method CollectMissing(value: Json, required: seq<string>, path: Path, errors: ErrorList)
    requires value.Obj?
    modifies errors
    ensures errors.items == old(errors.items) + MissingProblems(value, required, path)
  {
    ghost var before := errors.items;
    for i := 0 to |required|
      invariant errors.items + MissingProblems(value, required[i..], path)
          == before + MissingProblems(value, required, path)
    {
      assert required[i..][1..] == required[i + 1..];
      if required[i] !in value.fields {
        errors.Append(MissingProperty(path, required[i]));
      }
    }
  }

  method CollectUnexpected(names: seq<string>, properties: Json, path: Path, errors: ErrorList)
    requires properties.Obj?
    modifies errors
    ensures errors.items == old(errors.items) + UnexpectedProblems(names, properties, path)
  {
    ghost var before := errors.items;
    for i := 0 to |names|
      invariant errors.items + UnexpectedProblems(names[i..], properties, path)
             == before + UnexpectedProblems(names, properties, path)
    {
      assert names[i..][1..] == names[i + 1..];
      if names[i] !in properties.fields {
        errors.Append(UnexpectedProperty(path, names[i]));
      }
    }
  }

  lemma PropertiesFirst(value: Json, properties: Json, names: seq<string>, i: nat, path: Path, depth: nat)
    requires value.Obj? && properties.Obj? && PropertiesAccepted(properties, depth + 1)
    requires i < |names| && forall n :: n in names ==> n in properties.fields
    ensures PropertyProblems(value, properties, names[i..], path, depth)
         == (if names[i] in value.fields
             then Problems(value.fields[names[i]], properties.fields[names[i]], path + [Property(names[i])], depth + 1)
                 else [])
            + PropertyProblems(value, properties, names[i + 1..], path, depth)
  {
    assert names[i..][1..] == names[i + 1..];
  }

  method CollectProperties(value: Json, properties: Json, names: seq<string>, path: Path, errors: ErrorList,
      ghost depth: nat)
    requires value.Obj? && properties.Obj? && PropertiesAccepted(properties, depth + 1)
    requires forall n :: n in names ==> n in properties.fields
    modifies errors
    ensures errors.items == old(errors.items) + PropertyProblems(value, properties, names, path, depth)
    decreases properties, 2
  {
    ghost var before := errors.items;
    for i := 0 to |names|
      invariant errors.items + PropertyProblems(value, properties, names[i..], path, depth)
             == before + PropertyProblems(value, properties, names, path, depth)
    {
      PropertiesFirst(value, properties, names, i, path, depth);
      var name := names[i];
      if name in value.fields {
        Joined(errors.items, Problems(value.fields[name], properties.fields[name], path + [Property(name)], depth + 1),
               PropertyProblems(value, properties, names[i + 1..], path, depth));
        Collect(value.fields[name], properties.fields[name], path + [Property(name)], errors, depth + 1);
      }
    }
  }

  // Total on every accepted schema, and exactly the reported problems.
  method ValidateOutput(value: Json, schema: Json) returns (errors: seq<Problem>)
    requires ValidateSchema(schema)
    ensures errors == Problems(value, schema, ROOT, 0)
    ensures errors == [] <==> Conforms(value, ShapeOf(schema, 0))
  {
    var log := new ErrorList();
    Collect(value, schema, ROOT, log, 0);
    errors := log.items;
    ValidIffConforms(value, schema, ROOT, 0);
  }

  // ---------------------------------------------------------------- meaning

  // What an accepted schema means, with the JSON encoding gone.
  datatype Shape =
    | AnyObject(properties: map<string, Shape>, required: set<string>)
    | AnyArray(item: Shape)
    | AnyString
    | OneOf(choices: seq<string>)
    | AnyNumber
    | AnyInteger
    | AnyBoolean

  function ShapeOf(node: Json, depth: nat): Shape
    requires CheckNode(node, depth)
    decreases node
  {
    match TypeOf(node)
    case "object" =>
      AnyObject(PropertyShapes(node.fields["properties"], depth + 1), Elements(RequiredNames(node)))
    case "array" => AnyArray(ShapeOf(node.fields["items"], depth + 1))
    case "string" => if "enum" in node.fields then OneOf(Strings(node.fields["enum"])) else AnyString
    case "number" => AnyNumber
    case "integer" => AnyInteger
    case _ => AnyBoolean
  }

  function PropertyShapes(properties: Json, depth: nat): map<string, Shape>
    requires properties.Obj? && PropertiesAccepted(properties, depth)
    decreases properties
  {
    map name | name in properties.fields :: ShapeOf(properties.fields[name], depth)
  }

  // Integers reject floats, and a boolean is neither an integer nor a number.
  predicate Conforms(value: Json, shape: Shape)
    decreases shape
  {
    match shape
    case AnyObject(properties, required) =>
      value.Obj? && required <= value.fields.Keys <= properties.Keys
      && forall name :: name in value.fields ==> Conforms(value.fields[name], properties[name])
    case AnyArray(item) => value.Arr? && forall i :: 0 <= i < |value.items| ==> Conforms(value.items[i], item)
    case AnyString => value.Str?
    case OneOf(choices) => value.Str? && value.s in choices
    case AnyNumber => value.Int? || value.Float?
    case AnyInteger => value.Int?
    case AnyBoolean => value.Bool?
  }

  lemma {:induction false} NoMissing(value: Json, names: seq<string>, path: Path)
    requires value.Obj?
    ensures MissingProblems(value, names, path) == [] <==> Elements(names) <= value.fields.Keys
  {
    if names != [] {
      NoMissing(value, names[1..], path);
      assert names == [names[0]] + names[1..];
      assert Elements(names) == {names[0]} + Elements(names[1..]);
    }
  }

  lemma {:induction false} NoUnexpected(names: seq<string>, properties: Json, path: Path)
    requires properties.Obj?
    ensures UnexpectedProblems(names, properties, path) == [] <==> Elements(names) <= properties.fields.Keys
  {
    if names != [] {
      NoUnexpected(names[1..], properties, path);
      assert names == [names[0]] + names[1..];
      assert Elements(names) == {names[0]} + Elements(names[1..]);
    }
  }

  ghost predicate PropertiesConform(value: Json, properties: Json, names: seq<string>, depth: nat)
    requires value.Obj? && properties.Obj? && PropertiesAccepted(properties, depth + 1)
    requires forall n :: n in names ==> n in properties.fields
  {
    forall n :: n in names && n in value.fields ==>
      Conforms(value.fields[n], ShapeOf(properties.fields[n], depth + 1))
  }

  lemma {:induction false} PropertiesIff(value: Json, properties: Json, names: seq<string>, path: Path, depth: nat)
    requires value.Obj? && properties.Obj? && PropertiesAccepted(properties, depth + 1)
    requires forall n :: n in names ==> n in properties.fields
    ensures PropertyProblems(value, properties, names, path, depth) == []
        <==> PropertiesConform(value, properties, names, depth)
    decreases properties, 2, |names|
  {
    if names != [] {
      PropertiesIff(value, properties, names[1..], path, depth);
      assert forall n :: n in names <==> n == names[0] || n in names[1..];
      if names[0] in value.fields {
        ValidIffConforms(value.fields[names[0]], properties.fields[names[0]], path + [Property(names[0])], depth + 1);
      }
    }
  }

  lemma {:induction false} ItemsIff(items: seq<Json>, node: Json, path: Path, depth: nat)
    requires CheckNode(node, depth) && TypeOf(node) == "array"
    ensures ItemProblems(items, node, path, depth) == [] <==>
            forall i :: 0 <= i < |items| ==> Conforms(items[i], ShapeOf(node.fields["items"], depth + 1))
    decreases node, 0, |items|
  {
    if items != [] {
      var rest := items[..|items| - 1];
      ItemsIff(rest, node, path, depth);
      ValidIffConforms(items[|items| - 1], node.fields["items"], path + [Item(|items| - 1)], depth + 1);
      assert forall i :: 0 <= i < |rest| ==> items[i] == rest[i];
    }
  }

  // No error exactly when the value conforms, for every value and accepted schema node.
  lemma {:induction false} ValidIffConforms(value: Json, node: Json, path: Path, depth: nat)
    requires CheckNode(node, depth)
    ensures Problems(value, node, path, depth) == [] <==> Conforms(value, ShapeOf(node, depth))
    decreases node, 1
  {
    var t := TypeOf(node);
    if TypeMatches(value, t) {
      if t == "object" {
        ObjectIff(value, node.fields["properties"], RequiredNames(node), path, depth);
      } else if t == "array" {
        ItemsIff(value.items, node, path, depth);
      } else if t == "string" && "enum" in node.fields {
        EnumIff(value, node.fields["enum"]);
      }
    }
  }

  lemma EnumIff(value: Json, choices: Json)
    requires value.Str? && IsStringList(choices)
    ensures value in choices.items <==> value.s in Strings(choices)
  {
    if value.s in Strings(choices) {
      var i :| 0 <= i < |choices.items| && Strings(choices)[i] == value.s;
      assert choices.items[i] == value;
    }
    if value in choices.items {
      var i :| 0 <= i < |choices.items| && choices.items[i] == value;
      assert Strings(choices)[i] == value.s;
    }
  }

  lemma {:induction false} ObjectIff(value: Json, properties: Json, required: seq<string>, path: Path, depth: nat)
    requires value.Obj? && properties.Obj? && PropertiesAccepted(properties, depth + 1)
    ensures ObjectProblems(value, properties, required, path, depth) == [] <==>
            Conforms(value, AnyObject(PropertyShapes(properties, depth + 1), Elements(required)))
    decreases properties, 3
  {
    NoMissing(value, required, path);
    NoUnexpected(Sorted(value.fields.Keys), properties, path);
    SortedElements(value.fields.Keys);
    PropertiesIff(value, properties, Sorted(properties.fields.Keys), path, depth);
    ObjectConforms(value, properties, required, depth);
    NoneOfThree(MissingProblems(value, required, path), UnexpectedProblems(Sorted(value.fields.Keys), properties, path),
                PropertyProblems(value, properties, Sorted(properties.fields.Keys), path, depth));
  }

  lemma NoneOfThree(a: seq<Problem>, b: seq<Problem>, c: seq<Problem>)
    ensures a + b + c == [] <==> a == [] && b == [] && c == []
  {
  }

  lemma SortedElements(s: set<string>)
    ensures Elements(Sorted(s)) == s
  {
  }

  // An object conforms when its keys do and each of its known properties does.
  lemma ObjectConforms(value: Json, properties: Json, required: seq<string>, depth: nat)
    requires value.Obj? && properties.Obj? && PropertiesAccepted(properties, depth + 1)
    ensures Conforms(value, AnyObject(PropertyShapes(properties, depth + 1), Elements(required))) <==>
      && Elements(required) <= value.fields.Keys <= properties.fields.Keys
      && PropertiesConform(value, properties, Sorted(properties.fields.Keys), depth)
  {
    assert PropertyShapes(properties, depth + 1).Keys == properties.fields.Keys;
    if value.fields.Keys <= properties.fields.Keys {
      assert PropertiesConform(value, properties, Sorted(properties.fields.Keys), depth) <==>
        forall n :: n in value.fields ==> Conforms(value.fields[n], PropertyShapes(properties, depth + 1)[n]);
    }
  }

  // ---------------------------------------------------------------- bounded nesting

  predicate NestsWithin(value: Json, levels: nat)
    decreases value
  {
    match value
    case Arr(items) => items == [] || (levels > 0 && forall i :: 0 <= i < |items| ==> NestsWithin(items[i], levels - 1))
    case Obj(fields) => fields == map[] || (levels > 0 && forall k :: k in fields ==>
        NestsWithin(fields[k], levels - 1))
    case _ => true
  }

  predicate ShapeFits(shape: Shape, levels: nat)
    decreases shape
  {
    match shape
    case AnyObject(properties, _) =>
      properties == map[] || (levels > 0 && forall k :: k in properties ==> ShapeFits(properties[k], levels - 1))
    case AnyArray(item) => levels > 0 && ShapeFits(item, levels - 1)
    case _ => true
  }

  lemma {:induction false} AcceptedShapeFits(node: Json, depth: nat)
    requires CheckNode(node, depth)
    ensures ShapeFits(ShapeOf(node, depth), MAX_DEPTH - depth)
    decreases node
  {
    if TypeOf(node) == "object" {
      var properties := node.fields["properties"];
      forall k | k in properties.fields
        ensures depth < MAX_DEPTH && ShapeFits(ShapeOf(properties.fields[k], depth + 1), MAX_DEPTH - depth - 1)
      {
        AcceptedShapeFits(properties.fields[k], depth + 1);
      }
    } else if TypeOf(node) == "array" {
      AcceptedShapeFits(node.fields["items"], depth + 1);
    }
  }

  lemma {:induction false} ConformingFits(value: Json, shape: Shape, levels: nat)
    requires ShapeFits(shape, levels) && Conforms(value, shape)
    ensures NestsWithin(value, levels)
    decreases value
  {
    match shape
    case AnyObject(properties, _) =>
      forall k | k in value.fields
        ensures levels > 0 && NestsWithin(value.fields[k], levels - 1)
      {
        assert k in properties;
        ConformingFits(value.fields[k], properties[k], levels - 1);
      }
      if value.fields != map[] {
        var k :| k in value.fields;
      }
    case AnyArray(item) =>
      forall i | 0 <= i < |value.items|
        ensures NestsWithin(value.items[i], levels - 1)
      {
        ConformingFits(value.items[i], item, levels - 1);
      }
    case _ =>
  }

  // A value that validates nests no deeper than the depth limit.
  lemma ConformingNesting(value: Json, schema: Json)
    requires ValidateSchema(schema) && Problems(value, schema, ROOT, 0) == []
    ensures NestsWithin(value, MAX_DEPTH)
  {
    ValidIffConforms(value, schema, ROOT, 0);
    AcceptedShapeFits(schema, 0);
    ConformingFits(value, ShapeOf(schema, 0), MAX_DEPTH);
  }
}
