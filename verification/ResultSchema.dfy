// Rules a call's result schema obeys on top of the subset, the schema compiler,
// and the edit that adds a required status enum.
module ResultSchema {
  import opened Models
  import opened Ordering
  import opened Schema

  const UNKNOWN := "unknown"
  const RESERVED_FIELD_NAMES := {"summary", "status", "transcript", "call_id"}
  const OMITTABLE_PHRASES := ["omit", "if available", "optional", "when given"]
  const MAX_ENUM_VALUES: nat := 12

  predicate ReservedName(name: string) {
    name in RESERVED_FIELD_NAMES || (|name| >= 3 && name[|name| - 3..] == "_at")
  }

  datatype RuleProblem =
    | BooleanField(path: string)
    | EnumLacksUnknown(path: string)
    | RequiredButOmittable(path: string)
    | ReservedFieldName(path: string)

  // `lower` is the text library's case folding.
  predicate OmittableDescription(node: Json, lower: string -> string)
    requires node.Obj? && ("description" in node.fields ==> node.fields["description"].Str?)
  {
    var description := lower(if "description" in node.fields then node.fields["description"].s else "");
    exists k :: 0 <= k < |OMITTABLE_PHRASES| && Contains(description, OMITTABLE_PHRASES[k])
  }

  function OwnRules(node: Json, path: string, required: bool, depth: nat, lower: string -> string): seq<RuleProblem>
    requires CheckNode(node, depth)
  {
    (if TypeOf(node) == "boolean" then [BooleanField(path)] else [])
    + (if "enum" in node.fields then
         if UNKNOWN !in Strings(node.fields["enum"]) then [EnumLacksUnknown(path)] else []
       else if required && TypeOf(node) !in {"object", "array"} && OmittableDescription(node, lower) then
         [RequiredButOmittable(path)]
       else [])
  }

  // Everything `_walk` reports.
  function RuleProblems(node: Json, path: string, required: bool, depth: nat, lower: string -> string): seq<RuleProblem>
    requires CheckNode(node, depth)
    decreases node, 0
  {
    OwnRules(node, path, required, depth, lower)
    + (if TypeOf(node) == "object" then
         PropertyRules(node.fields["properties"], Sorted(node.fields["properties"].fields.Keys),
                       Elements(RequiredNames(node)), path, depth + 1, lower)
       else if TypeOf(node) == "array" then
         RuleProblems(node.fields["items"], path + "[]", false, depth + 1, lower)
       else [])
  }

  function PropertyRules(properties: Json, names: seq<string>, required: set<string>, path: string, depth: nat,
                         lower: string -> string): seq<RuleProblem>
    requires properties.Obj? && PropertiesAccepted(properties, depth)
    requires forall n :: n in names ==> n in properties.fields
    decreases properties, 1, |names|
  {
    if names == [] then [] else
      (if ReservedName(names[0]) then [ReservedFieldName(path + "." + names[0])] else [])
      + RuleProblems(properties.fields[names[0]], path + "." + names[0], names[0] in required, depth, lower)
      + PropertyRules(properties, names[1..], required, path, depth, lower)
  }

  predicate ResultSchemaOk(schema: Json, lower: string -> string) {
    ValidateSchema(schema) && RuleProblems(schema, "$", false, 0, lower) == []
  }

  // ---------------------------------------------------------------- what the rules buy

  predicate HonestShape(shape: Shape)
    decreases shape
  {
    match shape
    case AnyObject(properties, _) => forall k :: k in properties ==> HonestShape(properties[k])
    case AnyArray(item) => HonestShape(item)
    case OneOf(choices) => UNKNOWN in choices
    case AnyBoolean => false
    case _ => true
  }

  lemma {:induction false} RulesMakeHonest(node: Json, path: string, required: bool, depth: nat,
      lower: string -> string)
    requires CheckNode(node, depth) && RuleProblems(node, path, required, depth, lower) == []
    ensures HonestShape(ShapeOf(node, depth))
    decreases node, 0
  {
    var t := TypeOf(node);
    assert OwnRules(node, path, required, depth, lower) == [];
    if t == "object" {
      var properties := node.fields["properties"];
      PropertyRulesMakeHonest(properties, Sorted(properties.fields.Keys), Elements(RequiredNames(node)), path,
          depth + 1, lower);
    } else if t == "array" {
      RulesMakeHonest(node.fields["items"], path + "[]", false, depth + 1, lower);
    }
  }

  lemma {:induction false} PropertyRulesMakeHonest(properties: Json, names: seq<string>, required: set<string>,
      path: string,
                                                   depth: nat, lower: string -> string)
    requires properties.Obj? && PropertiesAccepted(properties, depth)
    requires forall n :: n in names ==> n in properties.fields
    requires PropertyRules(properties, names, required, path, depth, lower) == []
    ensures forall n :: n in names ==> HonestShape(ShapeOf(properties.fields[n], depth)) && !ReservedName(n)
    decreases properties, 1, |names|
  {
    if names != [] {
      RulesMakeHonest(properties.fields[names[0]], path + "." + names[0], names[0] in required, depth, lower);
      PropertyRulesMakeHonest(properties, names[1..], required, path, depth, lower);
      assert forall n :: n in names <==> n == names[0] || n in names[1..];
    }
  }

  // The same answer with every enumerated field turned into "not established".
  function Blur(value: Json, shape: Shape): Json
    requires Conforms(value, shape)
    decreases shape
  {
    match shape
    case AnyObject(properties, _) => Obj(map k | k in value.fields :: Blur(value.fields[k], properties[k]))
    case AnyArray(item) => Arr(seq(|value.items|, i requires 0 <= i < |value.items| => Blur(value.items[i], item)))
    case OneOf(_) => Str(UNKNOWN)
    case _ => value
  }

  lemma {:induction false} BlurConforms(value: Json, shape: Shape)
    requires HonestShape(shape) && Conforms(value, shape)
    ensures Conforms(Blur(value, shape), shape)
    decreases shape
  {
    match shape
    case AnyObject(properties, _) =>
      forall k | k in value.fields
        ensures Conforms(Blur(value.fields[k], properties[k]), properties[k])
      {
        BlurConforms(value.fields[k], properties[k]);
      }
      assert Blur(value, shape).fields.Keys == value.fields.Keys;
    case AnyArray(item) =>
      forall i | 0 <= i < |value.items|
        ensures Conforms(Blur(value.items[i], item), item)
      {
        BlurConforms(value.items[i], item);
      }
    case _ =>
  }

  predicate NoBooleans(value: Json)
    decreases value
  {
    match value
    case Bool(_) => false
    case Arr(items) => forall i :: 0 <= i < |items| ==> NoBooleans(items[i])
    case Obj(fields) => forall k :: k in fields ==> NoBooleans(fields[k])
    case _ => true
  }

  lemma {:induction false} HonestNoBooleans(value: Json, shape: Shape)
    requires HonestShape(shape) && Conforms(value, shape)
    ensures NoBooleans(value)
    decreases shape
  {
    match shape
    case AnyObject(properties, _) =>
      forall k | k in value.fields
        ensures NoBooleans(value.fields[k])
      {
        HonestNoBooleans(value.fields[k], properties[k]);
      }
    case AnyArray(item) =>
      forall i | 0 <= i < |value.items|
        ensures NoBooleans(value.items[i])
      {
        HonestNoBooleans(value.items[i], item);
      }
    case _ =>
  }

  // "The call did not establish this" is representable for every enumerated
  // field at once, and no decision is ever reported as a boolean.
  lemma UnknownIsAlwaysRepresentable(schema: Json, value: Json, lower: string -> string)
    requires ResultSchemaOk(schema, lower)
    requires Problems(value, schema, ROOT, 0) == []
    ensures Conforms(value, ShapeOf(schema, 0))
    ensures Problems(Blur(value, ShapeOf(schema, 0)), schema, ROOT, 0) == []
    ensures NoBooleans(value)
  {
    var shape := ShapeOf(schema, 0);
    ValidIffConforms(value, schema, ROOT, 0);
    RulesMakeHonest(schema, "$", false, 0, lower);
    BlurConforms(value, shape);
    ValidIffConforms(Blur(value, shape), schema, ROOT, 0);
    HonestNoBooleans(value, shape);
  }

  // ---------------------------------------------------------------- adding a status enum

  function StrList(values: seq<string>): (j: Json)
    ensures IsStringList(j) && Strings(j) == values
  {
    Arr(seq(|values|, i requires 0 <= i < |values| => Str(values[i])))
  }

  function EnumNode(values: seq<string>, description: string): Json {
    Obj(map["type" := Str("string"), "enum" := StrList(values), "description" := Str(description)])
  }

  function Extended(schema: Json, field: string, values: seq<string>, description: string): Json
    requires schema.Obj?
    requires "properties" in schema.fields ==> schema.fields["properties"].Obj?
    requires "required" in schema.fields ==> schema.fields["required"].Arr?
  {
    var f := schema.fields;
    var properties := if "properties" in f then f["properties"].fields else map[];
    var required := if "required" in f then f["required"].items else [];
    Obj(map["type" := Str("object"), "additionalProperties" := Bool(false)] + f
        + map["properties" := Obj(properties[field := EnumNode(values, description)]),
              "required" := Arr(if Str(field) in required then required else required + [Str(field)])])
  }

  function WithStatusEnum(schema: Json, field: string, values: seq<string>, description: string,
                          lower: string -> string): Option<Json>
    requires schema.Obj?
    requires "properties" in schema.fields ==> schema.fields["properties"].Obj?
    requires "required" in schema.fields ==> schema.fields["required"].Arr?
  {
    var updated := Extended(schema, field, values, description);
    if ResultSchemaOk(updated, lower) then Some(updated) else None
  }

  // u is the object schema with one more required field.
  ghost predicate ExtendsBy(u: Json, schema: Json, field: string, node: Json)
    requires ValidateSchema(schema)
  {
    && u.Obj? && u.fields.Keys == schema.fields.Keys + {"required"}
    && u.fields["type"] == Str("object") && u.fields["additionalProperties"] == Bool(false)
    && ("description" in schema.fields ==> u.fields["description"] == schema.fields["description"])
    && "enum" !in u.fields && "items" !in u.fields
    && u.fields["properties"] == Obj(schema.fields["properties"].fields[field := node])
    && IsStringList(u.fields["required"])
    && Elements(RequiredNames(u)) == Elements(RequiredNames(schema)) + {field}
  }

  lemma ExtendedFields(schema: Json, field: string, values: seq<string>, description: string)
    requires ValidateSchema(schema)
    ensures ExtendsBy(Extended(schema, field, values, description), schema, field, EnumNode(values, description))
  {
    var f := schema.fields;
    var u := Extended(schema, field, values, description);
    var required := if "required" in f then f["required"].items else [];
    var names := RequiredNames(schema);
    assert forall i :: 0 <= i < |required| ==> required[i] == Str(names[i]);
    if Str(field) in required {
      var i :| 0 <= i < |required| && required[i] == Str(field);
      assert names[i] == field;
      assert RequiredNames(u) == names;
    } else {
      assert RequiredNames(u) == names + [field];
    }
  }

  lemma EnumNodeAccepted(values: seq<string>, description: string, depth: nat)
    requires depth <= MAX_DEPTH
    ensures CheckNode(EnumNode(values, description), depth) <==> values != []
    ensures values != [] ==> ShapeOf(EnumNode(values, description), depth) == OneOf(values)
  {
    var node := EnumNode(values, description);
    assert node.fields["type"].s == "string";
  }

  lemma ExtendedProperties(properties: Json, field: string, node: Json)
    requires properties.Obj? && PropertiesAccepted(properties, 1)
    ensures PropertiesAccepted(Obj(properties.fields[field := node]), 1) <==> field != "" && CheckNode(node, 1)
  {
    var extended := Obj(properties.fields[field := node]);
    forall name | name in extended.fields && name != field
      ensures name != "" && CheckNode(extended.fields[name], 1)
    {
      assert name in properties.fields;
    }
    assert field in extended.fields;
  }

  lemma ExtendedRequired(schema: Json, u: Json, field: string)
    requires ValidateSchema(schema)
    requires u.Obj? && "required" in u.fields && IsStringList(u.fields["required"])
    requires "properties" in u.fields && u.fields["properties"].Obj?
    requires u.fields["properties"].fields.Keys == schema.fields["properties"].fields.Keys + {field}
    requires Elements(RequiredNames(u)) == Elements(RequiredNames(schema)) + {field}
    ensures forall r :: r in u.fields["required"].items ==> r.s in u.fields["properties"].fields
  {
    forall r | r in u.fields["required"].items
      ensures r.s in u.fields["properties"].fields
    {
      var i :| 0 <= i < |u.fields["required"].items| && u.fields["required"].items[i] == r;
      assert RequiredNames(u)[i] == r.s;
      assert r.s in Elements(RequiredNames(u));
      if r.s != field {
        var k :| 0 <= k < |RequiredNames(schema)| && RequiredNames(schema)[k] == r.s;
        assert schema.fields["required"].items[k] in schema.fields["required"].items;
      }
    }
  }

  // Accepted by the subset exactly when the new field has a name and a choice.
  lemma ExtendedAccepted(schema: Json, u: Json, field: string, values: seq<string>, description: string)
    requires ValidateSchema(schema) && ExtendsBy(u, schema, field, EnumNode(values, description))
    ensures ValidateSchema(u) <==> field != "" && values != []
  {
    EnumNodeAccepted(values, description, 1);
    ExtendedProperties(schema.fields["properties"], field, EnumNode(values, description));
    ExtendedRequired(schema, u, field);
    assert CheckNode(u, 0) <==> PropertiesAccepted(u.fields["properties"], 1);
  }

  // Then it means the old object plus one required enumerated field.
  lemma ExtendedShape(schema: Json, u: Json, field: string, values: seq<string>, description: string)
    requires ValidateSchema(schema) && ValidateSchema(u) && values != []
    requires ExtendsBy(u, schema, field, EnumNode(values, description))
    ensures ShapeOf(u, 0) == AnyObject(ShapeOf(schema, 0).properties[field := OneOf(values)],
        ShapeOf(schema, 0).required + {field})
  {
    EnumNodeAccepted(values, description, 1);
    ShapesUpdate(schema.fields["properties"], u.fields["properties"], field, EnumNode(values, description));
  }

  lemma PropertyShape(properties: Json, n: string)
    requires properties.Obj? && PropertiesAccepted(properties, 1)
    ensures PropertyShapes(properties, 1).Keys == properties.fields.Keys
    ensures n in properties.fields ==> PropertyShapes(properties, 1)[n] == ShapeOf(properties.fields[n], 1)
  {
  }

  lemma SameShapes(a: map<string, Shape>, b: map<string, Shape>)
    requires a.Keys == b.Keys && forall n :: n in a ==> a[n] == b[n]
    ensures a == b
  {
  }

  lemma ShapesUpdate(before: Json, after: Json, field: string, node: Json)
    requires before.Obj? && PropertiesAccepted(before, 1) && CheckNode(node, 1)
    requires after == Obj(before.fields[field := node]) && PropertiesAccepted(after, 1)
    ensures PropertyShapes(after, 1) == PropertyShapes(before, 1)[field := ShapeOf(node, 1)]
  {
    var a, b := PropertyShapes(after, 1), PropertyShapes(before, 1)[field := ShapeOf(node, 1)];
    PropertyShape(after, field);
    PropertyShape(before, field);
    forall n | n in a
      ensures a[n] == b[n]
    {
      PropertyShape(after, n);
      PropertyShape(before, n);
    }
    SameShapes(a, b);
  }

  // A value meets the extended schema exactly when the new field holds one of
  // the choices and everything else meets the schema it was added to.
  lemma StatusEnumMeaning(schema: Json, field: string, values: seq<string>, description: string,
      lower: string -> string, value: Json)
    requires ValidateSchema(schema) && field !in schema.fields["properties"].fields
    requires WithStatusEnum(schema, field, values, description, lower).Some?
    ensures var u := WithStatusEnum(schema, field, values, description, lower).value;
      ValidateSchema(u) &&
      (Conforms(value, ShapeOf(u, 0)) <==>
        && value.Obj? && field in value.fields
        && value.fields[field].Str? && value.fields[field].s in values
        && Conforms(Obj(value.fields - {field}), ShapeOf(schema, 0)))
  {
    var u := WithStatusEnum(schema, field, values, description, lower).value;
    ExtendedFields(schema, field, values, description);
    ExtensionMeaning(schema, u, field, values, description, value);
  }

  lemma ExtensionMeaning(schema: Json, u: Json, field: string, values: seq<string>, description: string, value: Json)
    requires ValidateSchema(schema) && field !in schema.fields["properties"].fields && ValidateSchema(u)
    requires ExtendsBy(u, schema, field, EnumNode(values, description))
    ensures Conforms(value, ShapeOf(u, 0)) <==>
      && value.Obj? && field in value.fields
      && value.fields[field].Str? && value.fields[field].s in values
      && Conforms(Obj(value.fields - {field}), ShapeOf(schema, 0))
  {
    ExtendedAccepted(schema, u, field, values, description);
    ExtendedShape(schema, u, field, values, description);
    var shape := ShapeOf(schema, 0);
    ShapeRequired(schema);
    ExtendedObjectMeaning(shape.properties, shape.required, field, values, value);
  }

  lemma ShapeRequired(schema: Json)
    requires ValidateSchema(schema)
    ensures ShapeOf(schema, 0).AnyObject?
    ensures ShapeOf(schema, 0).properties.Keys == schema.fields["properties"].fields.Keys
    ensures ShapeOf(schema, 0).required <= ShapeOf(schema, 0).properties.Keys
  {
    forall r | r in RequiredNames(schema)
      ensures r in schema.fields["properties"].fields
    {
      var k :| 0 <= k < |RequiredNames(schema)| && RequiredNames(schema)[k] == r;
      assert schema.fields["required"].items[k] in schema.fields["required"].items;
    }
  }

  lemma ExtendedObjectMeaning(properties: map<string, Shape>, required: set<string>, field: string,
      values: seq<string>, value: Json)
    requires field !in properties && required <= properties.Keys
    ensures Conforms(value, AnyObject(properties[field := OneOf(values)], required + {field})) <==>
      && value.Obj? && field in value.fields
      && value.fields[field].Str? && value.fields[field].s in values
      && Conforms(Obj(value.fields - {field}), AnyObject(properties, required))
  {
    if value.Obj? && field in value.fields {
      var rest := value.fields - {field};
      assert rest.Keys == value.fields.Keys - {field};
      assert properties[field := OneOf(values)].Keys == properties.Keys + {field};
      assert required + {field} <= value.fields.Keys <==> required <= rest.Keys;
      assert value.fields.Keys <= properties.Keys + {field} <==> rest.Keys <= properties.Keys;
      assert Conforms(value.fields[field], OneOf(values))
          <==> value.fields[field].Str? && value.fields[field].s in values;
      forall name | name in value.fields && name != field
        ensures rest[name] == value.fields[name] && properties[field := OneOf(values)].Keys >= {field}
      {
      }
    }
  }

  lemma {:induction false} PropertyRulesClean(properties: Json, names: seq<string>, required: set<string>, path: string,
                                              depth: nat, lower: string -> string)
    requires properties.Obj? && PropertiesAccepted(properties, depth)
    requires forall n :: n in names ==> n in properties.fields
    ensures PropertyRules(properties, names, required, path, depth, lower) == [] <==>
            forall n :: n in names ==> PropertyClean(properties, n, required, path, depth, lower)
    decreases |names|
  {
    if names != [] {
      var head, rest := names[0], names[1..];
      PropertyRulesClean(properties, rest, required, path, depth, lower);
      assert names == [head] + rest;
      assert PropertyRules(properties, names, required, path, depth, lower) == [] <==>
        PropertyClean(properties, head, required, path, depth, lower)
        && PropertyRules(properties, rest, required, path, depth, lower) == [];
    }
  }

  ghost predicate PropertyClean(properties: Json, name: string, required: set<string>, path: string, depth: nat,
                                lower: string -> string)
    requires properties.Obj? && PropertiesAccepted(properties, depth) && name in properties.fields
  {
    !ReservedName(name)
    && RuleProblems(properties.fields[name], path + "." + name, name in required, depth, lower) == []
  }

  lemma ObjectRulesClean(schema: Json, lower: string -> string)
    requires ValidateSchema(schema)
    ensures ResultSchemaOk(schema, lower) <==>
      forall n :: n in schema.fields["properties"].fields ==>
        PropertyClean(schema.fields["properties"], n, Elements(RequiredNames(schema)), "$", 1, lower)
  {
    var properties := schema.fields["properties"];
    var names := Sorted(properties.fields.Keys);
    assert OwnRules(schema, "$", false, 0, lower) == [];
    PropertyRulesClean(properties, names, Elements(RequiredNames(schema)), "$", 1, lower);
  }

  lemma EnumNodeClean(values: seq<string>, description: string, path: string, required: bool, lower: string -> string)
    requires values != []
    ensures CheckNode(EnumNode(values, description), 1)
    ensures RuleProblems(EnumNode(values, description), path, required, 1, lower) == [] <==> UNKNOWN in values
  {
    EnumNodeAccepted(values, description, 1);
    var node := EnumNode(values, description);
    assert TypeOf(node) == "string" && Strings(node.fields["enum"]) == values;
  }

  // Adding a status enum to an acceptable schema succeeds exactly when the
  // field has a usable name and "unknown" is one of the choices.
  lemma StatusEnumAccepted(schema: Json, field: string, values: seq<string>, description: string,
      lower: string -> string)
    requires ResultSchemaOk(schema, lower) && field !in schema.fields["properties"].fields
    ensures WithStatusEnum(schema, field, values, description, lower).Some? <==>
            field != "" && !ReservedName(field) && UNKNOWN in values
  {
    var u := Extended(schema, field, values, description);
    ExtendedFields(schema, field, values, description);
    ExtensionAccepted(schema, u, field, values, description, lower);
  }

  lemma ExtensionAccepted(schema: Json, u: Json, field: string, values: seq<string>, description: string,
      lower: string -> string)
    requires ResultSchemaOk(schema, lower) && field !in schema.fields["properties"].fields
    requires ExtendsBy(u, schema, field, EnumNode(values, description))
    ensures ResultSchemaOk(u, lower) <==> field != "" && !ReservedName(field) && UNKNOWN in values
  {
    ExtendedAccepted(schema, u, field, values, description);
    if field != "" && values != [] {
      ObjectRulesClean(schema, lower);
      ObjectRulesClean(u, lower);
      EnumNodeClean(values, description, "$." + field, true, lower);
      StatusEnumRules(schema, u, field, values, description, lower);
    }
  }

  lemma StatusEnumRules(schema: Json, u: Json, field: string, values: seq<string>, description: string,
      lower: string -> string)
    requires ValidateSchema(schema) && ValidateSchema(u) && values != []
    requires field !in schema.fields["properties"].fields
    requires u.fields["properties"] == Obj(schema.fields["properties"].fields[field := EnumNode(values, description)])
    requires Elements(RequiredNames(u)) == Elements(RequiredNames(schema)) + {field}
    requires RuleProblems(EnumNode(values, description), "$." + field, true, 1, lower) == [] <==> UNKNOWN in values
    requires forall n :: n in schema.fields["properties"].fields ==>
        PropertyClean(schema.fields["properties"], n, Elements(RequiredNames(schema)), "$", 1, lower)
    ensures (forall n :: n in u.fields["properties"].fields ==>
        PropertyClean(u.fields["properties"], n, Elements(RequiredNames(u)), "$", 1, lower))
      <==> !ReservedName(field) && UNKNOWN in values
  {
    var before, after := schema.fields["properties"], u.fields["properties"];
    var required := Elements(RequiredNames(u));
    forall n | n in after.fields && n != field
      ensures PropertyClean(after, n, required, "$", 1, lower)
    {
      assert PropertyClean(before, n, Elements(RequiredNames(schema)), "$", 1, lower);
    }
    assert field in after.fields;
    assert PropertyClean(after, field, required, "$", 1, lower) <==> !ReservedName(field) && UNKNOWN in values;
  }

  // ---------------------------------------------------------------- compiling a field list

  datatype FieldKind = EnumField | StringField | NumberField | IntegerField | StringListField

  datatype FieldProposal = FieldProposal(name: string, kind: FieldKind, enumValues: seq<string>, description: string,
      required: bool)

  // list(dict.fromkeys(values)): first occurrences, in order.
  function FirstOccurrences(values: seq<string>): (r: seq<string>)
    ensures forall v :: v in r <==> v in values
  {
    if values == [] then [] else
      var rest := FirstOccurrences(values[..|values| - 1]);
      var last := values[|values| - 1];
      assert values == values[..|values| - 1] + [last];
      if last in rest then rest else rest + [last]
  }

  function EnumChoices(values: seq<string>): (r: seq<string>)
    ensures r == [] <==> values == []
  {
    var distinct := FirstOccurrences(values);
    assert values != [] ==> values[0] in distinct;
    if |distinct| <= MAX_ENUM_VALUES then distinct else distinct[..MAX_ENUM_VALUES]
  }

  function CompileField(field: FieldProposal): Json {
    match field.kind
    case EnumField => EnumNode(EnumChoices(field.enumValues), field.description)
    case StringListField =>
      Obj(map["type" := Str("array"), "items" := Obj(map["type" := Str("string")]),
          "description" := Str(field.description)])
    case StringField => Obj(map["type" := Str("string"), "description" := Str(field.description)])
    case NumberField => Obj(map["type" := Str("number"), "description" := Str(field.description)])
    case IntegerField => Obj(map["type" := Str("integer"), "description" := Str(field.description)])
  }

  // `_proposal_errors` refuses a repeated field name before anything is compiled.
  ghost predicate DistinctNames(fields: seq<FieldProposal>) {
    forall i, j :: 0 <= i < j < |fields| ==> fields[i].name != fields[j].name
  }

  // What an empty `_proposal_errors` list establishes about the fields.
  ghost predicate CleanProposal(fields: seq<FieldProposal>) {
    && DistinctNames(fields)
    && forall i :: 0 <= i < |fields| ==>
        fields[i].name != "" && (fields[i].kind == EnumField <==> fields[i].enumValues != [])
  }

  ghost function CompiledProperties(fields: seq<FieldProposal>): Json
    requires DistinctNames(fields)
  {
    var names := set k | 0 <= k < |fields| :: fields[k].name;
    Obj(map n | n in names :: CompileField(FieldNamed(fields, n)))
  }

  ghost function FieldNamed(fields: seq<FieldProposal>, n: string): FieldProposal
    requires exists k :: 0 <= k < |fields| && fields[k].name == n
  {
    var k :| 0 <= k < |fields| && fields[k].name == n;
    fields[k]
  }

  ghost predicate IsRequired(fields: seq<FieldProposal>, n: string) {
    exists i :: 0 <= i < |fields| && fields[i].required && fields[i].name == n
  }

  ghost predicate RequiredFrom(required: seq<string>, fields: seq<FieldProposal>) {
    forall n :: n in required <==> IsRequired(fields, n)
  }

  // The properties are the compiled fields, each under its name.
  ghost predicate PropertiesFrom(properties: map<string, Json>, fields: seq<FieldProposal>) {
    && (forall n :: n in properties ==> exists i :: 0 <= i < |fields| && fields[i].name == n)
    && forall i :: 0 <= i < |fields| ==>
         fields[i].name in properties && properties[fields[i].name] == CompileField(fields[i])
  }

  lemma OneMoreProperty(properties: map<string, Json>, before: seq<FieldProposal>, field: FieldProposal)
    requires DistinctNames(before + [field]) && PropertiesFrom(properties, before)
    ensures PropertiesFrom(properties[field.name := CompileField(field)], before + [field])
  {
    var all := before + [field];
    assert all[|before|] == field;
    forall n | n in properties
      ensures exists i :: 0 <= i < |all| && all[i].name == n
    {
      var i :| 0 <= i < |before| && before[i].name == n;
      assert all[i].name == n;
    }
    forall i | 0 <= i < |before|
      ensures all[i] == before[i] && all[i].name != field.name
    {
      assert all[i].name != all[|before|].name;
    }
  }

  lemma OneMoreRequired(required: seq<string>, before: seq<FieldProposal>, field: FieldProposal)
    requires RequiredFrom(required, before)
    ensures RequiredFrom(if field.required then required + [field.name] else required, before + [field])
  {
    var all := before + [field];
    assert all[|before|] == field;
    forall n
      ensures IsRequired(all, n) <==> IsRequired(before, n) || (field.required && field.name == n)
    {
      if IsRequired(before, n) {
        var i :| 0 <= i < |before| && before[i].required && before[i].name == n;
        assert all[i] == before[i];
      }
    }
  }

  lemma AllProperties(properties: map<string, Json>, fields: seq<FieldProposal>)
    requires DistinctNames(fields) && PropertiesFrom(properties, fields)
    ensures Obj(properties) == CompiledProperties(fields)
  {
    var compiled := CompiledProperties(fields).fields;
    forall n | n in properties
      ensures n in compiled && compiled[n] == properties[n]
    {
      var i :| 0 <= i < |fields| && fields[i].name == n;
    }
  }

  method CompileSchema(fields: seq<FieldProposal>) returns (schema: Json)
    requires DistinctNames(fields)
    ensures CompiledFrom(schema, fields)
  {
    var properties: map<string, Json> := map[];
    var required: seq<string> := [];
    for i := 0 to |fields|
      invariant PropertiesFrom(properties, fields[..i]) && RequiredFrom(required, fields[..i])
    {
      assert fields[..i + 1] == fields[..i] + [fields[i]];
      OneMoreProperty(properties, fields[..i], fields[i]);
      OneMoreRequired(required, fields[..i], fields[i]);
      properties := properties[fields[i].name := CompileField(fields[i])];
      if fields[i].required {
        required := required + [fields[i].name];
      }
    }
    assert fields[..|fields|] == fields;
    AllProperties(properties, fields);
    schema := Obj(map["type" := Str("object"), "additionalProperties" := Bool(false),
                      "required" := StrList(required), "properties" := Obj(properties)]);
  }

  predicate FieldOk(field: FieldProposal, lower: string -> string) {
    && !ReservedName(field.name)
    && (match field.kind
        case EnumField => UNKNOWN in EnumChoices(field.enumValues)
        case StringListField => true
        case _ => field.required ==> forall k :: 0 <= k < |OMITTABLE_PHRASES| ==>
            !Contains(lower(field.description), OMITTABLE_PHRASES[k]))
  }

  lemma CompiledFieldClean(field: FieldProposal, path: string, lower: string -> string)
    requires field.kind == EnumField <==> field.enumValues != []
    ensures CheckNode(CompileField(field), 1)
    ensures !ReservedName(field.name) ==>
      (RuleProblems(CompileField(field), path, field.required, 1, lower) == [] <==> FieldOk(field, lower))
  {
    var node := CompileField(field);
    match field.kind
    case EnumField => EnumNodeClean(EnumChoices(field.enumValues), field.description, path, field.required, lower);
    case StringListField =>
      var items := node.fields["items"];
      assert items.fields["type"].s == "string";
      assert CheckNode(items, 2);
      assert OwnRules(items, path + "[]", false, 2, lower) == [];
    case _ =>
      assert node.fields["type"].s in {"string", "number", "integer"};
      assert OmittableDescription(node, lower) <==>
        exists k :: 0 <= k < |OMITTABLE_PHRASES| && Contains(lower(field.description), OMITTABLE_PHRASES[k]);
  }

  // The JSON a compiled field list becomes.
  ghost predicate CompiledFrom(schema: Json, fields: seq<FieldProposal>)
    requires DistinctNames(fields)
  {
    && schema.Obj? && schema.fields.Keys == {"type", "additionalProperties", "required", "properties"}
    && schema.fields["type"] == Str("object") && schema.fields["additionalProperties"] == Bool(false)
    && schema.fields["properties"] == CompiledProperties(fields)
    && IsStringList(schema.fields["required"])
    && RequiredFrom(Strings(schema.fields["required"]), fields)
  }

  lemma CompiledPropertyOf(fields: seq<FieldProposal>, i: nat)
    requires CleanProposal(fields) && i < |fields|
    ensures var properties := CompiledProperties(fields);
      && fields[i].name in properties.fields && properties.fields[fields[i].name] == CompileField(fields[i])
      && CheckNode(CompileField(fields[i]), 1)
  {
    CompiledFieldClean(fields[i], "", s => s);
  }

  lemma CompiledAccepted(fields: seq<FieldProposal>, schema: Json)
    requires CleanProposal(fields) && CompiledFrom(schema, fields)
    ensures ValidateSchema(schema)
  {
    var properties := schema.fields["properties"];
    forall i | 0 <= i < |fields|
      ensures fields[i].name in properties.fields && properties.fields[fields[i].name] == CompileField(fields[i])
      ensures CheckNode(CompileField(fields[i]), 1)
    {
      CompiledPropertyOf(fields, i);
    }
    forall name | name in properties.fields
      ensures name != "" && CheckNode(properties.fields[name], 1)
    {
      var i :| 0 <= i < |fields| && fields[i].name == name;
    }
    forall r | r in schema.fields["required"].items
      ensures r.s in properties.fields
    {
      var k :| 0 <= k < |schema.fields["required"].items| && schema.fields["required"].items[k] == r;
      assert Strings(schema.fields["required"])[k] == r.s;
      assert r.s in Strings(schema.fields["required"]);
      var i :| 0 <= i < |fields| && fields[i].required && fields[i].name == r.s;
    }
  }

  // A clean field list always compiles into the accepted subset, and the extra
  // rules reject it exactly for a fault of one of its fields: a reserved name,
  // an enum that lost "unknown", or a required answer described as omittable.
  lemma CompiledSchemaAcceptable(fields: seq<FieldProposal>, schema: Json, lower: string -> string)
    requires CleanProposal(fields) && CompiledFrom(schema, fields)
    ensures ValidateSchema(schema)
    ensures ResultSchemaOk(schema, lower) <==> forall i :: 0 <= i < |fields| ==> FieldOk(fields[i], lower)
  {
    CompiledAccepted(fields, schema);
    ObjectRulesClean(schema, lower);
    var properties, required := schema.fields["properties"], Elements(RequiredNames(schema));
    assert required == Elements(Strings(schema.fields["required"]));
    CompiledRules(fields, properties, required, lower);
  }

  lemma CompiledRules(fields: seq<FieldProposal>, properties: Json, required: set<string>, lower: string -> string)
    requires CleanProposal(fields) && properties == CompiledProperties(fields) && PropertiesAccepted(properties, 1)
    requires forall n :: n in required <==> exists i :: 0 <= i < |fields| && fields[i].required && fields[i].name == n
    ensures (forall n :: n in properties.fields ==> PropertyClean(properties, n, required, "$", 1, lower))
       <==> (forall i :: 0 <= i < |fields| ==> FieldOk(fields[i], lower))
  {
    forall i | 0 <= i < |fields|
      ensures fields[i].name in properties.fields
      ensures PropertyClean(properties, fields[i].name, required, "$", 1, lower) <==> FieldOk(fields[i], lower)
    {
      CompiledRule(fields, properties, required, lower, i);
    }
    assert forall n :: n in properties.fields ==> exists i :: 0 <= i < |fields| && fields[i].name == n;
  }

  lemma CompiledRule(fields: seq<FieldProposal>, properties: Json, required: set<string>, lower: string -> string,
      i: nat)
    requires CleanProposal(fields) && properties == CompiledProperties(fields) && PropertiesAccepted(properties, 1)
    requires forall n :: n in required <==> exists k :: 0 <= k < |fields| && fields[k].required && fields[k].name == n
    requires i < |fields|
    ensures fields[i].name in properties.fields
    ensures PropertyClean(properties, fields[i].name, required, "$", 1, lower) <==> FieldOk(fields[i], lower)
  {
    CompiledPropertyOf(fields, i);
    RequiredIff(fields, required, i);
    CompiledPropertyClean(fields[i], properties, required, lower);
  }

  lemma CompiledPropertyClean(field: FieldProposal, properties: Json, required: set<string>, lower: string -> string)
    requires properties.Obj? && PropertiesAccepted(properties, 1) && field.name in properties.fields
    requires properties.fields[field.name] == CompileField(field)
    requires field.kind == EnumField <==> field.enumValues != []
    requires field.name in required <==> field.required
    ensures PropertyClean(properties, field.name, required, "$", 1, lower) <==> FieldOk(field, lower)
  {
    CompiledFieldClean(field, "$" + "." + field.name, lower);
    if ReservedName(field.name) {
      assert !FieldOk(field, lower);
    }
  }

  lemma RequiredIff(fields: seq<FieldProposal>, required: set<string>, i: nat)
    requires DistinctNames(fields) && i < |fields|
    requires forall n :: n in required <==> exists k :: 0 <= k < |fields| && fields[k].required && fields[k].name == n
    ensures fields[i].name in required <==> fields[i].required
  {
    if fields[i].name in required {
      var k :| 0 <= k < |fields| && fields[k].required && fields[k].name == fields[i].name;
      assert k == i;
    }
  }
}
