/**
 * `JSONSchemaGenerator` of JSONSchema/generator.py (JSONSchema/main.py holds
 * the same class, line for line).
 *
 * Python reflection is replaced by explicit values: a type annotation is a
 * `PyType`, and a class is its name, its own annotations in declaration
 * order and the class attributes `hasattr`/`getattr` can see.
 */
module JsonSchema {
  import opened Wrappers
  import opened JsonValue

  /**
   * A type annotation. `NoneType` is `type(None)`, which `typing` puts in
   * place of `None` inside subscripted types such as `Optional[T]`.
   * `ClassRef` is any other class, builtin or user defined, used bare.
   * `Other` is everything the mapping does not recognise: a bare `None`,
   * `Tuple[...]`, `Set[...]`, type variables.
   */
  datatype PyType =
    | Str
    | Int
    | Bool
    | Float
    | NoneType
    | ListOf(item: PyType)
    | DictOf(key: PyType, value: PyType)
    | ClassRef(name: string)
    | Union(args: seq<PyType>)
    | Other

  /** What reflection reveals about a class. */
  datatype PyClass = PyClass(name: string, annotations: seq<(string, PyType)>, attributes: map<string, Json>)

  /** The argument of the constructor: a class, or some other object. */
  datatype PyValue = ClassObject(cls: PyClass) | NonClass

  datatype TypeError = TypeError(message: string)

  /** The `$schema` identifier of every generated schema (JSON Schema draft-04). */
  const Draft04 := "http://json-schema.org/draft-04/schema#"

  /** The prefix of a reference to a named class. */
  const DefinitionsPrefix := "#/definitions/"

  /** `JSONSchemaGenerator(cls)`: accepts a class and rejects any other object. */
  function NewGenerator(v: PyValue): (r: Result<PyClass, TypeError>)
    ensures r.Success? <==> v.ClassObject?
    ensures r.Success? ==> r.value == v.cls
    ensures r.Failure? ==> r.error == TypeError("Expected a class type")
  {
    if v.ClassObject? then Success(v.cls) else Failure(TypeError("Expected a class type"))
  }

  /** `type_to_json_type`: the JSON Schema type fragment of an annotation. */
  function TypeToJsonType(t: PyType): (r: Json)
    ensures r.JString? || r.JObject?
    ensures r.JString? ==> r.s in ["string", "integer", "boolean", "number", "unknown"]
    ensures r.JObject? ==> r.fields != [] && r.fields[0].0 in ["type", "$ref"]
  {
    match t
    case Str => JString("string")
    case Int => JString("integer")
    case Bool => JString("boolean")
    case Float => JString("number")
    case ListOf(item) =>
      JObject([("type", JString("array")), ("items", JObject([("type", TypeToJsonType(item))]))])
    case DictOf(key, value) =>
      if key == Str then
        JObject([("type", JString("object")), ("additionalProperties", JObject([("type", TypeToJsonType(value))]))])
      else JString("unknown")
    case NoneType => JObject([("$ref", JString(DefinitionsPrefix + "NoneType"))])
    case ClassRef(name) => JObject([("$ref", JString(DefinitionsPrefix + name))])
    case Union(args) =>
      if |args| == 2 && NoneType in args then TypeToJsonType(if args[1] == NoneType then args[0] else args[1])
      else JString("unknown")
    case Other => JString("unknown")
  }

  /** `Optional[t]` maps like `t` itself, whichever order the two members are in. */
  lemma OptionalUnwraps(t: PyType)
    ensures TypeToJsonType(Union([t, NoneType])) == TypeToJsonType(t)
    ensures TypeToJsonType(Union([NoneType, t])) == TypeToJsonType(t)
  {
  }

  /**
   * `type(None)` is a class, so it takes the class-reference branch: its
   * fragment is the reference to a class named "NoneType".
   */
  lemma NoneTypeIsClassReference()
    ensures TypeToJsonType(NoneType) == TypeToJsonType(ClassRef("NoneType"))
    ensures TypeToJsonType(NoneType) == JObject([("$ref", JString("#/definitions/NoneType"))])
  {
    assert DefinitionsPrefix + "NoneType" == "#/definitions/NoneType";
  }

  /** Unions that are not `Optional[...]` and dictionaries with non-string keys map to "unknown". */
  lemma UnsupportedIsUnknown(t: PyType)
    ensures t.Union? && !(|t.args| == 2 && NoneType in t.args) ==> TypeToJsonType(t) == JString("unknown")
    ensures t.DictOf? && t.key != Str ==> TypeToJsonType(t) == JString("unknown")
    ensures t.Other? ==> TypeToJsonType(t) == JString("unknown")
  {
  }

  /** Annotations the mapping renders without loss: no unions, no `None`, nothing unrecognised. */
  predicate Plain(t: PyType)
  {
    match t
    case Str | Int | Bool | Float | ClassRef(_) => true
    case ListOf(item) => Plain(item)
    case DictOf(key, value) => key == Str && Plain(value)
    case NoneType | Union(_) | Other => false
  }

  /** Reads an annotation back from a type fragment, when the fragment has one of the generated shapes. */
  function JsonTypeToType(j: Json): Option<PyType>
  {
    if j == JString("string") then Some(Str)
    else if j == JString("integer") then Some(Int)
    else if j == JString("boolean") then Some(Bool)
    else if j == JString("number") then Some(Float)
    else if j.JObject? && |j.fields| == 2 && j.fields[1].1.JObject? && |j.fields[1].1.fields| == 1
            && j.fields[0] == ("type", JString("array")) && j.fields[1].0 == "items"
            && j.fields[1].1.fields[0].0 == "type" then
      match JsonTypeToType(j.fields[1].1.fields[0].1)
      case Some(item) => Some(ListOf(item))
      case None => None
    else if j.JObject? && |j.fields| == 2 && j.fields[1].1.JObject? && |j.fields[1].1.fields| == 1
            && j.fields[0] == ("type", JString("object")) && j.fields[1].0 == "additionalProperties"
            && j.fields[1].1.fields[0].0 == "type" then
      match JsonTypeToType(j.fields[1].1.fields[0].1)
      case Some(value) => Some(DictOf(Str, value))
      case None => None
    else if j.JObject? && |j.fields| == 1 && j.fields[0].0 == "$ref" && j.fields[0].1.JString?
            && DefinitionsPrefix <= j.fields[0].1.s then
      Some(ClassRef(j.fields[0].1.s[|DefinitionsPrefix|..]))
    else None
  }

  /** A plain annotation can be read back from its fragment: the mapping loses nothing on them. */
  lemma {:induction false} PlainRoundTrip(t: PyType)
    requires Plain(t)
    ensures JsonTypeToType(TypeToJsonType(t)) == Some(t)
  {
    match t
    case Str =>
    case Int =>
    case Bool =>
    case Float =>
    case ListOf(item) =>
      PlainRoundTrip(item);
    case DictOf(key, value) =>
      PlainRoundTrip(value);
    case ClassRef(name) =>
      assert (DefinitionsPrefix + name)[|DefinitionsPrefix|..] == name;
  }

  /** Distinct plain annotations give distinct fragments. */
  lemma PlainInjective(t: PyType, u: PyType)
    requires Plain(t) && Plain(u) && TypeToJsonType(t) == TypeToJsonType(u)
    ensures t == u
  {
    PlainRoundTrip(t);
    PlainRoundTrip(u);
  }

  /** Does the string "unknown" occur anywhere in `j`? */
  predicate MentionsUnknown(j: Json)
  {
    match j
    case JString(s) => s == "unknown"
    case JArray(items) => exists i :: 0 <= i < |items| && MentionsUnknown(items[i])
    case JObject(fields) => exists i :: 0 <= i < |fields| && MentionsUnknown(fields[i].1)
    case _ => false
  }

  /** Annotations the mapping recognises at every level. */
  predicate Supported(t: PyType)
  {
    match t
    case Str | Int | Bool | Float | NoneType | ClassRef(_) => true
    case ListOf(item) => Supported(item)
    case DictOf(key, value) => key == Str && Supported(value)
    case Union(args) =>
      |args| == 2 && (args[0] == NoneType || args[1] == NoneType)
      && Supported(if args[1] == NoneType then args[0] else args[1])
    case Other => false
  }

  /** A reference to a class never mentions "unknown". */
  lemma RefKnown(name: string)
    ensures !MentionsUnknown(JObject([("$ref", JString(DefinitionsPrefix + name))]))
  {
    var j := JObject([("$ref", JString(DefinitionsPrefix + name))]);
    assert j.fields[0].1.s[0] == '#';
    assert !MentionsUnknown(j.fields[0].1);
  }

  /** An array or object fragment mentions "unknown" exactly when the fragment nested in it does. */
  lemma WrappedUnknown(tag: string, key: string, nested: Json)
    requires tag != "unknown"
    ensures MentionsUnknown(JObject([("type", JString(tag)), (key, JObject([("type", nested)]))]))
        <==> MentionsUnknown(nested)
  {
    var inner := JObject([("type", nested)]);
    assert MentionsUnknown(inner) <==> MentionsUnknown(nested) by {
      assert inner.fields[0].1 == nested;
    }
    var j := JObject([("type", JString(tag)), (key, inner)]);
    assert j.fields[1].1 == inner;
    assert !MentionsUnknown(j.fields[0].1);
  }

  /** "unknown" appears in the fragment exactly when some part of the annotation is unsupported. */
  lemma {:induction false} UnknownIffUnsupported(t: PyType)
    ensures MentionsUnknown(TypeToJsonType(t)) <==> !Supported(t)
  {
    match t
    case Str =>
    case Int =>
    case Bool =>
    case Float =>
    case NoneType =>
      RefKnown("NoneType");
    case ClassRef(name) =>
      RefKnown(name);
    case ListOf(item) =>
      UnknownIffUnsupported(item);
      WrappedUnknown("array", "items", TypeToJsonType(item));
    case DictOf(key, value) =>
      UnknownIffUnsupported(value);
      if key == Str {
        WrappedUnknown("object", "additionalProperties", TypeToJsonType(value));
      }
    case Union(args) =>
      if |args| == 2 && NoneType in args {
        UnknownIffUnsupported(if args[1] == NoneType then args[0] else args[1]);
      }
    case Other =>
  }

  /** The class attribute that holds the description of the annotated attribute `attr`. */
  function DescriptionAttribute(attr: string): string
  {
    "_" + attr + "_description"
  }

  /** The entry of `properties` for the annotation `attr: t`. */
  function PropertySchema(cls: PyClass, attr: string, t: PyType): Json
  {
    var property := [("type", TypeToJsonType(t))];
    if DescriptionAttribute(attr) in cls.attributes then
      JObject(Put(property, "description", cls.attributes[DescriptionAttribute(attr)]))
    else JObject(property)
  }

  /** The `properties` object after the loop has handled the annotations `anns`. */
  function Properties(cls: PyClass, anns: seq<(string, PyType)>): (r: seq<(string, Json)>)
    ensures forall k :: k in Keys(r) <==> k in Names(anns)
    ensures |r| <= |anns|
  {
    if anns == [] then []
    else
      var last := anns[|anns| - 1];
      Put(Properties(cls, anns[..|anns| - 1]), last.0, PropertySchema(cls, last.0, last.1))
  }

  /** One turn of the loop over the annotations. */
  lemma PropertiesStep(cls: PyClass, anns: seq<(string, PyType)>, i: nat)
    requires i < |anns|
    ensures Properties(cls, anns[..i + 1])
         == Put(Properties(cls, anns[..i]), anns[i].0, PropertySchema(cls, anns[i].0, anns[i].1))
  {
    assert anns[..i + 1][..i] == anns[..i];
  }

  /** `getattr(cls, name, default)`. */
  function GetAttr(cls: PyClass, name: string, default: Json): Json
  {
    if name in cls.attributes then cls.attributes[name] else default
  }

  /** The dict literal `generate` starts from, with `properties` as the loop leaves it. */
  function SchemaFields(cls: PyClass): (r: seq<(string, Json)>)
    ensures Keys(r) == ["id", "$schema", "type", "properties", "required"]
  {
    [
      ("id", JString(cls.name + "_schema")),
      ("$schema", JString(Draft04)),
      ("type", JString("object")),
      ("properties", JObject(Properties(cls, cls.annotations))),
      ("required", GetAttr(cls, "_required", JArray([])))
    ]
  }

  /** The schema object `generate` serialises. */
  function SchemaOf(cls: PyClass): (r: Json)
    ensures r.JObject?
    ensures Keys(r.fields)
         == ["id", "$schema", "type", "properties", "required"]
            + if "_schema_description" in cls.attributes then ["description"] else []
  {
    var schema := SchemaFields(cls);
    if "_schema_description" in cls.attributes then
      JObject(Put(schema, "description", cls.attributes["_schema_description"]))
    else JObject(schema)
  }

  /** The attribute names of a list of annotations, in order. */
  function Names(anns: seq<(string, PyType)>): (r: seq<string>)
    ensures |r| == |anns|
  {
    if anns == [] then [] else Names(anns[..|anns| - 1]) + [anns[|anns| - 1].0]
  }

  /** The names have the annotations' length, and position `i` holds the `i`-th name. */
  lemma {:induction false} NamesAt(anns: seq<(string, PyType)>, i: nat)
    requires i < |anns|
    ensures |Names(anns)| == |anns| && Names(anns)[i] == anns[i].0
  {
    var n := |anns| - 1;
    if i < n {
      NamesAt(anns[..n], i);
    } else if n > 0 {
      NamesAt(anns[..n], n - 1);
    }
  }

  /** No attribute is annotated twice, as in the dict `get_annotations` returns. */
  predicate DistinctNames(anns: seq<(string, PyType)>)
  {
    anns == [] || (DistinctNames(anns[..|anns| - 1]) && anns[|anns| - 1].0 !in Names(anns[..|anns| - 1]))
  }

  /** Two different positions of a list with distinct names hold different names. */
  lemma {:induction false} DistinctNamesPairwise(anns: seq<(string, PyType)>, i: nat, j: nat)
    requires DistinctNames(anns) && i < j < |anns|
    ensures anns[i].0 != anns[j].0
  {
    var n := |anns| - 1;
    if j < n {
      assert anns[..n][i] == anns[i] && anns[..n][j] == anns[j];
      DistinctNamesPairwise(anns[..n], i, j);
    } else {
      NamesAt(anns[..n], i);
    }
  }

  /** A list whose names differ pairwise, as the keys of a dict do, has distinct names. */
  lemma {:induction false} PairwiseDistinctNames(anns: seq<(string, PyType)>)
    requires forall i, j :: 0 <= i < j < |anns| ==> anns[i].0 != anns[j].0
    ensures DistinctNames(anns)
  {
    if anns != [] {
      var n := |anns| - 1;
      var init := anns[..n];
      PairwiseDistinctNames(init);
      if anns[n].0 in Names(init) {
        var k :| 0 <= k < |Names(init)| && Names(init)[k] == anns[n].0;
        NamesAt(init, k);
        assert false;
      }
    }
  }

  /**
   * A property entry holds the annotation's type fragment under "type", and a
   * "description" exactly when the class has `_<attr>_description`, with
   * that attribute's value.
   */
  lemma PropertySchemaShape(cls: PyClass, attr: string, t: PyType)
    ensures PropertySchema(cls, attr, t).JObject?
    ensures Get(PropertySchema(cls, attr, t).fields, "type") == Some(TypeToJsonType(t))
    ensures Keys(PropertySchema(cls, attr, t).fields)
         == if DescriptionAttribute(attr) in cls.attributes then ["type", "description"] else ["type"]
    ensures Get(PropertySchema(cls, attr, t).fields, "description")
         == if DescriptionAttribute(attr) in cls.attributes then Some(cls.attributes[DescriptionAttribute(attr)]) else None
  {
  }

  /** The keys of `properties` are the annotated attribute names, in declaration order. */
  lemma {:induction false} PropertiesKeys(cls: PyClass, anns: seq<(string, PyType)>)
    requires DistinctNames(anns)
    ensures Keys(Properties(cls, anns)) == Names(anns)
  {
    if anns != [] {
      var n := |anns| - 1;
      PropertiesKeys(cls, anns[..n]);
    }
  }

  /** Handling an annotation binds its name to its property entry. */
  lemma LastEntryPut(cls: PyClass, anns: seq<(string, PyType)>)
    requires anns != []
    ensures Get(Properties(cls, anns), anns[|anns| - 1].0)
         == Some(PropertySchema(cls, anns[|anns| - 1].0, anns[|anns| - 1].1))
  {
  }

  /** Handling a later annotation keeps the entry of an earlier one. */
  lemma EarlierEntryKept(cls: PyClass, anns: seq<(string, PyType)>, i: nat)
    requires DistinctNames(anns) && i < |anns| - 1
    requires Get(Properties(cls, anns[..|anns| - 1]), anns[i].0) == Some(PropertySchema(cls, anns[i].0, anns[i].1))
    ensures Get(Properties(cls, anns), anns[i].0) == Some(PropertySchema(cls, anns[i].0, anns[i].1))
  {
    var n := |anns| - 1;
    NamesAt(anns[..n], i);
    assert anns[..n][i] == anns[i];
  }

  /**
   * The loop produces exactly one entry per annotation: the keys are the
   * attribute names in declaration order, and each name is bound to its
   * annotation's property entry.
   */
  lemma PropertiesOnePerAnnotation(cls: PyClass, anns: seq<(string, PyType)>)
    requires DistinctNames(anns)
    ensures Keys(Properties(cls, anns)) == Names(anns)
    ensures forall i :: 0 <= i < |anns| ==>
              Get(Properties(cls, anns), anns[i].0) == Some(PropertySchema(cls, anns[i].0, anns[i].1))
  {
    PropertiesKeys(cls, anns);
    forall i | 0 <= i < |anns|
      ensures Get(Properties(cls, anns), anns[i].0) == Some(PropertySchema(cls, anns[i].0, anns[i].1))
    {
      EntryAt(cls, anns, i);
    }
  }

  /** After the loop, the name of the `i`-th annotation is bound to its property entry. */
  lemma {:induction false} EntryAt(cls: PyClass, anns: seq<(string, PyType)>, i: nat)
    requires DistinctNames(anns) && i < |anns|
    ensures Get(Properties(cls, anns), anns[i].0) == Some(PropertySchema(cls, anns[i].0, anns[i].1))
  {
    var n := |anns| - 1;
    if i == n {
      LastEntryPut(cls, anns);
    } else {
      var init := anns[..n];
      assert init[i] == anns[i];
      EntryAt(cls, init, i);
      EarlierEntryKept(cls, anns, i);
    }
  }

  /**
   * The top level of the schema: "id", "$schema", "type", "properties" and
   * "required" in that order, followed by "description" exactly when the
   * class has `_schema_description`; "id" is the class name with "_schema",
   * "$schema" is draft-04, "type" is "object", and "required" is `_required`,
   * or an empty list when the class has none.
   */
  lemma SchemaTopLevel(cls: PyClass)
    ensures Get(SchemaOf(cls).fields, "id") == Some(JString(cls.name + "_schema"))
    ensures Get(SchemaOf(cls).fields, "$schema") == Some(JString(Draft04))
    ensures Get(SchemaOf(cls).fields, "type") == Some(JString("object"))
    ensures Get(SchemaOf(cls).fields, "properties") == Some(JObject(Properties(cls, cls.annotations)))
    ensures Get(SchemaOf(cls).fields, "required")
         == Some(if "_required" in cls.attributes then cls.attributes["_required"] else JArray([]))
    ensures Get(SchemaOf(cls).fields, "description")
         == if "_schema_description" in cls.attributes then Some(cls.attributes["_schema_description"]) else None
  {
    SchemaFieldsGet(cls);
    SchemaKeepsFields(cls, "id");
    SchemaKeepsFields(cls, "$schema");
    SchemaKeepsFields(cls, "type");
    SchemaKeepsFields(cls, "properties");
    SchemaKeepsFields(cls, "required");
    SchemaDescription(cls);
  }

  /** The values of the dict literal `generate` starts from. */
  lemma SchemaFieldsGet(cls: PyClass)
    ensures Get(SchemaFields(cls), "id") == Some(JString(cls.name + "_schema"))
    ensures Get(SchemaFields(cls), "$schema") == Some(JString(Draft04))
    ensures Get(SchemaFields(cls), "type") == Some(JString("object"))
    ensures Get(SchemaFields(cls), "properties") == Some(JObject(Properties(cls, cls.annotations)))
    ensures Get(SchemaFields(cls), "required") == Some(GetAttr(cls, "_required", JArray([])))
  {
    var base := SchemaFields(cls);
    GetFirst(base, 0);
    GetFirst(base, 1);
    GetFirst(base, 2);
    GetFirst(base, 3);
    GetFirst(base, 4);
  }

  /** Adding the schema's description leaves every other top-level key as the dict literal has it. */
  lemma SchemaKeepsFields(cls: PyClass, k: string)
    requires k != "description"
    ensures Get(SchemaOf(cls).fields, k) == Get(SchemaFields(cls), k)
  {
  }

  /** The schema has a "description" exactly when the class has `_schema_description`, bound to its value. */
  lemma SchemaDescription(cls: PyClass)
    ensures Get(SchemaOf(cls).fields, "description")
         == if "_schema_description" in cls.attributes then Some(cls.attributes["_schema_description"]) else None
  {
    GetAbsent(SchemaFields(cls), "description");
  }

  /**
   * An annotated attribute named "schema" takes its description from
   * `_schema_description`, the attribute that also describes the whole schema.
   */
  lemma SchemaAttributeSharesDescription(cls: PyClass, t: PyType)
    ensures Get(PropertySchema(cls, "schema", t).fields, "description") == Get(SchemaOf(cls).fields, "description")
  {
    assert DescriptionAttribute("schema") == "_schema_description";
    PropertySchemaShape(cls, "schema", t);
    SchemaDescription(cls);
  }

  /** `generate` up to the serialisation: builds the schema object, filling `properties` one annotation at a time. */
  method Generate(cls: PyClass) returns (schema: Json)
    ensures schema == SchemaOf(cls)
  {
    var properties: seq<(string, Json)> := [];
    for i := 0 to |cls.annotations|
      invariant properties == Properties(cls, cls.annotations[..i])
    {
      PropertiesStep(cls, cls.annotations, i);
      var (attr, attrType) := cls.annotations[i];
      var propertySchema := [("type", TypeToJsonType(attrType))];
      var descriptionAttr := "_" + attr + "_description";
      if descriptionAttr in cls.attributes {
        propertySchema := Put(propertySchema, "description", cls.attributes[descriptionAttr]);
      }
      assert JObject(propertySchema) == PropertySchema(cls, attr, attrType);
      properties := Put(properties, attr, JObject(propertySchema));
    }
    assert cls.annotations[..|cls.annotations|] == cls.annotations;
    var fields := [
      ("id", JString(cls.name + "_schema")),
      ("$schema", JString(Draft04)),
      ("type", JString("object")),
      ("properties", JObject(properties)),
      ("required", if "_required" in cls.attributes then cls.attributes["_required"] else JArray([]))
    ];
    if "_schema_description" in cls.attributes {
      fields := Put(fields, "description", cls.attributes["_schema_description"]);
    }
    schema := JObject(fields);
  }
}
