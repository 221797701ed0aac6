/** The JSON Schema keywords the builders write: the fixed default fields
    each builder starts from (both variants of the builder use the same
    ones), and readers for the keywords whose values have a meaning beyond
    being copied. */
module Schema {
  import opened Json
  import opened JsonPointer

  /** `{ type: name }`, the start of every leaf builder. */
  function LeafDefaults(name: string): Members {
    [("type", Str(name))]
  }

  /** `{ type: 'object', properties, required: Object.keys(properties),
      additionalProperties: false }`. The `properties` object is stored as
      given, its keys in order become `required`. */
  function ObjectDefaults(properties: Members): Members {
    [ ("type", Str("object")),
      ("properties", Obj(properties)),
      ("required", Arr(Names(Keys(properties)))),
      ("additionalProperties", Bool(false)) ]
  }

  /** `{ type: 'array', items: itemSchema }`. */
  function ArrayDefaults(item: Json): Members {
    [("type", Str("array")), ("items", item)]
  }

  /** `{ anyOf: subschemas }`. */
  function AnyOfDefaults(subschemas: seq<Json>): Members {
    [("anyOf", Arr(subschemas))]
  }

  /** `{ $ref: '#/$defs/' + id }`. */
  function RefDefaults(id: string): Members {
    [("$ref", Str(DefsRef(id)))]
  }

  /** No default object names a field twice. */
  lemma DefaultsDistinct(name: string, properties: Members, item: Json, subschemas: seq<Json>, id: string)
    ensures DistinctKeys(LeafDefaults(name))
    ensures DistinctKeys(ObjectDefaults(properties))
    ensures DistinctKeys(ArrayDefaults(item))
    ensures DistinctKeys(AnyOfDefaults(subschemas))
    ensures DistinctKeys(RefDefaults(id))
  {
    DistinctKeysFromPairs(LeafDefaults(name));
    DistinctKeysFromPairs(ObjectDefaults(properties));
    DistinctKeysFromPairs(ArrayDefaults(item));
    DistinctKeysFromPairs(AnyOfDefaults(subschemas));
    DistinctKeysFromPairs(RefDefaults(id));
  }

  /** The `required` keyword read as a list of property names (section
      6.5.3 of JSON Schema Validation 2020-12); None when it is absent or
      not an array of strings. */
  function RequiredOf(s: Json): Option<seq<string>> {
    match Field(s, "required")
    case Some(Arr(xs)) => AsNames(xs)
    case _ => None
  }

  /** The schema of property `name` in the `properties` keyword. */
  function PropertyOf(s: Json, name: string): Option<Json> {
    match Field(s, "properties")
    case Some(table) => Field(table, name)
    case None => None
  }

  /** The definition a `$ref` keyword names, when it is of the form
      `#/$defs/<id>`. */
  function RefId(s: Json): Option<string> {
    match Field(s, "$ref")
    case Some(Str(p)) => DefId(p)
    case _ => None
  }

  /** A field of a spread result comes from the caller when the caller
      gave it, and from the defaults otherwise. */
  lemma OverlayField(r: Members, defaults: Members, fields: Members, name: string)
    requires Overlays(r, defaults, fields)
    ensures Field(Obj(r), name) ==
              if name in Keys(fields) then Field(Obj(fields), name) else Field(Obj(defaults), name)
  {
  }

  /** The names of the object defaults, in order. */
  lemma ObjectDefaultsKeys(properties: Members)
    ensures Keys(ObjectDefaults(properties)) == ["type", "properties", "required", "additionalProperties"]
  {
  }

  /** The one field of the leaf defaults. */
  lemma LeafDefaultsFields(name: string, key: string)
    ensures Field(Obj(LeafDefaults(name)), key) == if key == "type" then Some(Str(name)) else None
  {
    DefaultsDistinct(name, [], Null, [], "");
    FieldAt(LeafDefaults(name), 0);
  }

  /** The two fields of the array defaults. */
  lemma ArrayDefaultsFields(item: Json)
    ensures Field(Obj(ArrayDefaults(item)), "type") == Some(Str("array"))
    ensures Field(Obj(ArrayDefaults(item)), "items") == Some(item)
  {
    DefaultsDistinct("", [], item, [], "");
    FieldAt(ArrayDefaults(item), 0);
    FieldAt(ArrayDefaults(item), 1);
  }

  /** The one field of the `anyOf` defaults. */
  lemma AnyOfDefaultsField(subschemas: seq<Json>)
    ensures Field(Obj(AnyOfDefaults(subschemas)), "anyOf") == Some(Arr(subschemas))
  {
    DefaultsDistinct("", [], Null, subschemas, "");
    FieldAt(AnyOfDefaults(subschemas), 0);
  }

  /** The one field of the `$ref` defaults. */
  lemma RefDefaultsField(id: string)
    ensures Field(Obj(RefDefaults(id)), "$ref") == Some(Str(DefsRef(id)))
  {
    DefaultsDistinct("", [], Null, [], id);
    FieldAt(RefDefaults(id), 0);
  }

  /** The four fields of the object defaults, one by one. */
  lemma ObjectDefaultsFields(properties: Members)
    ensures Field(Obj(ObjectDefaults(properties)), "type") == Some(Str("object"))
    ensures Field(Obj(ObjectDefaults(properties)), "properties") == Some(Obj(properties))
    ensures Field(Obj(ObjectDefaults(properties)), "required") == Some(Arr(Names(Keys(properties))))
    ensures Field(Obj(ObjectDefaults(properties)), "additionalProperties") == Some(Bool(false))
  {
    var d := ObjectDefaults(properties);
    DefaultsDistinct("", properties, Null, [], "");
    FieldAt(d, 0);
    FieldAt(d, 1);
    FieldAt(d, 2);
    FieldAt(d, 3);
  }

  /** The list an object builder writes into `required` reads back as the
      keys of its `properties`, in order. */
  lemma ObjectDefaultsRequired(properties: Members)
    ensures RequiredOf(Obj(ObjectDefaults(properties))) == Some(Keys(properties))
  {
    ObjectDefaultsFields(properties);
    NamesRoundTrip(Keys(properties), Names(Keys(properties)));
  }
}
