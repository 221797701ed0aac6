/** The `src/` variant of the builder (src/index.ts): the leaf, object and
    array builders spread caller fields over their defaults, `integer`
    joins the leaves, and `anyOf` and `$ref` build fixed one-field objects
    that take no caller fields. */
module Kit {
  import opened Json
  import opened JsonPointer
  import opened Schema
  import RootKit

  /** `string(properties = {})`: `{ type: 'string', ...properties }`. */
  function String(properties: Members := []): (r: Json)
    ensures r.Obj?
    ensures DistinctKeys(properties) ==> Overlays(r.members, LeafDefaults("string"), properties)
    ensures properties == [] ==> r == Obj([("type", Str("string"))])
  {
    DefaultsDistinct("string", [], Null, [], "");
    SpreadOverlays(LeafDefaults("string"), properties);
    Obj(Spread(LeafDefaults("string"), properties))
  }

  /** `number(properties = {})`: `{ type: 'number', ...properties }`. */
  function Number(properties: Members := []): (r: Json)
    ensures r.Obj?
    ensures DistinctKeys(properties) ==> Overlays(r.members, LeafDefaults("number"), properties)
    ensures properties == [] ==> r == Obj([("type", Str("number"))])
  {
    DefaultsDistinct("number", [], Null, [], "");
    SpreadOverlays(LeafDefaults("number"), properties);
    Obj(Spread(LeafDefaults("number"), properties))
  }

  /** `integer(properties = {})`: `{ type: 'integer', ...properties }`. */
  function Integer(properties: Members := []): (r: Json)
    ensures r.Obj?
    ensures DistinctKeys(properties) ==> Overlays(r.members, LeafDefaults("integer"), properties)
    ensures properties == [] ==> r == Obj([("type", Str("integer"))])
  {
    DefaultsDistinct("integer", [], Null, [], "");
    SpreadOverlays(LeafDefaults("integer"), properties);
    Obj(Spread(LeafDefaults("integer"), properties))
  }

  /** `boolean(properties = {})`: `{ type: 'boolean', ...properties }`. */
  function Boolean(properties: Members := []): (r: Json)
    ensures r.Obj?
    ensures DistinctKeys(properties) ==> Overlays(r.members, LeafDefaults("boolean"), properties)
    ensures properties == [] ==> r == Obj([("type", Str("boolean"))])
  {
    DefaultsDistinct("boolean", [], Null, [], "");
    SpreadOverlays(LeafDefaults("boolean"), properties);
    Obj(Spread(LeafDefaults("boolean"), properties))
  }

  /** `object(members, properties = {})`: `{ type: 'object', properties:
      members, required: Object.keys(members), additionalProperties: false,
      ...properties }`. */
  function Object(members: Members, properties: Members := []): (r: Json)
    ensures r.Obj?
    ensures DistinctKeys(properties) ==> Overlays(r.members, ObjectDefaults(members), properties)
  {
    DefaultsDistinct("", members, Null, [], "");
    SpreadOverlays(ObjectDefaults(members), properties);
    Obj(Spread(ObjectDefaults(members), properties))
  }

  /** `array(itemSchema, properties = {})`: `{ type: 'array', items: itemSchema, ...properties }`. */
  function Array(item: Json, properties: Members := []): (r: Json)
    ensures r.Obj?
    ensures DistinctKeys(properties) ==> Overlays(r.members, ArrayDefaults(item), properties)
  {
    DefaultsDistinct("", [], item, [], "");
    SpreadOverlays(ArrayDefaults(item), properties);
    Obj(Spread(ArrayDefaults(item), properties))
  }

  /** `anyOf(subschemas)`: an object whose one field `anyOf` is the list of
      subschemas as given. */
  function AnyOf(subschemas: seq<Json>): (r: Json)
    ensures r.Obj? && Keys(r.members) == ["anyOf"]
    ensures Field(r, "anyOf") == Some(Arr(subschemas))
  {
    Obj(AnyOfDefaults(subschemas))
  }

  /** `$ref(id)`: an object whose one field `$ref` is the reference to the
      definition `id`. */
  function Ref(id: string): (r: Json)
    ensures r.Obj? && Keys(r.members) == ["$ref"]
    ensures Field(r, "$ref") == Some(Str(DefsPrefix + id))
    ensures RefId(r) == Some(id)
  {
    DefIdInverts(DefsRef(id), id);
    Obj(RefDefaults(id))
  }

  // ---------------------------------------------------------------------
  // The two variants

  /** The builders both variants have build the same objects; `anyOf` and
      `$ref` here are the top-level ones with no caller fields. */
  lemma AgreesWithRoot(fields: Members, members: Members, item: Json, subschemas: seq<Json>, id: string)
    ensures String(fields) == RootKit.String(fields)
    ensures Number(fields) == RootKit.Number(fields)
    ensures Boolean(fields) == RootKit.Boolean(fields)
    ensures Object(members, fields) == RootKit.Object(members, fields)
    ensures Array(item, fields) == RootKit.Array(item, fields)
    ensures AnyOf(subschemas) == RootKit.AnyOf(subschemas)
    ensures Ref(id) == RootKit.Ref(id)
  {
  }

  // ---------------------------------------------------------------------
  // What the builders promise

  /** `integer`'s `type` is `integer` unless the caller gives a `type`;
      every other field is the caller's, with its value as given. */
  lemma IntegerFields(properties: Members, name: string)
    requires DistinctKeys(properties)
    ensures Field(Integer(properties), name) ==
              if name in Keys(properties) then Field(Obj(properties), name)
              else if name == "type" then Some(Str("integer"))
              else None
  {
    LeafDefaultsFields("integer", name);
    OverlayField(Integer(properties).members, LeafDefaults("integer"), properties, name);
  }

  /** Caller fields that a leaf builder has no default for are appended
      after `type`, in the caller's order and with the caller's values. */
  lemma NumberAppends(properties: Members)
    requires forall i, j :: 0 <= i < j < |properties| ==> properties[i].0 != properties[j].0
    requires forall i :: 0 <= i < |properties| ==> properties[i].0 != "type"
    ensures Number(properties) == Obj([("type", Str("number"))] + properties)
  {
    DistinctKeysFromPairs(properties);
    SpreadAppends(LeafDefaults("number"), properties);
  }

  /** No builder checks the values it is given: a `minimum` above the
      `maximum` is kept as it is. */
  lemma NumberUnchecked(low: real, high: real)
    requires low > high
    ensures Number([("minimum", Num(low)), ("maximum", Num(high))]) ==
              Obj([("type", Str("number")), ("minimum", Num(low)), ("maximum", Num(high))])
  {
    NumberAppends([("minimum", Num(low)), ("maximum", Num(high))]);
  }

  /** An object without members has `properties: {}` and `required: []`. */
  lemma ObjectEmpty()
    ensures Field(Object([]), "properties") == Some(Obj([]))
    ensures Field(Object([]), "required") == Some(Arr([]))
    ensures RequiredOf(Object([])) == Some([])
  {
    ObjectDefaultsFields([]);
    ObjectDefaultsRequired([]);
  }

  /** The caller's `$defs` is stored as given, whatever the references
      among the members point at: nothing checks that a target exists. */
  lemma DefsVerbatim(members: Members, defs: Json)
    ensures Field(Object(members, [("$defs", defs)]), "$defs") == Some(defs)
  {
    var fields := [("$defs", defs)];
    assert DistinctKeys(fields);
    ObjectDefaultsKeys(members);
    OverlayField(Object(members, fields).members, ObjectDefaults(members), fields, "$defs");
  }

  // ---------------------------------------------------------------------
  // The examples of the tests

  /** `object({ name: string(), age: number() })`. */
  lemma PersonExample()
    ensures Object([("name", String()), ("age", Number())]) ==
              Obj([ ("type", Str("object")),
                    ("properties", Obj([("name", Obj([("type", Str("string"))])),
                                        ("age", Obj([("type", Str("number"))]))])),
                    ("required", Arr([Str("name"), Str("age")])),
                    ("additionalProperties", Bool(false)) ])
  {
    var members := [("name", String()), ("age", Number())];
    assert Keys(members) == ["name", "age"];
    assert Names(["name", "age"]) == [Str("name"), Str("age")];
  }

  /** `object({ name: string() }, { description: 'A person object', title: 'Person',
      additionalProperties: true })`, for any description, title and
      `additionalProperties`: the caller's `additionalProperties` replaces
      the default where it stands, the new fields follow in order. */
  lemma PersonOverrideExample(description: string, title: string, additional: Json)
    ensures Object([("name", String())],
                   [("description", Str(description)),
                    ("title", Str(title)),
                    ("additionalProperties", additional)]) ==
              Obj([ ("type", Str("object")),
                    ("properties", Obj([("name", Obj([("type", Str("string"))]))])),
                    ("required", Arr([Str("name")])),
                    ("additionalProperties", additional),
                    ("description", Str(description)),
                    ("title", Str(title)) ])
  {
    var members := [("name", String())];
    var d := ObjectDefaults(members);
    var e1 := ("description", Str(description));
    var e2 := ("title", Str(title));
    var e3 := ("additionalProperties", additional);
    var fields := [e1, e2, e3];
    var d1 := d + [e1];
    var d2 := d1 + [e2];
    var d3 := d2[..3] + [e3] + d2[4..];
    assert Spread(d, fields) == Spread(d1, [e2, e3]) by {
      ObjectDefaultsKeys(members);
      PutAppends(d, e1.0, e1.1);
      SpreadFirst(d, fields);
      assert fields[1..] == [e2, e3];
    }
    assert Spread(d1, [e2, e3]) == Spread(d2, [e3]) by {
      ObjectDefaultsKeys(members);
      KeysAppend(d, e1);
      PutAppends(d1, e2.0, e2.1);
      SpreadFirst(d1, [e2, e3]);
      assert [e2, e3][1..] == [e3];
    }
    assert Spread(d2, [e3]) == d3 by {
      ObjectDefaultsKeys(members);
      assert d2[..3] == d[..3] && d2[3].0 == e3.0;
      assert Keys(d[..3]) == ["type", "properties", "required"];
      PutReplaces(d2, 3, e3.1);
      SpreadFirst(d2, [e3]);
      assert [e3][1..] == [];
    }
    assert d == [("type", Str("object")),
                 ("properties", Obj([("name", Obj([("type", Str("string"))]))])),
                 ("required", Arr([Str("name")])),
                 ("additionalProperties", Bool(false))] by {
      assert Keys(members) == ["name"];
      assert Names(["name"]) == [Str("name")];
    }
  }

  /** `array(array(string()))`: nesting composes. */
  lemma NestedArrayExample()
    ensures Array(Array(String())) ==
              Obj([ ("type", Str("array")),
                    ("items", Obj([("type", Str("array")),
                                   ("items", Obj([("type", Str("string"))]))])) ])
  {
  }

  /** Caller fields the array builder has no default for are appended
      after `type` and `items`, in the caller's order. */
  lemma ArrayAppends(item: Json, properties: Members)
    requires forall i, j :: 0 <= i < j < |properties| ==> properties[i].0 != properties[j].0
    requires forall i :: 0 <= i < |properties| ==> properties[i].0 != "type" && properties[i].0 != "items"
    ensures Array(item, properties) == Obj([("type", Str("array")), ("items", item)] + properties)
  {
    DistinctKeysFromPairs(properties);
    assert Keys(ArrayDefaults(item)) == ["type", "items"];
    SpreadAppends(ArrayDefaults(item), properties);
  }

  /** `array(number(), { description: 'List of prices', minItems: 1, maxItems: 10 })`,
      for any description and bounds. */
  lemma PricesExample(description: string, minItems: real, maxItems: real)
    ensures Array(Number(), [("description", Str(description)),
                             ("minItems", Num(minItems)), ("maxItems", Num(maxItems))]) ==
              Obj([ ("type", Str("array")),
                    ("items", Obj([("type", Str("number"))])),
                    ("description", Str(description)),
                    ("minItems", Num(minItems)),
                    ("maxItems", Num(maxItems)) ])
  {
    ArrayAppends(Number(), [("description", Str(description)), ("minItems", Num(minItems)), ("maxItems", Num(maxItems))]);
  }

  /** `anyOf([$ref('person'), $ref('company')])`. */
  lemma AnyOfExamples()
    ensures AnyOf([Ref("person"), Ref("company")]) ==
              Obj([("anyOf", Arr([Obj([("$ref", Str("#/$defs/person"))]),
                                  Obj([("$ref", Str("#/$defs/company"))])]))])
  {
    DefsRefSpelled("person", "#/$defs/person");
    DefsRefSpelled("company", "#/$defs/company");
  }

  /** `anyOf([object({ name: string() }), { type: 'null' }])`: the
      hand-written `{ type: 'null' }` branch is taken as it is. */
  lemma AnyOfNullExample()
    ensures AnyOf([Object([("name", String())]), Obj([("type", Str("null"))])]) ==
              Obj([("anyOf", Arr([Obj([ ("type", Str("object")),
                                        ("properties", Obj([("name", Obj([("type", Str("string"))]))])),
                                        ("required", Arr([Str("name")])),
                                        ("additionalProperties", Bool(false)) ]),
                                  Obj([("type", Str("null"))])]))])
  {
    var members := [("name", String())];
    assert Keys(members) == ["name"];
    assert Names(["name"]) == [Str("name")];
  }

  /** `$ref('nested-schema')` is `#/$defs/nested-schema`, which a validator
      reads as the definition of that name. */
  lemma NestedSchemaExample()
    ensures Ref("nested-schema") == Obj([("$ref", Str("#/$defs/nested-schema"))])
    ensures FragmentTokens(Field(Ref("nested-schema"), "$ref").value.s) == Some(["$defs", "nested-schema"])
  {
    DefsRefSpelled("nested-schema", "#/$defs/nested-schema");
    NestedSchemaRef();
  }
}
