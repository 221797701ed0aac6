/** The top-level variant of the builder (index.ts): every builder takes
    trailing caller fields that are spread over its defaults, and `extend`
    adds properties to an existing object schema in place. */
module RootKit {
  import opened Json
  import opened JsonPointer
  import opened Schema

  /** `string(schema = {})`: `{ type: 'string', ...schema }`. */
  function String(schema: Members := []): (r: Json)
    ensures r.Obj?
    ensures DistinctKeys(schema) ==> Overlays(r.members, LeafDefaults("string"), schema)
    ensures schema == [] ==> r == Obj([("type", Str("string"))])
  {
    DefaultsDistinct("string", [], Null, [], "");
    SpreadOverlays(LeafDefaults("string"), schema);
    Obj(Spread(LeafDefaults("string"), schema))
  }

  /** `boolean(schema = {})`: `{ type: 'boolean', ...schema }`. */
  function Boolean(schema: Members := []): (r: Json)
    ensures r.Obj?
    ensures DistinctKeys(schema) ==> Overlays(r.members, LeafDefaults("boolean"), schema)
    ensures schema == [] ==> r == Obj([("type", Str("boolean"))])
  {
    DefaultsDistinct("boolean", [], Null, [], "");
    SpreadOverlays(LeafDefaults("boolean"), schema);
    Obj(Spread(LeafDefaults("boolean"), schema))
  }

  /** `number(schema = {})`: `{ type: 'number', ...schema }`. */
  function Number(schema: Members := []): (r: Json)
    ensures r.Obj?
    ensures DistinctKeys(schema) ==> Overlays(r.members, LeafDefaults("number"), schema)
    ensures schema == [] ==> r == Obj([("type", Str("number"))])
  {
    DefaultsDistinct("number", [], Null, [], "");
    SpreadOverlays(LeafDefaults("number"), schema);
    Obj(Spread(LeafDefaults("number"), schema))
  }

  /** `array(itemSchema, schema = {})`: `{ type: 'array', items: itemSchema, ...schema }`. */
  function Array(item: Json, schema: Members := []): (r: Json)
    ensures r.Obj?
    ensures DistinctKeys(schema) ==> Overlays(r.members, ArrayDefaults(item), schema)
  {
    DefaultsDistinct("", [], item, [], "");
    SpreadOverlays(ArrayDefaults(item), schema);
    Obj(Spread(ArrayDefaults(item), schema))
  }

  /** `object(properties, schema = {})`: `{ type: 'object', properties,
      required: Object.keys(properties), additionalProperties: false, ...schema }`. */
  function Object(properties: Members, schema: Members := []): (r: Json)
    ensures r.Obj?
    ensures DistinctKeys(schema) ==> Overlays(r.members, ObjectDefaults(properties), schema)
  {
    DefaultsDistinct("", properties, Null, [], "");
    SpreadOverlays(ObjectDefaults(properties), schema);
    Obj(Spread(ObjectDefaults(properties), schema))
  }

  /** `anyOf(subschemas, schema = {})`: `{ anyOf: subschemas, ...schema }`. */
  function AnyOf(subschemas: seq<Json>, schema: Members := []): (r: Json)
    ensures r.Obj?
    ensures DistinctKeys(schema) ==> Overlays(r.members, AnyOfDefaults(subschemas), schema)
  {
    DefaultsDistinct("", [], Null, subschemas, "");
    SpreadOverlays(AnyOfDefaults(subschemas), schema);
    Obj(Spread(AnyOfDefaults(subschemas), schema))
  }

  /** `$ref(id, schema = {})`: `{ $ref: '#/$defs/' + id, ...schema }`. */
  function Ref(id: string, schema: Members := []): (r: Json)
    ensures r.Obj?
    ensures DistinctKeys(schema) ==> Overlays(r.members, RefDefaults(id), schema)
  {
    DefaultsDistinct("", [], Null, [], id);
    SpreadOverlays(RefDefaults(id), schema);
    Obj(Spread(RefDefaults(id), schema))
  }

  // ---------------------------------------------------------------------
  // What each builder promises about its own keywords

  /** A leaf builder's `type` is its fixed name unless the caller gives a
      `type`, which then wins; every other field is the caller's. */
  lemma StringFields(schema: Members, name: string)
    requires DistinctKeys(schema)
    ensures Field(String(schema), name) ==
              if name in Keys(schema) then Field(Obj(schema), name)
              else if name == "type" then Some(Str("string"))
              else None
  {
    LeafDefaultsFields("string", name);
    OverlayField(String(schema).members, LeafDefaults("string"), schema, name);
  }

  /** `items` is the item schema unchanged, unless the caller gives `items`. */
  lemma ArrayItems(item: Json, schema: Members)
    requires DistinctKeys(schema)
    ensures Field(Array(item, schema), "items") ==
              if "items" in Keys(schema) then Field(Obj(schema), "items") else Some(item)
    ensures Field(Array(item, schema), "type") ==
              if "type" in Keys(schema) then Field(Obj(schema), "type") else Some(Str("array"))
  {
    ArrayDefaultsFields(item);
    OverlayField(Array(item, schema).members, ArrayDefaults(item), schema, "items");
    OverlayField(Array(item, schema).members, ArrayDefaults(item), schema, "type");
  }

  /** `properties` is the members object as given and `required` lists its
      keys in order, unless the caller gives either; the caller's value then
      replaces the builder's wholesale. */
  lemma ObjectRequired(properties: Members, schema: Members)
    requires DistinctKeys(schema)
    ensures Field(Object(properties, schema), "properties") ==
              if "properties" in Keys(schema) then Field(Obj(schema), "properties")
              else Some(Obj(properties))
    ensures Field(Object(properties, schema), "required") ==
              if "required" in Keys(schema) then Field(Obj(schema), "required")
              else Some(Arr(Names(Keys(properties))))
    ensures "required" !in Keys(schema) ==> RequiredOf(Object(properties, schema)) == Some(Keys(properties))
  {
    var r := Object(properties, schema).members;
    ObjectDefaultsFields(properties);
    OverlayField(r, ObjectDefaults(properties), schema, "properties");
    OverlayField(r, ObjectDefaults(properties), schema, "required");
    ObjectDefaultsRequired(properties);
  }

  /** `additionalProperties` is `false` unless the caller gives it. */
  lemma ObjectAdditionalProperties(properties: Members, schema: Members)
    requires DistinctKeys(schema)
    ensures Field(Object(properties, schema), "additionalProperties") ==
              if "additionalProperties" in Keys(schema) then Field(Obj(schema), "additionalProperties")
              else Some(Bool(false))
  {
    ObjectDefaultsFields(properties);
    OverlayField(Object(properties, schema).members, ObjectDefaults(properties), schema, "additionalProperties");
  }

  /** `anyOf` is the list of subschemas verbatim (order and duplicates kept)
      unless the caller gives `anyOf`; the caller's other fields are added. */
  lemma AnyOfBranches(subschemas: seq<Json>, schema: Members)
    requires DistinctKeys(schema)
    ensures Field(AnyOf(subschemas, schema), "anyOf") ==
              if "anyOf" in Keys(schema) then Field(Obj(schema), "anyOf") else Some(Arr(subschemas))
  {
    AnyOfDefaultsField(subschemas);
    OverlayField(AnyOf(subschemas, schema).members, AnyOfDefaults(subschemas), schema, "anyOf");
  }

  /** `$ref` is `#/$defs/` followed by the identifier, so dropping the
      prefix gives the identifier back; a caller's `$ref` replaces it. */
  lemma RefTarget(id: string, schema: Members)
    requires DistinctKeys(schema)
    ensures Field(Ref(id, schema), "$ref") ==
              if "$ref" in Keys(schema) then Field(Obj(schema), "$ref") else Some(Str(DefsRef(id)))
    ensures "$ref" !in Keys(schema) ==> RefId(Ref(id, schema)) == Some(id)
  {
    RefDefaultsField(id);
    OverlayField(Ref(id, schema).members, RefDefaults(id), schema, "$ref");
    DefIdInverts(DefsRef(id), id);
  }

  // ---------------------------------------------------------------------
  // extend(schema, properties)

  /** One pass of the loop body of `extend` for the entry `key: value`:
      `schema.properties![key] = value`, then `schema.required!.push(key)`.
      The flag is false when the pass threw a TypeError because `properties`
      is missing or not an object (or, after the first statement, `required`
      is missing or not an array); the fields are then as the throw left
      them. */
  function Assign(fields: Members, key: string, value: Json): (Members, bool) {
    var m := AsMap(fields);
    if !("properties" in m && m["properties"].Obj?) then (fields, false)
    else
      var f := Put(fields, "properties", Obj(Put(m["properties"].members, key, value)));
      var n := AsMap(f);
      if !("required" in n && n["required"].Arr?) then (f, false)
      else (Put(f, "required", Arr(n["required"].elems + [Str(key)])), true)
  }

  /** The fields after `extend` has walked `entries` in order, and whether
      it returned normally. */
  function Extended(fields: Members, entries: Members): (Members, bool)
    decreases |entries|
  {
    if entries == [] then (fields, true)
    else
      var (f, ok) := Assign(fields, entries[0].0, entries[0].1);
      if ok then Extended(f, entries[1..]) else (f, false)
  }

  /** A schema object on the heap, the one thing any builder's caller can
      change after construction. */
  class SchemaObject {
    var fields: Members

    constructor (fields: Members)
      ensures this.fields == fields
    {
      this.fields := fields;
    }

    /** `extend(schema, properties)`; `completed` is false when the call
        threw. */
    method Extend(entries: Members) returns (completed: bool)
      modifies this
      ensures (fields, completed) == Extended(old(fields), entries)
    {
      var i := 0;
      while i < |entries|
        invariant 0 <= i <= |entries|
        invariant Extended(old(fields), entries) == Extended(fields, entries[i..])
      {
        var (key, value) := entries[i];
        assert entries[i..][0] == (key, value) && entries[i..][1..] == entries[i + 1..];
        ghost var before := fields;
        var m := AsMap(fields);
        if !("properties" in m && m["properties"].Obj?) {
          return false;
        }
        fields := Put(fields, "properties", Obj(Put(m["properties"].members, key, value)));
        var n := AsMap(fields);
        if !("required" in n && n["required"].Arr?) {
          assert Assign(before, key, value) == (fields, false);
          return false;
        }
        fields := Put(fields, "required", Arr(n["required"].elems + [Str(key)]));
        assert Assign(before, key, value) == (fields, true);
        i := i + 1;
      }
      return true;
    }
  }

  // ---------------------------------------------------------------------
  // What extend does

  /** One pass with both tables present: it completes, overwrites the two
      fields in place and leaves the others alone. */
  lemma AssignBoth(fields: Members, key: string, value: Json, table: Members, required: seq<Json>)
    requires Field(Obj(fields), "properties") == Some(Obj(table))
    requires Field(Obj(fields), "required") == Some(Arr(required))
    ensures var (f, ok) := Assign(fields, key, value);
            && ok
            && Keys(f) == Keys(fields)
            && AsMap(f) == AsMap(fields)["properties" := Obj(Put(table, key, value))]
                                        ["required" := Arr(required + [Str(key)])]
  {
    var f1 := Put(fields, "properties", Obj(Put(table, key, value)));
    PutLaws(fields, "properties", Obj(Put(table, key, value)));
    PutLaws(f1, "required", Arr(required + [Str(key)]));
    assert AsMap(f1)["required"] == Arr(required);
  }

  lemma RequiredGrows(required: seq<Json>, entries: Members)
    requires entries != []
    ensures required + [Str(entries[0].0)] + Names(Keys(entries[1..])) == required + Names(Keys(entries))
  {
    assert Keys(entries) == [entries[0].0] + Keys(entries[1..]);
    assert Names(Keys(entries)) == [Str(entries[0].0)] + Names(Keys(entries[1..]));
  }

  lemma UpdateBothTwice(m: map<string, Json>, p1: Json, r1: Json, p2: Json, r2: Json)
    ensures m["properties" := p1]["required" := r1]["properties" := p2]["required" := r2]
         == m["properties" := p2]["required" := r2]
  {
  }

  /** The first pass of `extend` with both tables present, and what is
      left to do after it. */
  lemma ExtendedFirst(fields: Members, entries: Members, table: Members, required: seq<Json>)
    returns (f: Members)
    requires entries != []
    requires Field(Obj(fields), "properties") == Some(Obj(table))
    requires Field(Obj(fields), "required") == Some(Arr(required))
    ensures Extended(fields, entries) == Extended(f, entries[1..])
    ensures Keys(f) == Keys(fields)
    ensures Field(Obj(f), "properties") == Some(Obj(Put(table, entries[0].0, entries[0].1)))
    ensures Field(Obj(f), "required") == Some(Arr(required + [Str(entries[0].0)]))
    ensures AsMap(f) == AsMap(fields)["properties" := Obj(Put(table, entries[0].0, entries[0].1))]
                                     ["required" := Arr(required + [Str(entries[0].0)])]
  {
    AssignBoth(fields, entries[0].0, entries[0].1, table, required);
    f := Assign(fields, entries[0].0, entries[0].1).0;
  }

  lemma {:induction false} ExtendedCompletes(fields: Members, entries: Members, table: Members, required: seq<Json>)
    requires Field(Obj(fields), "properties") == Some(Obj(table))
    requires Field(Obj(fields), "required") == Some(Arr(required))
    ensures Extended(fields, entries).1
    ensures Keys(Extended(fields, entries).0) == Keys(fields)
    decreases |entries|
  {
    if entries != [] {
      var f := ExtendedFirst(fields, entries, table, required);
      ExtendedCompletes(f, entries[1..], Put(table, entries[0].0, entries[0].1), required + [Str(entries[0].0)]);
    }
  }

  lemma {:induction false} ExtendedMap(fields: Members, entries: Members, table: Members, required: seq<Json>)
    requires Field(Obj(fields), "properties") == Some(Obj(table))
    requires Field(Obj(fields), "required") == Some(Arr(required))
    ensures AsMap(Extended(fields, entries).0) ==
              AsMap(fields)["properties" := Obj(Spread(table, entries))]
                           ["required" := Arr(required + Names(Keys(entries)))]
    decreases |entries|
  {
    if entries == [] {
      assert required + [] == required;
      assert AsMap(fields)["properties" := Obj(table)]["required" := Arr(required)] == AsMap(fields);
    } else {
      var rest := entries[1..];
      var t := Put(table, entries[0].0, entries[0].1);
      var req := required + [Str(entries[0].0)];
      var f := ExtendedFirst(fields, entries, table, required);
      ExtendedMap(f, rest, t, req);
      assert Spread(t, rest) == Spread(table, entries) by { SpreadFirst(table, entries); }
      assert req + Names(Keys(rest)) == required + Names(Keys(entries)) by { RequiredGrows(required, entries); }
      UpdateBothTwice(AsMap(fields), Obj(t), Arr(req), Obj(Spread(table, entries)),
                      Arr(required + Names(Keys(entries))));
    }
  }

  /** With both `properties` and `required` present, `extend` returns
      normally; `properties` becomes the old table with the entries put on
      top in order, `required` the old list followed by every entry's key
      (a key already listed is listed again), and every other field keeps
      its value and its place. */
  lemma ExtendedState(fields: Members, entries: Members, table: Members, required: seq<Json>)
    returns (after: Members)
    requires Field(Obj(fields), "properties") == Some(Obj(table))
    requires Field(Obj(fields), "required") == Some(Arr(required))
    ensures Extended(fields, entries) == (after, true)
    ensures Keys(after) == Keys(fields)
    ensures AsMap(after) ==
              AsMap(fields)["properties" := Obj(Spread(table, entries))]
                           ["required" := Arr(required + Names(Keys(entries)))]
  {
    ExtendedCompletes(fields, entries, table, required);
    ExtendedMap(fields, entries, table, required);
    after := Extended(fields, entries).0;
  }

  /** After a completed `extend` with a JavaScript object (no key twice),
      every key of the entries maps to its new value in `properties`, every
      other property is unchanged, and `required` has grown by exactly the
      entries' keys, in order. */
  lemma ExtendedLookup(fields: Members, entries: Members, table: Members, required: seq<string>)
    returns (after: Members, table': Members)
    requires DistinctKeys(entries)
    requires Field(Obj(fields), "properties") == Some(Obj(table))
    requires RequiredOf(Obj(fields)) == Some(required)
    ensures Extended(fields, entries) == (after, true)
    ensures Field(Obj(after), "properties") == Some(Obj(table'))
    ensures forall i :: 0 <= i < |entries| ==> Field(Obj(table'), entries[i].0) == Some(entries[i].1)
    ensures forall name :: name !in Keys(entries) ==> Field(Obj(table'), name) == Field(Obj(table), name)
    ensures RequiredOf(Obj(after)) == Some(required + Keys(entries))
  {
    var xs := Field(Obj(fields), "required").value.elems;
    after := ExtendedState(fields, entries, table, xs);
    table' := Spread(table, entries);
    SpreadLookup(table, entries);
    assert Field(Obj(after), "required") == Some(Arr(xs + Names(Keys(entries))));
    RequiredAppended(Obj(after), xs, required, Keys(entries));
  }

  lemma RequiredAppended(s: Json, xs: seq<Json>, required: seq<string>, added: seq<string>)
    requires AsNames(xs) == Some(required)
    requires Field(s, "required") == Some(Arr(xs + Names(added)))
    ensures RequiredOf(s) == Some(required + added)
  {
    NamesRoundTrip(required, xs);
    NamesAppend(required, added);
    NamesRoundTrip(required + added, Names(required) + Names(added));
  }

  /** `extend` keeps `required` free of repeats exactly when none of the
      new keys is listed already; it does not check this itself. */
  lemma ExtendedUnique(fields: Members, entries: Members, table: Members, required: seq<string>)
    returns (after: Members)
    requires DistinctKeys(entries)
    requires Field(Obj(fields), "properties") == Some(Obj(table))
    requires RequiredOf(Obj(fields)) == Some(required)
    requires Unique(required)
    ensures Extended(fields, entries) == (after, true)
    ensures RequiredOf(Obj(after)) == Some(required + Keys(entries))
    ensures Unique(required + Keys(entries)) <==> forall k :: k in Keys(entries) ==> k !in required
  {
    var table';
    after, table' := ExtendedLookup(fields, entries, table, required);
    DistinctKeysUnique(entries);
    UniqueAppend(required, Keys(entries));
  }

  lemma UniqueAppend(a: seq<string>, b: seq<string>)
    requires Unique(a) && Unique(b)
    ensures Unique(a + b) <==> forall k :: k in b ==> k !in a
  {
    var all := a + b;
    if forall k :: k in b ==> k !in a {
      forall i, j | 0 <= i < j < |all|
        ensures all[i] != all[j]
      {
        if j >= |a| && i < |a| {
          assert all[j] == b[j - |a|] && b[j - |a|] in b;
          assert all[i] == a[i] && a[i] in a;
        } else if i >= |a| {
          assert all[i] == b[i - |a|] && all[j] == b[j - |a|];
        }
      }
    } else {
      var k :| k in b && k in a;
      var i :| 0 <= i < |a| && a[i] == k;
      var j :| 0 <= j < |b| && b[j] == k;
      assert all[i] == all[|a| + j];
    }
  }

  /** Extending twice with the same key keeps the second value and lists
      the key twice more in `required`: there is no duplicate guard. */
  lemma ExtendTwiceDuplicates(fields: Members, table: Members, required: seq<string>, key: string, v: Json, w: Json)
    returns (once: Members, twice: Members)
    requires Field(Obj(fields), "properties") == Some(Obj(table))
    requires RequiredOf(Obj(fields)) == Some(required)
    ensures Extended(fields, [(key, v)]) == (once, true)
    ensures Extended(once, [(key, w)]) == (twice, true)
    ensures RequiredOf(Obj(twice)) == Some(required + [key] + [key])
    ensures PropertyOf(Obj(twice), key) == Some(w)
  {
    var t1, t2;
    once, t1 := ExtendedOne(fields, key, v, table, required);
    twice, t2 := ExtendedOne(once, key, w, t1, required + [key]);
  }

  /** `extend` with a single entry. */
  lemma ExtendedOne(fields: Members, key: string, v: Json, table: Members, required: seq<string>)
    returns (after: Members, table': Members)
    requires Field(Obj(fields), "properties") == Some(Obj(table))
    requires RequiredOf(Obj(fields)) == Some(required)
    ensures Extended(fields, [(key, v)]) == (after, true)
    ensures Field(Obj(after), "properties") == Some(Obj(table'))
    ensures PropertyOf(Obj(after), key) == Some(v)
    ensures RequiredOf(Obj(after)) == Some(required + [key])
  {
    var entries := [(key, v)];
    assert Keys(entries) == [key];
    assert DistinctKeys(entries);
    after, table' := ExtendedLookup(fields, entries, table, required);
    assert Field(Obj(table'), entries[0].0) == Some(entries[0].1);
  }

  /** `extend` on a schema without `properties`: a non-empty call throws
      at once and changes nothing; an empty one does nothing. */
  lemma ExtendedWithoutProperties(fields: Members, entries: Members)
    requires !(Field(Obj(fields), "properties").Some? && Field(Obj(fields), "properties").value.Obj?)
    ensures Extended(fields, entries) == (fields, entries == [])
  {
  }

  /** `extend` on a schema with `properties` but without `required`: a
      non-empty call writes its first entry into `properties`, then throws. */
  lemma ExtendedWithoutRequired(fields: Members, entries: Members, table: Members)
    requires entries != []
    requires Field(Obj(fields), "properties") == Some(Obj(table))
    requires !(Field(Obj(fields), "required").Some? && Field(Obj(fields), "required").value.Arr?)
    ensures Extended(fields, entries) ==
              (Put(fields, "properties", Obj(Put(table, entries[0].0, entries[0].1))), false)
  {
    PutLaws(fields, "properties", Obj(Put(table, entries[0].0, entries[0].1)));
  }
}
