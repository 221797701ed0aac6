# json-schema-kit in Dafny

json-schema-kit is a small TypeScript library of JSON Schema builders. Each
builder returns a plain object literal: fixed defaults with the caller's own
fields spread over them (`{ type: 'string', ...schema }`). The object builder
adds `properties`, a `required` list taken from the keys of the members, and
`additionalProperties: false`. `$ref` writes a pointer `#/$defs/<id>`. One
function mutates: `extend` adds properties to an existing object schema in
place.

The repository has two variants of the builders. The model gives each one a
module:

- `RootKit` (root_kit.dfy) models index.ts. Every builder, including `anyOf`
  and `$ref`, takes trailing caller fields. The class `SchemaObject`, with its
  loop method `Extend`, models `extend`.
- `Kit` (kit.dfy) models src/index.ts. This variant adds `integer`, and its
  `anyOf` and `$ref` build fixed one-field objects.

Three modules are shared:

- `Json` (json.dfy) models JSON values. An object is an ordered list of
  members, since a JavaScript object keeps its string keys in insertion order.
  - `Put` models property assignment `obj[k] = v`.
  - `Spread` models the object spread, as a fold of `Put`.
  - The spread is proved to be right-biased map union `AsMap(defaults) +
    AsMap(fields)`. Its key order is also proved: defaults first, in place,
    then the caller's new keys in the caller's order.
- `JsonPointer` (pointer.dfy) models the `$ref` strings and how a validator
  reads them as a JSON Pointer (RFC 6901): split at `/`, then unescape `~1`
  and `~0`.
- `Schema` (schema.dfy) holds the default objects of the builders and readers
  for `required`, `properties` and `$ref`.

Both variants' builders are total functions. Every builder that takes caller
fields is specified by the predicate `Overlays(r, defaults, fields)`, with
three parts:

- the result's dictionary is the defaults overwritten by the caller's fields;
- its keys are the default keys followed by the caller's new keys;
- no name occurs twice.

`Kit.AnyOf` and `Kit.Ref` take no caller fields; their contracts give their
one key and its value exactly. Per-keyword lemmas follow from `Overlays`. For
example, `required` lists the member keys in order unless the caller
overrides it.

`extend` is modelled in two parts:

- A specification function `Extended` folds the loop body `Assign` over the
  entries.
- `SchemaObject.Extend` is proved to leave `fields` and its result flag
  exactly as `Extended` describes. A `false` flag means the call threw a
  `TypeError`: `properties` was missing or not an object, or `required` was
  missing or not an array.

The lemmas about `Extended` then state what `extend` does:

- it overwrites properties;
- it appends every key to `required`, including keys already listed;
- it leaves every other field alone.

## Model

| member | source | states |
|---|---|---|
| Json.PutLaws | index.ts:61 | `obj[k] = v` updates the dictionary at `k` only; an existing name keeps its place, a new one is appended; distinct names stay distinct |
| Json.PutAppends | index.ts:61 | assigning a name the object lacks appends the member at the end |
| Json.PutReplaces | index.ts:61 | assigning a name the object has overwrites the member where it stands |
| Json.SpreadIsUnion | index.ts:20-25 | `{ ...base, ...over }` as a dictionary is `base` overwritten by `over` (right-biased union) |
| Json.SpreadKeys | index.ts:20-25 | the spread keeps the base keys in their order and appends the new keys of `over` in its order |
| Json.SpreadDistinct | index.ts:20-25 | spreading onto an object with distinct names gives an object with distinct names |
| Json.SpreadOverlays | index.ts:20-25 | every spread of one JavaScript object over another meets `Overlays` |
| Json.SpreadLookup | index.ts:61 | after a spread each caller field is read back with the caller's value and every other field as before |
| Json.SpreadAppends | src/index.ts:42-44 | when no caller field has a default, the spread is the defaults followed by the caller's fields |
| Json.FieldAt | index.ts:49-57 | in an object with distinct names each member is found under its own name |
| Json.NamesRoundTrip | index.ts:53 | the `required` array of strings reads back as exactly the names written, and only that array does |
| Json.DistinctKeysUnique | index.ts:53 | an object's names are distinct exactly when `Object.keys` of it has no repeats |
| JsonPointer.DefsRef | index.ts:75 | `#/$defs/${id}` is the eight-character prefix followed by `id` verbatim |
| JsonPointer.DefIdInverts | index.ts:75 | dropping the prefix gives back `id`, and only the reference to `id` gives `id` |
| JsonPointer.DefsRefInjective | index.ts:75 | distinct identifiers give distinct references |
| JsonPointer.DefsRefTokens | index.ts:75 | read as a JSON Pointer (before any percent-decoding), the reference is `$defs` then `id` exactly when `id` has no `/` and no `~`, because the builder does not escape |
| JsonPointer.SlashInIdRef | index.ts:75 | the identifier `a/b` is read as the path `$defs`, `a`, `b` |
| JsonPointer.NestedSchemaRef | tests/index.test.ts:303 | the identifier `nested-schema` is read as the definition of that name |
| JsonPointer.UnescapeIdentity | index.ts:75 | a reference token reads back as itself exactly when it holds no `~` |
| Schema.DefaultsDistinct | index.ts:20-78 | no builder's default object names a field twice |
| Schema.OverlayField | index.ts:49-57 | a field of a spread result is the caller's when the caller gave it, the default otherwise |
| Schema.ObjectDefaultsFields | index.ts:50-54 | the object defaults are `type: 'object'`, the members as `properties`, their keys as `required`, `additionalProperties: false` |
| Schema.ObjectDefaultsKeys | index.ts:50-54 | the object defaults come in the order `type`, `properties`, `required`, `additionalProperties` |
| Schema.ObjectDefaultsRequired | index.ts:53 | the default `required` reads back as the keys of the members, in order |
| Schema.LeafDefaultsFields | index.ts:20-25 | a leaf builder's only default is its `type` |
| Schema.ArrayDefaultsFields | index.ts:41-47 | the array defaults are `type: 'array'` and `items` |
| Schema.AnyOfDefaultsField | index.ts:66-71 | the `anyOf` default is the list of subschemas |
| Schema.RefDefaultsField | index.ts:73-78 | the `$ref` default is the reference to `id` |
| RootKit.String | index.ts:20-25 | `{ type: 'string', ...schema }` overlays the caller's fields on the `type` default; with no fields it is exactly `{ type: 'string' }` |
| RootKit.Boolean | index.ts:27-32 | as `String` with `type: 'boolean'` |
| RootKit.Number | index.ts:34-39 | as `String` with `type: 'number'` |
| RootKit.Array | index.ts:41-47 | the caller's fields overlaid on `type: 'array'` and `items` |
| RootKit.Object | index.ts:49-57 | the caller's fields overlaid on the four object defaults |
| RootKit.AnyOf | index.ts:66-71 | the caller's fields overlaid on `anyOf: subschemas` |
| RootKit.Ref | index.ts:73-78 | the caller's fields overlaid on `$ref: '#/$defs/' + id` |
| RootKit.StringFields | index.ts:20-25 | the `type` field is `string` unless the caller gives one, whose value then wins; every other field is the caller's |
| RootKit.ArrayItems | index.ts:41-47 | `items` is the item schema unchanged and `type` is `array`, unless the caller gives them |
| RootKit.ObjectRequired | index.ts:49-57 | `properties` is the members as given and `required` their keys in order, unless the caller gives either; the caller's value replaces the builder's wholesale |
| RootKit.ObjectAdditionalProperties | index.ts:54-55 | `additionalProperties` is `false` unless the caller sets it |
| RootKit.AnyOfBranches | index.ts:66-71 | `anyOf` is the subschemas verbatim, order and repeats kept, unless the caller gives `anyOf` |
| RootKit.RefTarget | index.ts:73-78 | `$ref` is the reference to `id`, so reading its identifier gives `id` back, unless the caller gives `$ref` |
| RootKit.SchemaObject.Extend | index.ts:59-64 | the loop leaves the fields and its completion flag exactly as the fold `Extended` of the loop body describes |
| RootKit.AssignBoth | index.ts:61-62 | one pass with both tables present completes, overwrites `properties[key]`, appends `key` to `required`, and changes nothing else |
| RootKit.ExtendedFirst | index.ts:60-62 | the first pass of the loop, and what it leaves for the remaining entries |
| RootKit.ExtendedCompletes | index.ts:59-64 | with both tables present `extend` returns normally and keeps every field in its place |
| RootKit.ExtendedMap | index.ts:59-64 | afterwards `properties` is the old table with the entries put on top in order, `required` the old list followed by every key, and every other field unchanged |
| RootKit.ExtendedState | index.ts:59-64 | returns normally, keeps the key order, and leaves the dictionary as `ExtendedMap` states |
| RootKit.ExtendedLookup | index.ts:59-64 | every entry's key maps to its new value in `properties`, every other property is unchanged, and `required` is the old list followed by the entries' keys |
| RootKit.RequiredAppended | index.ts:62 | appending names to a `required` array reads back as the old names followed by the new ones |
| RootKit.ExtendedUnique | index.ts:62 | `required` stays free of repeats exactly when no new key was listed before; `extend` itself does not check |
| RootKit.UniqueAppend | index.ts:62 | a list of unique names with unique names appended is unique exactly when the two share no name |
| RootKit.ExtendedOne | index.ts:59-64 | `extend` with one entry sets that property and appends its key once |
| RootKit.ExtendTwiceDuplicates | index.ts:61-62 | extending twice with the same key keeps the second value and lists the key twice: there is no duplicate guard |
| RootKit.ExtendedWithoutProperties | index.ts:61 | without an object `properties`, a non-empty `extend` throws at once and changes nothing |
| RootKit.ExtendedWithoutRequired | index.ts:62 | without an array `required`, a non-empty `extend` writes its first property, then throws |
| Kit.String | src/index.ts:13-15 | `{ type: 'string', ...properties }` overlays the caller's fields on the `type` default; with none it is exactly `{ type: 'string' }` |
| Kit.Number | src/index.ts:17-19 | as `String` with `type: 'number'` |
| Kit.Integer | src/index.ts:21-23 | as `String` with `type: 'integer'` |
| Kit.Boolean | src/index.ts:25-27 | as `String` with `type: 'boolean'` |
| Kit.Object | src/index.ts:29-40 | the caller's fields overlaid on the four object defaults |
| Kit.Array | src/index.ts:42-44 | the caller's fields overlaid on `type: 'array'` and `items` |
| Kit.AnyOf | src/index.ts:46-48 | the only field is `anyOf`, holding the subschemas as given |
| Kit.Ref | src/index.ts:50-52 | the only field is `$ref`, the prefix followed by `id`, whose identifier reads back as `id` |
| Kit.AgreesWithRoot | src/index.ts:13-52 | the builders both variants have build the same objects; this `anyOf` and `$ref` are the top-level ones with no caller fields |
| Kit.IntegerFields | src/index.ts:21-23 | `type` is `integer` unless the caller gives one; every other field is the caller's |
| Kit.NumberAppends | src/index.ts:17-19 | caller fields other than `type` follow `type` in the caller's order with the caller's values |
| Kit.NumberUnchecked | src/index.ts:17-19 | a `minimum` above the `maximum` is kept as given: no value is checked |
| Kit.ObjectEmpty | src/index.ts:29-40 | an object without members has `properties: {}` and `required: []` |
| Kit.DefsVerbatim | src/index.ts:38 | a caller's `$defs` is stored as given, whatever the members' references point at |
| Kit.ArrayAppends | src/index.ts:42-44 | caller fields other than `type` and `items` follow them in the caller's order |
| Kit.PersonExample | tests/index.test.ts:123-137 | `object({ name: string(), age: number() })` is the object the test expects |
| Kit.PersonOverrideExample | tests/index.test.ts:139-160 | a caller's `additionalProperties` replaces the default in place, `description` and `title` follow |
| Kit.NestedArrayExample | tests/index.test.ts:259-268 | `array(array(string()))` nests as the test expects |
| Kit.PricesExample | tests/index.test.ts:244-257 | `array(number(), { description, minItems, maxItems })` keeps the caller's fields after `items` |
| Kit.AnyOfExamples | tests/index.test.ts:328-333 | `anyOf` of two references keeps the list as given |
| Kit.AnyOfNullExample | tests/index.test.ts:335-348 | `anyOf([object({ name: string() }), { type: 'null' }])` is the object the test expects, the hand-written branch taken as it is |
| Kit.NestedSchemaExample | tests/index.test.ts:300-304 | `$ref('nested-schema')` is `#/$defs/nested-schema` and is read as that definition |

## Left out

- `nullable` is imported by tests/index.test.ts:1 and exercised by its tests, but its definition is not part of this model.
- src/types.ts holds TypeScript types only. Generics, `Partial<...>` and the element type of `anyOf` are compile-time checks with no runtime effect. The model accepts any JSON value wherever the types would restrict it.
- Object keys are kept in plain insertion order. JavaScript lists integer-like keys first in `Object.keys`/`Object.entries` and spreads; that ordering is not modelled.
- Aliasing: the builders store the caller's objects by reference: `object` its members object, `array` its item schema, `anyOf` its list of subschemas, and a caller's `$defs` its definitions. So `extend` writes through to the caller's members dictionary, and `extend` on a schema embedded as `items`, as an `anyOf` branch or under `$defs` changes the enclosing schema too. In the model, every schema is a value, and `extend` changes only the one `SchemaObject` it is given.
- Values are JSON only. JavaScript `undefined` (a spread field explicitly set to `undefined`), functions and symbols are not modelled. Numbers are mathematical reals, with no IEEE NaN, infinities or rounding.
- RootKit.Assign: assigning the key `__proto__` (an entry created with a computed key) to a `properties` table that has no own member of that name runs the `__proto__` setter inherited from `Object.prototype` in JavaScript: the value becomes the table's prototype, or is ignored when it is not an object, and no member is added, while `required` still gains `__proto__`. The model adds a member, as for any other key, and so do `RootKit.ExtendedState` and `RootKit.ExtendedLookup`.
- Strings are sequences of Unicode scalar values, whereas JavaScript strings are UTF-16 code units. An identifier holding a lone surrogate has no counterpart in the model, and the lengths in `JsonPointer.DefsRef` count characters rather than the code units of `.length`.
- RootKit.Assign: a `properties` value that is an array, or `required` that is a non-array object with its own `push`, is treated as a throw. JavaScript would instead write a named property on the array, or call that `push`.
- RootKit.String: the `Overlays` contract of every builder (`RootKit.String`, `RootKit.Boolean`, `RootKit.Number`, `RootKit.Array`, `RootKit.Object`, `RootKit.AnyOf`, `RootKit.Ref`) is stated for caller fields with no name twice. Every JavaScript object meets that, but a Dafny member list need not.
- Kit.String: as for `RootKit.String`, the `Overlays` contract of `Kit.String`, `Kit.Number`, `Kit.Integer`, `Kit.Boolean`, `Kit.Object` and `Kit.Array` assumes caller fields with no name twice.
- RootKit.ExtendedLookup: the per-key reading of `properties` assumes entries with no key twice, which is what `Object.entries` of a JavaScript object gives. `RootKit.ExtendedState` covers any entry list.
- The reading of `$ref` stops at JSON Pointer tokens. Percent-decoding of the URI fragment (section 2.1 of RFC 3986) and resolving the pointer against `$defs` are not modelled. No builder does either.
- Validation of instances against the built schemas is outside this library and not modelled.
