/** JSON values as the schema builders produce them, and the one operation
    every builder relies on: the object spread `{ ...defaults, ...fields }`,
    which copies the caller's fields on top of the builder's defaults. */
module Json {

  datatype Option<T> = None | Some(value: T)

  /** A JSON value. An object keeps its members in insertion order, as a
      JavaScript object does for its (non-numeric) keys. */
  datatype Json =
    | Null
    | Bool(b: bool)
    | Num(x: real)
    | Str(s: string)
    | Arr(elems: seq<Json>)
    | Obj(members: seq<(string, Json)>)

  /** The members of a JSON object, in insertion order. */
  type Members = seq<(string, Json)>

  /** `Object.keys(m)`: the member names in insertion order. */
  function Keys(m: Members): (ks: seq<string>)
    ensures |ks| == |m|
    ensures forall i :: 0 <= i < |m| ==> ks[i] == m[i].0
  {
    if m == [] then [] else [m[0].0] + Keys(m[1..])
  }

  /** A member list that a JavaScript object can have: no name twice. */
  predicate DistinctKeys(m: Members) {
    m == [] || (m[0].0 !in Keys(m[1..]) && DistinctKeys(m[1..]))
  }

  /** The object seen as a dictionary (the first member of a name wins,
      which only matters for lists no JavaScript object has). */
  function AsMap(m: Members): (f: map<string, Json>)
    ensures forall k :: k in f <==> k in Keys(m)
  {
    if m == [] then map[] else AsMap(m[1..])[m[0].0 := m[0].1]
  }

  /** `s[name]` for an object `s`; None when `s` is no object or lacks the field. */
  function Field(s: Json, name: string): (v: Option<Json>)
    ensures v.Some? <==> s.Obj? && name in Keys(s.members)
    ensures v.Some? ==> v.value == AsMap(s.members)[name]
  {
    if s.Obj? && name in AsMap(s.members) then Some(AsMap(s.members)[name]) else None
  }

  /** The assignment `obj[k] = v` on a plain object with an ordinary key: a
      member named `k` is overwritten where it stands, otherwise a new member
      is appended at the end. (The inherited `__proto__` setter is not
      modelled.) */
  function Put(m: Members, k: string, v: Json): Members {
    if m == [] then [(k, v)]
    else if m[0].0 == k then [(k, v)] + m[1..]
    else [m[0]] + Put(m[1..], k, v)
  }

  /** The assignment updates the dictionary at `k` and nothing else; the
      names keep their order, a new name goes last. */
  lemma {:induction false} PutLaws(m: Members, k: string, v: Json)
    ensures AsMap(Put(m, k, v)) == AsMap(m)[k := v]
    ensures Keys(Put(m, k, v)) == if k in Keys(m) then Keys(m) else Keys(m) + [k]
    ensures DistinctKeys(m) ==> DistinctKeys(Put(m, k, v))
  {
    if m != [] && m[0].0 != k {
      var rest := Put(m[1..], k, v);
      var r := [m[0]] + rest;
      PutLaws(m[1..], k, v);
      assert r[1..] == rest;
      assert AsMap(r) == AsMap(rest)[m[0].0 := m[0].1];
      UpdatesCommute(AsMap(m[1..]), k, v, m[0].0, m[0].1);
      assert Keys(r) == [m[0].0] + Keys(rest);
    } else if m != [] {
      assert ([(k, v)] + m[1..])[1..] == m[1..];
    }
  }

  lemma UpdatesCommute(f: map<string, Json>, a: string, x: Json, b: string, y: Json)
    requires a != b
    ensures f[a := x][b := y] == f[b := y][a := x]
  {
  }

  /** `{ ...base, ...over }`: the members of `over`, in their order, put on
      top of `base` one by one. */
  function Spread(base: Members, over: Members): Members
    decreases |over|
  {
    if over == [] then base
    else
      Spread(Put(base, over[0].0, over[0].1), over[1..])
  }

  /** The names of `ks` that are not in `seen`, in their order. */
  function Unseen(ks: seq<string>, seen: seq<string>): seq<string> {
    if ks == [] then []
    else if ks[0] in seen then Unseen(ks[1..], seen)
    else [ks[0]] + Unseen(ks[1..], seen)
  }

  /** `r` is what `{ ...defaults, ...fields }` evaluates to: every field of
      `fields` replaces the default of the same name wholesale (no merge),
      the other defaults stay, no name occurs twice, and the defaults keep
      their places ahead of the fields that are new. */
  ghost predicate Overlays(r: Members, defaults: Members, fields: Members) {
    && AsMap(r) == AsMap(defaults) + AsMap(fields)
    && Keys(r) == Keys(defaults) + Unseen(Keys(fields), Keys(defaults))
    && DistinctKeys(r)
  }

  /** A JSON array of strings, as `required` holds them. */
  function Names(ks: seq<string>): (xs: seq<Json>)
    ensures |xs| == |ks|
    ensures forall i :: 0 <= i < |ks| ==> xs[i] == Str(ks[i])
  {
    if ks == [] then [] else [Str(ks[0])] + Names(ks[1..])
  }

  /** Reads a JSON array back as a list of strings; None if an element is
      not a string. */
  function AsNames(xs: seq<Json>): (r: Option<seq<string>>)
    ensures r.Some? ==> |r.value| == |xs|
  {
    if xs == [] then Some([])
    else
      match (xs[0], AsNames(xs[1..]))
      case (Str(s), Some(rest)) => Some([s] + rest)
      case _ => None
  }

  // ---------------------------------------------------------------------
  // Laws of the spread

  lemma {:induction false} DistinctKeysAt(m: Members)
    requires DistinctKeys(m)
    ensures forall i, j :: 0 <= i < j < |m| ==> m[i].0 != m[j].0
  {
    if m != [] {
      DistinctKeysAt(m[1..]);
      assert forall j :: 1 <= j < |m| ==> m[j].0 == Keys(m[1..])[j - 1];
    }
  }

  /** No name is listed twice (section 6.5.3 of JSON Schema Validation
      2020-12 asks this of `required`). */
  predicate Unique(names: seq<string>) {
    forall i, j :: 0 <= i < j < |names| ==> names[i] != names[j]
  }

  /** A member list has distinct names exactly when its key list has no
      repeats. */
  lemma DistinctKeysUnique(m: Members)
    ensures DistinctKeys(m) <==> Unique(Keys(m))
  {
    if DistinctKeys(m) {
      DistinctKeysAt(m);
    } else {
      if Unique(Keys(m)) {
        DistinctKeysFromPairs(m);
      }
    }
  }

  lemma {:induction false} DistinctKeysFromPairs(m: Members)
    requires forall i, j :: 0 <= i < j < |m| ==> m[i].0 != m[j].0
    ensures DistinctKeys(m)
  {
    if m != [] {
      DistinctKeysFromPairs(m[1..]);
      assert Keys(m[1..]) == Keys(m)[1..];
    }
  }

  /** In a JavaScript object each member is found under its own name. */
  lemma {:induction false} AsMapAt(m: Members, i: nat)
    requires DistinctKeys(m) && i < |m|
    ensures AsMap(m)[m[i].0] == m[i].1
  {
    if i > 0 {
      AsMapAt(m[1..], i - 1);
      assert m[1..][i - 1] == m[i];
      assert m[i].0 in Keys(m[1..]);
    }
  }

  /** In a JavaScript object the field named like its `i`th member holds
      that member's value. */
  lemma FieldAt(m: Members, i: nat)
    requires DistinctKeys(m) && i < |m|
    ensures Field(Obj(m), m[i].0) == Some(m[i].1)
  {
    AsMapAt(m, i);
    assert Keys(m)[i] == m[i].0;
  }

  /** The spread is right-biased map union, provided the caller's object is
      one (no name twice). */
  lemma {:induction false} SpreadIsUnion(base: Members, over: Members)
    requires DistinctKeys(over)
    ensures AsMap(Spread(base, over)) == AsMap(base) + AsMap(over)
    decreases |over|
  {
    if over != [] {
      var (k, v) := over[0];
      var rest := over[1..];
      assert Spread(base, over) == Spread(Put(base, k, v), rest);
      SpreadIsUnion(Put(base, k, v), rest);
      PutLaws(base, k, v);
      assert AsMap(over) == AsMap(rest)[k := v];
      UnionUpdate(AsMap(base), AsMap(rest), k, v);
    }
  }

  lemma UnionUpdate(f: map<string, Json>, g: map<string, Json>, k: string, v: Json)
    requires k !in g
    ensures f[k := v] + g == f + g[k := v]
  {
  }

  /** After a spread, each caller field is found with the caller's value
      and every other field is found as before. */
  lemma SpreadLookup(base: Members, over: Members)
    requires DistinctKeys(over)
    ensures forall i :: 0 <= i < |over| ==> Field(Obj(Spread(base, over)), over[i].0) == Some(over[i].1)
    ensures forall name :: name !in Keys(over) ==> Field(Obj(Spread(base, over)), name) == Field(Obj(base), name)
  {
    SpreadIsUnion(base, over);
    forall i | 0 <= i < |over|
      ensures Field(Obj(Spread(base, over)), over[i].0) == Some(over[i].1)
    {
      AsMapAt(over, i);
    }
  }

  lemma PutPasses(m: Members, k: string, v: Json)
    requires m != [] && m[0].0 != k
    ensures Put(m, k, v) == [m[0]] + Put(m[1..], k, v)
  {
  }

  lemma SpreadFirst(base: Members, over: Members)
    requires over != []
    ensures Spread(base, over) == Spread(Put(base, over[0].0, over[0].1), over[1..])
  {
  }

  /** The names after the first are the keys of the rest. */
  lemma KeysRest(m: Members)
    requires m != []
    ensures Keys(m) == [m[0].0] + Keys(m[1..])
  {
  }

  /** A name the object lacks is appended at the end. */
  lemma {:induction false} PutAppends(m: Members, k: string, v: Json)
    requires k !in Keys(m)
    ensures Put(m, k, v) == m + [(k, v)]
  {
    if m != [] {
      assert m[0].0 != k && k !in Keys(m[1..]) by { KeysRest(m); }
      PutAppends(m[1..], k, v);
      PutPasses(m, k, v);
      assert [m[0]] + (m[1..] + [(k, v)]) == m + [(k, v)];
    }
  }

  /** A name the object has is overwritten where it first stands. */
  lemma {:induction false} PutReplaces(m: Members, i: nat, v: Json)
    requires i < |m| && m[i].0 !in Keys(m[..i])
    ensures Put(m, m[i].0, v) == m[..i] + [(m[i].0, v)] + m[i + 1..]
  {
    if i > 0 {
      var t := m[1..];
      var key := m[i].0;
      assert key != m[0].0 && key !in Keys(t[..i - 1]) && t[i - 1].0 == key by {
        assert m[..i] == [m[0]] + t[..i - 1];
        KeysRest(m[..i]);
      }
      PutReplaces(t, i - 1, v);
      PutPasses(m, key, v);
      SeqSpliceAt(m, i, (key, v));
    }
  }

  lemma SeqSpliceAt(m: Members, i: nat, e: (string, Json))
    requires 0 < i < |m|
    ensures [m[0]] + (m[1..][..i - 1] + [e] + m[1..][i..]) == m[..i] + [e] + m[i + 1..]
  {
    assert m[..i] == [m[0]] + m[1..][..i - 1];
    assert m[1..][i..] == m[i + 1..];
  }

  /** When the caller's fields are all new, the spread appends them in order. */
  lemma {:induction false} SpreadAppends(base: Members, over: Members)
    requires forall k :: k in Keys(over) ==> k !in Keys(base)
    requires DistinctKeys(over)
    ensures Spread(base, over) == base + over
    decreases |over|
  {
    if over != [] {
      var (k, v) := over[0];
      var rest := over[1..];
      var b := base + [(k, v)];
      assert Put(base, k, v) == b by { KeysRest(over); PutAppends(base, k, v); }
      assert forall j :: j in Keys(rest) ==> j !in Keys(b) by { KeysRest(over); KeysAppend(base, (k, v)); }
      SpreadFirst(base, over);
      SpreadAppends(b, rest);
      assert b + rest == base + over by { SeqSplice(base, over); }
    }
  }

  lemma SeqSplice(a: Members, b: Members)
    requires b != []
    ensures a + [b[0]] + b[1..] == a + b
  {
    assert b == [b[0]] + b[1..];
  }

  lemma KeysAppend(m: Members, e: (string, Json))
    ensures Keys(m + [e]) == Keys(m) + [e.0]
  {
  }

  lemma {:induction false} UnseenSkips(ks: seq<string>, seen: seq<string>, k: string)
    requires k !in ks
    ensures Unseen(ks, seen + [k]) == Unseen(ks, seen)
  {
    if ks != [] {
      UnseenSkips(ks[1..], seen, k);
    }
  }

  /** The defaults keep their order and places; the caller's new fields
      follow in the caller's order. */
  lemma {:induction false} SpreadKeys(base: Members, over: Members)
    requires DistinctKeys(over)
    ensures Keys(Spread(base, over)) == Keys(base) + Unseen(Keys(over), Keys(base))
    decreases |over|
  {
    if over != [] {
      var (k, v) := over[0];
      var b := Put(base, k, v);
      PutLaws(base, k, v);
      SpreadKeys(b, over[1..]);
      assert Keys(over) == [k] + Keys(over[1..]);
      if k !in Keys(base) {
        UnseenSkips(Keys(over[1..]), Keys(base), k);
      }
    }
  }

  lemma {:induction false} SpreadDistinct(base: Members, over: Members)
    requires DistinctKeys(base)
    ensures DistinctKeys(Spread(base, over))
    decreases |over|
  {
    if over != [] {
      PutLaws(base, over[0].0, over[0].1);
      SpreadDistinct(Put(base, over[0].0, over[0].1), over[1..]);
    }
  }

  /** Every spread of one JavaScript object over another meets `Overlays`. */
  lemma SpreadOverlays(defaults: Members, fields: Members)
    ensures DistinctKeys(defaults) && DistinctKeys(fields) ==>
              Overlays(Spread(defaults, fields), defaults, fields)
  {
    if DistinctKeys(defaults) && DistinctKeys(fields) {
      SpreadIsUnion(defaults, fields);
      SpreadKeys(defaults, fields);
      SpreadDistinct(defaults, fields);
    }
  }

  /** Reading `required` back gives exactly the names written, and only
      those arrays read back to them. */
  lemma {:induction false} NamesRoundTrip(ks: seq<string>, xs: seq<Json>)
    ensures AsNames(xs) == Some(ks) <==> xs == Names(ks)
    decreases |xs|
  {
    if xs != [] && ks != [] {
      NamesRoundTrip(ks[1..], xs[1..]);
      assert Names(ks) == [Str(ks[0])] + Names(ks[1..]);
      assert ks == [ks[0]] + ks[1..];
      if xs == Names(ks) {
        assert xs[0] == Str(ks[0]) && xs[1..] == Names(ks[1..]);
        assert AsNames(xs) == Some([ks[0]] + ks[1..]);
      }
      if AsNames(xs) == Some(ks) {
        assert xs[0] == Str(ks[0]) && AsNames(xs[1..]) == Some(ks[1..]);
        assert xs == [Str(ks[0])] + Names(ks[1..]);
      }
    } else if xs == [] && ks != [] {
      assert |Names(ks)| > 0;
    } else if xs != [] && ks == [] {
      assert AsNames(xs).Some? ==> |AsNames(xs).value| > 0;
    }
  }

  lemma NamesAppend(a: seq<string>, b: seq<string>)
    ensures Names(a + b) == Names(a) + Names(b)
  {
  }
}
