/** The strings the `$ref` builders produce, and what they mean to a
    validator: a same-document URI reference `#<pointer>` whose JSON Pointer
    (RFC 6901) is split into reference tokens and unescaped. */
module JsonPointer {
  import opened Json

  /** The fixed prefix of every reference the builders write: a pointer
      into the `$defs` of the root schema. */
  const DefsPrefix: string := "#/$defs/"

  /** `#/$defs/${id}`: the identifier is inserted verbatim, with no escaping
      of `~` or `/` (section 3 of RFC 6901) and no percent-encoding. */
  function DefsRef(id: string): (p: string)
    ensures |p| == |DefsPrefix| + |id|
    ensures p[..|DefsPrefix|] == DefsPrefix && p[|DefsPrefix|..] == id
  {
    DefsPrefix + id
  }

  /** Drops the `#/$defs/` prefix; None for a string that does not start with it. */
  function DefId(p: string): (id: Option<string>)
    ensures id.Some? ==> |p| == |DefsPrefix| + |id.value|
  {
    if |p| >= |DefsPrefix| && p[..|DefsPrefix|] == DefsPrefix
    then Some(p[|DefsPrefix|..])
    else None
  }

  /** A reference spelled out character by character. */
  lemma DefsRefSpelled(id: string, p: string)
    requires |p| == |DefsPrefix| + |id|
    requires forall i :: 0 <= i < |DefsPrefix| ==> p[i] == DefsPrefix[i]
    requires forall i :: 0 <= i < |id| ==> p[|DefsPrefix| + i] == id[i]
    ensures DefsRef(id) == p
  {
    assert forall i :: 0 <= i < |p| ==> DefsRef(id)[i] == p[i] by {
      forall i | 0 <= i < |p|
        ensures DefsRef(id)[i] == p[i]
      {
        if i >= |DefsPrefix| {
          assert p[|DefsPrefix| + (i - |DefsPrefix|)] == id[i - |DefsPrefix|];
        }
      }
    }
  }

  /** Dropping the prefix gives back the identifier, and a string gives
      back `id` only if it is the reference to `id`. */
  lemma DefIdInverts(p: string, id: string)
    ensures DefId(p) == Some(id) <==> p == DefsRef(id)
  {
    if DefId(p) == Some(id) {
      assert p == p[..|DefsPrefix|] + p[|DefsPrefix|..];
    }
  }

  /** Distinct identifiers give distinct references. */
  lemma DefsRefInjective(a: string, b: string)
    ensures DefsRef(a) == DefsRef(b) ==> a == b
  {
    DefIdInverts(DefsRef(a), a);
    DefIdInverts(DefsRef(a), b);
  }

  /** The pieces of `s` between the `/` characters (section 3 of RFC 6901:
      a pointer is a sequence of `/`-prefixed reference tokens). */
  function Split(s: string): (parts: seq<string>)
    ensures |parts| >= 1
  {
    if s == [] then [""]
    else
      var rest := Split(s[1..]);
      if s[0] == '/' then [""] + rest
      else [[s[0]] + rest[0]] + rest[1..]
  }

  /** Section 4 of RFC 6901: `~1` stands for `/` and `~0` for `~`; a `~`
      followed by anything else is not a valid token (None). */
  function Unescape(t: string): (u: Option<string>)
    ensures u.Some? ==> |u.value| <= |t|
  {
    if t == [] then Some([])
    else if t[0] != '~' then Prepend(t[0], Unescape(t[1..]))
    else if |t| >= 2 && t[1] == '0' then Prepend('~', Unescape(t[2..]))
    else if |t| >= 2 && t[1] == '1' then Prepend('/', Unescape(t[2..]))
    else None
  }

  function Prepend(c: char, u: Option<string>): (r: Option<string>)
    ensures r.Some? <==> u.Some?
    ensures r.Some? ==> r.value == [c] + u.value
  {
    if u.Some? then Some([c] + u.value) else None
  }

  function UnescapeAll(parts: seq<string>): (r: Option<seq<string>>)
    ensures r.Some? ==> |r.value| == |parts|
  {
    if parts == [] then Some([])
    else
      match (Unescape(parts[0]), UnescapeAll(parts[1..]))
      case (Some(t), Some(ts)) => Some([t] + ts)
      case _ => None
  }

  /** The reference tokens of a JSON Pointer; None for a string that is
      not one. */
  function Tokens(pointer: string): Option<seq<string>> {
    if pointer == [] then Some([])
    else if pointer[0] == '/' then UnescapeAll(Split(pointer[1..]))
    else None
  }

  /** The tokens of a same-document reference `#<pointer>`. Percent-decoding
      of the URI fragment (section 2.1 of RFC 3986) is not modelled. */
  function FragmentTokens(ref: string): Option<seq<string>> {
    if |ref| >= 1 && ref[0] == '#' then Tokens(ref[1..]) else None
  }

  // ---------------------------------------------------------------------
  // Laws

  lemma {:induction false} SplitSingle(s: string)
    ensures '/' !in s ==> Split(s) == [s]
    ensures '/' in s ==> |Split(s)| >= 2
  {
    if s != [] {
      SplitSingle(s[1..]);
      assert s == [s[0]] + s[1..];
    }
  }

  lemma {:induction false} SplitAfter(a: string, b: string)
    requires '/' !in a
    ensures Split(a + "/" + b) == [a] + Split(b)
  {
    if a == [] {
      assert (a + "/" + b)[1..] == b;
    } else {
      SplitAfter(a[1..], b);
      assert (a + "/" + b)[1..] == a[1..] + "/" + b;
      assert a == [a[0]] + a[1..];
    }
  }

  /** A token reads back as itself exactly when it holds no `~`. */
  lemma {:induction false} UnescapeIdentity(t: string)
    ensures Unescape(t) == Some(t) <==> '~' !in t
  {
    if t != [] {
      if t[0] != '~' {
        UnescapeIdentity(t[1..]);
        assert t == [t[0]] + t[1..];
      } else if |t| >= 2 && t[1] == '0' {
        var u := Unescape(t[2..]);
        if u.Some? {
          assert |Unescape(t).value| < |t|;
        }
      }
    }
  }

  lemma UnescapeAllCons(t: string, ts: seq<string>)
    ensures UnescapeAll([t] + ts) ==
              if Unescape(t).Some? && UnescapeAll(ts).Some?
              then Some([Unescape(t).value] + UnescapeAll(ts).value)
              else None
  {
    assert ([t] + ts)[1..] == ts;
  }

  lemma UnescapeAllOne(t: string)
    ensures UnescapeAll([t]) == if Unescape(t).Some? then Some([Unescape(t).value]) else None
  {
    UnescapeAllCons(t, []);
    assert [t] + [] == [t];
    assert UnescapeAll([]) == Some([]);
    if Unescape(t).Some? {
      assert [Unescape(t).value] + [] == [Unescape(t).value];
    }
  }

  /** A reference to `id` reads as `$defs` followed by the tokens of `id`. */
  lemma DefsRefReadsAs(id: string)
    ensures FragmentTokens(DefsRef(id)) ==
              if UnescapeAll(Split(id)).Some?
              then Some(["$defs"] + UnescapeAll(Split(id)).value)
              else None
  {
    var p := DefsRef(id);
    assert p[1..][1..] == "$defs" + "/" + id;
    SplitAfter("$defs", id);
    UnescapeIdentity("$defs");
    UnescapeAllCons("$defs", Split(id));
  }

  /** The reference to `id` points at the definition named `id` exactly
      when `id` holds neither `/` nor `~`: anything else is read as a
      deeper path or an escape, since the builder does not escape. */
  lemma {:induction false} DefsRefTokens(id: string)
    ensures FragmentTokens(DefsRef(id)) == Some(["$defs", id]) <==> '/' !in id && '~' !in id
  {
    DefsRefReadsAs(id);
    SplitSingle(id);
    if '/' !in id {
      UnescapeIdentity(id);
      UnescapeAllOne(id);
      var u := Unescape(id);
      if u.Some? {
        assert FragmentTokens(DefsRef(id)) == Some(["$defs"] + [u.value]);
        if ["$defs"] + [u.value] == ["$defs", id] {
          assert (["$defs"] + [u.value])[1] == ["$defs", id][1];
        }
      }
    }
  }

  /** The identifier of a test case, `nested-schema`, names its definition. */
  lemma NestedSchemaRef()
    ensures FragmentTokens(DefsRef("nested-schema")) == Some(["$defs", "nested-schema"])
  {
    var id := "nested-schema";
    assert forall i :: 0 <= i < |id| ==> id[i] != '/' && id[i] != '~';
    DefsRefTokens(id);
  }

  /** `a/b` is read as the path `$defs`, `a`, `b`, not as the definition `a/b`. */
  lemma SlashInIdRef()
    ensures FragmentTokens(DefsRef("a/b")) == Some(["$defs", "a", "b"])
  {
    DefsRefReadsAs("a/b");
    assert "a/b" == "a" + "/" + "b";
    SplitAfter("a", "b");
    SplitSingle("b");
    UnescapeIdentity("a");
    UnescapeIdentity("b");
    UnescapeAllOne("b");
    UnescapeAllCons("a", ["b"]);
    assert ["$defs"] + (["a"] + ["b"]) == ["$defs", "a", "b"];
  }
}
