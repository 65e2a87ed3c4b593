/**
 The query encoder: `query(object)` sanitizes the query tree and hands it to
 `qs.stringify` with `arrayFormat: 'repeat'` and `encodeValuesOnly: true`.

 `qs` walks the tree depth first. Each scalar leaf becomes one `key=value`
 pair. A property of an object extends the key with `[name]`. An element of
 an array reuses the array's own key (the "repeat" format), so array
 positions never appear in a key. Only the values are percent-encoded, and
 that encoding is a parameter here.
 */
module QueryString {
  import opened Js
  import opened Sanitizer
  import opened Seqs

  /** How `qs` prints a scalar leaf: `String(v)`, with `null` printed as the
      empty string. Only scalar leaves are printed. */
  function ScalarText(v: Value): string
  {
    match v
    case Null => ""
    case Bool(b) => if b then "true" else "false"
    case Num(n) => DecimalText(n)
    case Str(s) => s
    case _ => ""
  }

  /** The (key, text) pairs `qs` emits for `v` under the key `prefix`. */
  function Pairs(v: Value, prefix: string): seq<(string, string)>
    requires Plain(v)
  {
    match v
    case Arr(es) => Flatten(seq(|es|, i requires 0 <= i < |es| => Pairs(es[i], prefix)))
    case Obj(fs) =>
      Flatten(seq(|fs|, i requires 0 <= i < |fs| => Pairs(fs[i].val, prefix + "[" + fs[i].key + "]")))
    case _ => [(prefix, ScalarText(v))]
  }

  /** The pairs for the whole query. `qs` enumerates the keys of the
      top-level value (the indices, for an array) and returns nothing for a
      value that is not an object. */
  function TopLevelPairs(v: Value): seq<(string, string)>
    requires Plain(v)
  {
    match v
    case Obj(fs) => Flatten(seq(|fs|, i requires 0 <= i < |fs| => Pairs(fs[i].val, fs[i].key)))
    case Arr(es) => Flatten(seq(|es|, i requires 0 <= i < |es| => Pairs(es[i], DecimalText(i))))
    case _ => []
  }

  /** The pairs joined with `&`, each written `key=encode(text)`. */
  function Join(pairs: seq<(string, string)>, encode: string -> string): string
  {
    if |pairs| == 0 then ""
    else
      var p := pairs[0].0 + "=" + encode(pairs[0].1);
      if |pairs| == 1 then p else p + "&" + Join(pairs[1..], encode)
  }

  /** `query(object)`: nothing for an absent query, otherwise the sanitized
      tree in repeat format. A failing sanitize propagates. */
  function Query(q: Option<Value>, encode: string -> string): (r: Result<Option<string>>)
    ensures q.None? ==> r == Ok(None)
    ensures q.Some? ==> (r.Ok? <==> Sanitize(q.value).Ok?)
    ensures q.Some? && r.Ok? ==> r.value.Some?
    ensures r.Err? ==> r.error == TypeError
  {
    match q
    case None => Ok(None)
    case Some(v) =>
      match Sanitize(v)
      case Err(e) => Err(e)
      case Ok(w) => Ok(Some(Join(TopLevelPairs(w), encode)))
  }

  // ---------------------------------------------------------------------
  // What the pairs hold

  /** The scalar leaves of a tree, each with the object keys on its path.
      Array positions are not part of a path. */
  function Leaves(v: Value): seq<(seq<string>, Value)>
    requires Plain(v)
  {
    match v
    case Arr(es) => Flatten(seq(|es|, i requires 0 <= i < |es| => Leaves(es[i])))
    case Obj(fs) =>
      Flatten(seq(|fs|, i requires 0 <= i < |fs| => Under(fs[i].key, Leaves(fs[i].val))))
    case _ => [([], v)]
  }

  function Under(k: string, ls: seq<(seq<string>, Value)>): seq<(seq<string>, Value)>
  {
    MapSeq(ls, (l: (seq<string>, Value)) => ([k] + l.0, l.1))
  }

  /** `[a][b]...` for a path of object keys. */
  function Brackets(path: seq<string>): string
  {
    if |path| == 0 then "" else "[" + path[0] + "]" + Brackets(path[1..])
  }

  /** The key a leaf gets at the top level: `a[b][c]...`. */
  function KeyOf(path: seq<string>): string
  {
    if |path| == 0 then "" else path[0] + Brackets(path[1..])
  }

  function Render(prefix: string): ((seq<string>, Value)) -> (string, string)
  {
    (l: (seq<string>, Value)) => (prefix + Brackets(l.0), ScalarText(l.1))
  }

  lemma RenderUnder(k: string, ls: seq<(seq<string>, Value)>, prefix: string)
    ensures MapSeq(Under(k, ls), Render(prefix)) == MapSeq(ls, Render(prefix + "[" + k + "]"))
  {
    forall i | 0 <= i < |ls|
      ensures MapSeq(Under(k, ls), Render(prefix))[i] == MapSeq(ls, Render(prefix + "[" + k + "]"))[i]
    {
      var path := ls[i].0;
      assert ([k] + path)[1..] == path;
      assert prefix + Brackets([k] + path) == (prefix + "[" + k + "]") + Brackets(path);
    }
  }

  /** Below a key, `qs` emits exactly one pair per scalar leaf, in order,
      keyed by the prefix followed by the leaf's object-key path. */
  lemma {:induction false} PairsAreLeaves(v: Value, prefix: string)
    requires Plain(v)
    ensures Pairs(v, prefix) == MapSeq(Leaves(v), Render(prefix))
  {
    var f := (s: seq<(seq<string>, Value)>) => MapSeq(s, Render(prefix));
    match v
    case Arr(es) =>
      var lss := seq(|es|, i requires 0 <= i < |es| => Leaves(es[i]));
      forall i | 0 <= i < |es| {
        PairsAreLeaves(es[i], prefix);
      }
      assert seq(|es|, i requires 0 <= i < |es| => Pairs(es[i], prefix)) == MapSeq(lss, f);
      FlattenMap(lss, Render(prefix));
    case Obj(fs) =>
      var lss := seq(|fs|, i requires 0 <= i < |fs| => Under(fs[i].key, Leaves(fs[i].val)));
      forall i | 0 <= i < |fs|
        ensures Pairs(fs[i].val, prefix + "[" + fs[i].key + "]") == f(lss[i])
      {
        PairsAreLeaves(fs[i].val, prefix + "[" + fs[i].key + "]");
        RenderUnder(fs[i].key, Leaves(fs[i].val), prefix);
      }
      assert seq(|fs|, i requires 0 <= i < |fs| => Pairs(fs[i].val, prefix + "[" + fs[i].key + "]"))
          == MapSeq(lss, f);
      FlattenMap(lss, Render(prefix));
    case Null | Bool(_) | Num(_) | Str(_) =>
      assert prefix + Brackets([]) == prefix;
    case _ =>
  }

  /** The query string of an object holds one pair per scalar leaf, in
      order, keyed `a[b][c]` by the leaf's object-key path: an array field
      repeats its key once per element and never shows an index. */
  lemma {:induction false} QueryPairsAreLeaves(fs: seq<Field>)
    requires Plain(Obj(fs))
    ensures TopLevelPairs(Obj(fs))
         == MapSeq(Leaves(Obj(fs)), (l: (seq<string>, Value)) => (KeyOf(l.0), ScalarText(l.1)))
  {
    var g := (l: (seq<string>, Value)) => (KeyOf(l.0), ScalarText(l.1));
    var lss := seq(|fs|, i requires 0 <= i < |fs| => Under(fs[i].key, Leaves(fs[i].val)));
    var f := (s: seq<(seq<string>, Value)>) => MapSeq(s, g);
    forall i | 0 <= i < |fs|
      ensures Pairs(fs[i].val, fs[i].key) == f(lss[i])
    {
      PairsAreLeaves(fs[i].val, fs[i].key);
      var ls := Leaves(fs[i].val);
      forall j | 0 <= j < |ls|
        ensures MapSeq(ls, Render(fs[i].key))[j] == f(lss[i])[j]
      {
        assert ([fs[i].key] + ls[j].0)[1..] == ls[j].0;
      }
    }
    assert seq(|fs|, i requires 0 <= i < |fs| => Pairs(fs[i].val, fs[i].key)) == MapSeq(lss, f);
    FlattenMap(lss, g);
  }

  /** An array of scalars under one key gives that key once per element. */
  lemma {:induction false} RepeatFormat(es: seq<Value>, key: string)
    requires forall i :: 0 <= i < |es| ==> IsScalar(es[i])
    ensures Plain(Arr(es))
    ensures Pairs(Arr(es), key) == MapSeq(es, (e: Value) => (key, ScalarText(e)))
  {
    if |es| > 0 {
      RepeatFormat(es[1..], key);
      assert seq(|es|, i requires 0 <= i < |es| => Pairs(es[i], key))[1..]
          == seq(|es[1..]|, i requires 0 <= i < |es[1..]| => Pairs(es[1..][i], key));
    }
  }

  lemma SingleFieldPairs(k: string, v: Value)
    requires Plain(v)
    ensures TopLevelPairs(Obj([Field(k, v)])) == Pairs(v, k)
  {
    var fs := [Field(k, v)];
    assert seq(|fs|, i requires 0 <= i < |fs| => Pairs(fs[i].val, fs[i].key)) == [Pairs(v, k)];
    assert Flatten([Pairs(v, k)]) == Pairs(v, k) + Flatten([]);
  }

  /** `{tags: ['a', 'b']}` encodes as `tags=a&tags=b`. */
  lemma TagsExample(encode: string -> string)
    requires encode("a") == "a" && encode("b") == "b"
    ensures Query(Some(Obj([Field("tags", Arr([Str("a"), Str("b")]))])), encode) == Ok(Some("tags=a&tags=b"))
  {
    var tags := Arr([Str("a"), Str("b")]);
    var q := Obj([Field("tags", tags)]);
    assert Keys([Field("tags", tags)]) == ["tags"];
    assert Clean(q);
    SanitizeFixpoints(q);
    RepeatFormat([Str("a"), Str("b")], "tags");
    SingleFieldPairs("tags", tags);
    var pairs := [("tags", "a"), ("tags", "b")];
    assert TopLevelPairs(q) == pairs;
    assert Join(pairs[1..], encode) == "tags=b";
    assert Join(pairs, encode) == "tags=a&tags=b";
  }
}
