/**
 The query sanitizer: `sanitize` rewrites a query tree into values `qs` can
 encode. Arrays are mapped element by element, Luxon DateTimes become their
 ISO text, URL-like objects become their `href`, and plain objects are
 rebuilt with every value sanitized.

 The DateTime and URL tests are duck-typed, so they also fire on plain
 objects: a truthy `isLuxonDateTime` property makes `sanitize` call a
 `toISO` method that a plain object does not have (a TypeError), and a
 non-empty string `href` property collapses the object to that string.
 */
module Sanitizer {
  import opened Js

  const LuxonTag := "isLuxonDateTime"
  const HrefKey := "href"

  /** `isDateTime` applied to a plain object. */
  predicate LooksLikeDateTime(fs: seq<Field>)
  {
    var t := Lookup(fs, LuxonTag);
    t.Some? && Truthy(t.value)
  }

  /** `isURL` applied to a plain object. */
  predicate LooksLikeUrl(fs: seq<Field>)
  {
    var h := Lookup(fs, HrefKey);
    h.Some? && h.value.Str? && h.value.s != ""
  }

  /** No DateTime and no URL object anywhere in the tree. */
  predicate Plain(v: Value)
  {
    match v
    case Arr(es) => forall i :: 0 <= i < |es| ==> Plain(es[i])
    case Obj(fs) => forall i :: 0 <= i < |fs| ==> Plain(fs[i].val)
    case DateTime(_) => false
    case Url(_) => false
    case _ => true
  }

  function Sanitize(v: Value): (r: Result<Value>)
    ensures r.Err? ==> r.error == TypeError
    ensures r.Ok? ==> Plain(r.value)
    ensures IsScalar(v) ==> r == Ok(v)
    ensures v.Arr? && r.Ok? ==> r.value.Arr? && |r.value.elems| == |v.elems|
    ensures v.Obj? && !LooksLikeUrl(v.fields) && r.Ok? ==>
              r.value.Obj? && Keys(r.value.fields) == Keys(v.fields)
    ensures v.DateTime? ==> r == Ok(if v.iso.Some? then Str(v.iso.value) else Null)
    ensures v.Url? ==> r == Ok(if v.href != "" then Str(v.href) else Obj([]))
    ensures v.Arr? && r.Ok? ==>
              forall i :: 0 <= i < |v.elems| ==> Sanitize(v.elems[i]) == Ok(r.value.elems[i])
    ensures v.Obj? && LooksLikeDateTime(v.fields) ==> r == Err(TypeError)
    ensures v.Obj? && !LooksLikeDateTime(v.fields) && LooksLikeUrl(v.fields) ==>
              r == Ok(Lookup(v.fields, HrefKey).value)
    ensures v.Obj? && !LooksLikeUrl(v.fields) && r.Ok? ==>
              forall i :: 0 <= i < |v.fields| ==> Sanitize(v.fields[i].val) == Ok(r.value.fields[i].val)
  {
    match v
    case Arr(es) =>
      if exists i :: 0 <= i < |es| && Sanitize(es[i]).Err? then Err(TypeError)
      else Ok(Arr(seq(|es|, i requires 0 <= i < |es| => Sanitize(es[i]).value)))
    case DateTime(iso) =>
      // an invalid DateTime's toISO() is null
      if iso.Some? then Ok(Str(iso.value)) else Ok(Null)
    case Url(href) =>
      // a URL's own enumerable properties are none, so an empty href
      // would leave an empty plain object
      if href != "" then Ok(Str(href)) else Ok(Obj([]))
    case Obj(fs) =>
      if LooksLikeDateTime(fs) then Err(TypeError)
      else if LooksLikeUrl(fs) then Ok(Lookup(fs, HrefKey).value)
      else if exists i :: 0 <= i < |fs| && Sanitize(fs[i].val).Err? then Err(TypeError)
      else
        var gs := seq(|fs|, i requires 0 <= i < |fs| => Field(fs[i].key, Sanitize(fs[i].val).value));
        assert Keys(gs) == Keys(fs);
        Ok(Obj(gs))
    case _ => Ok(v)
  }

  // ---------------------------------------------------------------------
  // When sanitize fails

  /** Some plain object that `sanitize` reaches carries a truthy
      `isLuxonDateTime` property. Objects collapsed to their `href` are not
      descended into. */
  predicate Poisoned(v: Value)
  {
    match v
    case Arr(es) => exists i :: 0 <= i < |es| && Poisoned(es[i])
    case Obj(fs) =>
      LooksLikeDateTime(fs) || (!LooksLikeUrl(fs) && exists i :: 0 <= i < |fs| && Poisoned(fs[i].val))
    case _ => false
  }

  lemma {:induction false} SanitizeFailsIffPoisoned(v: Value)
    ensures Sanitize(v).Err? <==> Poisoned(v)
  {
    match v
    case Arr(es) =>
      forall i | 0 <= i < |es| {
        SanitizeFailsIffPoisoned(es[i]);
      }
    case Obj(fs) =>
      forall i | 0 <= i < |fs| {
        SanitizeFailsIffPoisoned(fs[i].val);
      }
    case _ =>
  }

  /** The order of the duck-typed tests on a plain object: the DateTime
      test comes first, and only a non-empty string `href` collapses it. */
  lemma DuckTypingOrder(fs: seq<Field>, h: string)
    requires Lookup(fs, HrefKey) == Some(Str(h))
    ensures LooksLikeDateTime(fs) ==> Sanitize(Obj(fs)) == Err(TypeError)
    ensures !LooksLikeDateTime(fs) && h != "" ==> Sanitize(Obj(fs)) == Ok(Str(h))
    ensures !LooksLikeDateTime(fs) && h == "" && Sanitize(Obj(fs)).Ok? ==>
              Sanitize(Obj(fs)).value.Obj? && Keys(Sanitize(Obj(fs)).value.fields) == Keys(fs)
  {
  }

  // ---------------------------------------------------------------------
  // The trees sanitize leaves alone

  /** No DateTime, no URL, and no plain object that either duck-typed test
      would fire on. */
  predicate Clean(v: Value)
  {
    match v
    case Arr(es) => forall i :: 0 <= i < |es| ==> Clean(es[i])
    case Obj(fs) =>
      !LooksLikeDateTime(fs) && !LooksLikeUrl(fs) && forall i :: 0 <= i < |fs| ==> Clean(fs[i].val)
    case DateTime(_) => false
    case Url(_) => false
    case _ => true
  }

  /** The fixpoints of `sanitize` are exactly the clean trees. */
  lemma {:induction false} SanitizeFixpoints(v: Value)
    ensures Sanitize(v) == Ok(v) <==> Clean(v)
  {
    match v
    case Arr(es) =>
      forall i | 0 <= i < |es| {
        SanitizeFixpoints(es[i]);
      }
      if Clean(v) {
        assert Sanitize(v).value.elems == es;
      }
      if Sanitize(v) == Ok(v) {
        forall i | 0 <= i < |es|
          ensures Clean(es[i])
        {
          assert Sanitize(es[i]) == Ok(es[i]);
        }
      }
    case Obj(fs) =>
      forall i | 0 <= i < |fs| {
        SanitizeFixpoints(fs[i].val);
      }
      if Clean(v) {
        assert Sanitize(v).value.fields == fs;
      }
      if Sanitize(v) == Ok(v) {
        assert !LooksLikeDateTime(fs);
        assert !LooksLikeUrl(fs);
        forall i | 0 <= i < |fs|
          ensures Clean(fs[i].val)
        {
          assert Sanitize(fs[i].val) == Ok(fs[i].val);
        }
      }
    case _ =>
  }

  // ---------------------------------------------------------------------
  // Idempotence

  /** `x` sanitizes to a non-empty string. */
  predicate BecomesHref(x: Value)
  {
    var r := Sanitize(x);
    r.Ok? && r.value.Str? && r.value.s != ""
  }

  /** A plain object that `sanitize` rebuilds (it is not collapsed) whose
      `href` property only becomes a non-empty string once sanitized,
      for example `{href: new URL(...)}`. */
  predicate LateHref(v: Value)
  {
    match v
    case Arr(es) => exists i :: 0 <= i < |es| && LateHref(es[i])
    case Obj(fs) =>
      && !LooksLikeDateTime(fs)
      && !LooksLikeUrl(fs)
      && ((Lookup(fs, HrefKey).Some? && BecomesHref(Lookup(fs, HrefKey).value))
          || exists i :: 0 <= i < |fs| && LateHref(fs[i].val))
    case _ => false
  }

  /** A rebuilt object looks up each key at the same position as the
      original, holding the sanitized value. */
  lemma RebuiltLookup(fs: seq<Field>, gs: seq<Field>, k: string)
    requires |gs| == |fs|
    requires forall i :: 0 <= i < |fs| ==> gs[i].key == fs[i].key && Sanitize(fs[i].val) == Ok(gs[i].val)
    ensures Lookup(gs, k).Some? <==> Lookup(fs, k).Some?
    ensures Lookup(gs, k).Some? ==> Sanitize(Lookup(fs, k).value) == Ok(Lookup(gs, k).value)
  {
    assert Keys(gs) == Keys(fs);
  }

  /** The output of a successful sanitize is clean exactly when the input
      has no late `href`. */
  lemma {:induction false} SanitizedCleanIff(v: Value)
    requires Sanitize(v).Ok?
    ensures Clean(Sanitize(v).value) <==> !LateHref(v)
  {
    match v
    case Arr(es) =>
      var out := Sanitize(v).value.elems;
      forall i | 0 <= i < |es|
        ensures Sanitize(es[i]) == Ok(out[i])
        ensures Clean(out[i]) <==> !LateHref(es[i])
      {
        SanitizedCleanIff(es[i]);
      }
    case Obj(fs) =>
      if !LooksLikeUrl(fs) {
        var gs := Sanitize(v).value.fields;
        assert !LooksLikeDateTime(fs);
        forall i | 0 <= i < |fs|
          ensures gs[i].key == fs[i].key && Sanitize(fs[i].val) == Ok(gs[i].val)
          ensures Clean(gs[i].val) <==> !LateHref(fs[i].val)
        {
          SanitizedCleanIff(fs[i].val);
        }
        RebuiltLookup(fs, gs, LuxonTag);
        RebuiltLookup(fs, gs, HrefKey);
        assert !LooksLikeDateTime(gs);
        assert LooksLikeUrl(gs) <==> Lookup(fs, HrefKey).Some? && BecomesHref(Lookup(fs, HrefKey).value);
      }
    case _ =>
  }

  /** `sanitize` is idempotent on a tree exactly when the tree has no
      late `href`. */
  lemma SanitizeIdempotentIff(v: Value)
    requires Sanitize(v).Ok?
    ensures Sanitize(Sanitize(v).value) == Sanitize(v) <==> !LateHref(v)
  {
    SanitizedCleanIff(v);
    SanitizeFixpoints(Sanitize(v).value);
  }

  /** Idempotence fails in general: `{href: new URL('https://example.com/')}`
      sanitizes to `{href: 'https://example.com/'}`, which sanitizes again
      to the bare string. */
  lemma SanitizeNotIdempotent()
    ensures exists v :: Sanitize(v).Ok? && Sanitize(Sanitize(v).value) != Sanitize(v)
  {
    var u := "https://example.com/";
    var v := Obj([Field(HrefKey, Url(u))]);
    var fs := [Field(HrefKey, Url(u))];
    assert Keys(fs) == [HrefKey];
    assert Lookup(fs, LuxonTag) == None;
    assert Lookup(fs, HrefKey) == Some(Url(u));
    assert Sanitize(Url(u)) == Ok(Str(u));
    var w := Obj([Field(HrefKey, Str(u))]);
    assert Sanitize(v).value.fields == w.fields;
    assert Sanitize(w) == Ok(Str(u));
  }
}
