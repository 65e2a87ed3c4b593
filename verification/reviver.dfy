/**
 The JSON reviver. `JSON.parse(body, jsonParser)` calls `jsonParser` on every
 value of the parsed tree, children before their parent. Only string values
 are touched: a string that `new URL` accepts becomes a URL object, otherwise
 a string that Luxon's `DateTime.fromISO` reads as a valid date becomes a
 DateTime, otherwise it stays a string. The URL test comes first.

 The two parsers are foreign and stay abstract: `url(s)` is the `href` of
 `new URL(s)` when the constructor does not throw, and `iso(s)` is the
 `toISO()` text of `DateTime.fromISO(s)` when that DateTime is valid.
 */
module Reviver {
  import opened Js
  import opened Sanitizer

  datatype Parsers = Parsers(url: string -> Option<string>, iso: string -> Option<string>)

  /** What the reviver makes of one string leaf. */
  function ReviveString(s: string, p: Parsers): (r: Value)
    ensures r.Url? <==> p.url(s).Some?
    ensures r.DateTime? <==> p.url(s).None? && p.iso(s).Some?
    ensures r.Str? <==> p.url(s).None? && p.iso(s).None?
    ensures r.Url? ==> r.href == p.url(s).value
    ensures r.DateTime? ==> r.iso == Some(p.iso(s).value)
    ensures r.Str? ==> r.s == s
  {
    match p.url(s)
    case Some(href) => Url(href)
    case None =>
      match p.iso(s)
      case Some(iso) => DateTime(Some(iso))
      case None => Str(s)
  }

  /** `jsonParser(key, value)`: the reviver applied to one value. */
  function JsonParser(v: Value, p: Parsers): (r: Value)
    ensures !v.Str? ==> r == v
    ensures v.Str? ==> r.Str? || r.Url? || r.DateTime?
    ensures v.Str? ==> r == ReviveString(v.s, p)
  {
    if v.Str? then ReviveString(v.s, p) else v
  }

  /** The tree `JSON.parse` returns once the reviver has visited every
      value, children first. Keys are never revived. */
  function Revive(v: Value, p: Parsers): (r: Value)
    ensures v.Arr? <==> r.Arr?
    ensures v.Arr? ==> |r.elems| == |v.elems|
    ensures v.Obj? <==> r.Obj?
    ensures v.Obj? ==> Keys(r.fields) == Keys(v.fields)
    ensures v.Null? <==> r.Null?
    ensures !v.Str? && !v.Arr? && !v.Obj? ==> r == v
    ensures v.Str? ==> r == ReviveString(v.s, p)
    ensures v.Arr? ==> forall i :: 0 <= i < |v.elems| ==> r.elems[i] == Revive(v.elems[i], p)
    ensures v.Obj? ==>
              && |r.fields| == |v.fields|
              && forall i :: 0 <= i < |v.fields| ==> r.fields[i] == Field(v.fields[i].key, Revive(v.fields[i].val, p))
  {
    match v
    case Arr(es) =>
      JsonParser(Arr(seq(|es|, i requires 0 <= i < |es| => Revive(es[i], p))), p)
    case Obj(fs) =>
      var gs := seq(|fs|, i requires 0 <= i < |fs| => Field(fs[i].key, Revive(fs[i].val, p)));
      assert Keys(gs) == Keys(fs);
      JsonParser(Obj(gs), p)
    case _ => JsonParser(v, p)
  }

  /** The URL test decides alone: once it succeeds, the date parser is
      never consulted. */
  lemma UrlBeforeDate(s: string, url: string -> Option<string>, iso1: string -> Option<string>,
                      iso2: string -> Option<string>)
    requires url(s).Some?
    ensures ReviveString(s, Parsers(url, iso1)) == ReviveString(s, Parsers(url, iso2)) == Url(url(s).value)
  {
  }

  // ---------------------------------------------------------------------
  // Revived values sent back through sanitize

  /** What the foreign parsers guarantee: a URL's `href` and a valid
      DateTime's ISO text are never empty, and the empty string is neither a
      URL nor a date. */
  ghost predicate Sound(p: Parsers)
  {
    && p.url("").None?
    && p.iso("").None?
    && (forall s :: p.url(s).Some? ==> p.url(s).value != "")
    && (forall s :: p.iso(s).Some? ==> p.iso(s).value != "")
  }

  /** The text a string leaf ends up as after revival and sanitizing: the
      URL's `href`, else the date's ISO text, else the string itself. */
  function CanonicalText(s: string, p: Parsers): string
  {
    match p.url(s)
    case Some(href) => href
    case None =>
      match p.iso(s)
      case Some(iso) => iso
      case None => s
  }

  /** The tree with every string leaf replaced by its canonical text. */
  function Canonical(v: Value, p: Parsers): Value
  {
    match v
    case Str(s) => Str(CanonicalText(s, p))
    case Arr(es) => Arr(seq(|es|, i requires 0 <= i < |es| => Canonical(es[i], p)))
    case Obj(fs) => Obj(seq(|fs|, i requires 0 <= i < |fs| => Field(fs[i].key, Canonical(fs[i].val, p))))
    case _ => v
  }

  /** A URL or DateTime obtained from a response can be used in a later
      query: on JSON data that `sanitize` leaves alone, sanitizing the
      revived tree gives back the tree with each string in canonical form. */
  lemma {:induction false} SanitizeRevived(v: Value, p: Parsers)
    requires Sound(p)
    requires Clean(v)
    ensures Sanitize(Revive(v, p)) == Ok(Canonical(v, p))
  {
    match v
    case Str(s) =>
    case Arr(es) =>
      var rs := Revive(v, p).elems;
      forall i | 0 <= i < |es|
        ensures Sanitize(rs[i]) == Ok(Canonical(es[i], p))
      {
        SanitizeRevived(es[i], p);
      }
      assert Sanitize(Revive(v, p)).value.elems == Canonical(v, p).elems;
    case Obj(fs) =>
      var gs := Revive(v, p).fields;
      forall i | 0 <= i < |fs|
        ensures gs[i].key == fs[i].key && gs[i].val == Revive(fs[i].val, p)
        ensures Sanitize(gs[i].val) == Ok(Canonical(fs[i].val, p))
      {
        SanitizeRevived(fs[i].val, p);
      }
      RevivedLookup(fs, gs, LuxonTag, p);
      RevivedLookup(fs, gs, HrefKey, p);
      assert !LooksLikeDateTime(gs);
      assert !LooksLikeUrl(gs);
      assert Sanitize(Revive(v, p)).value.fields == Canonical(v, p).fields;
    case _ =>
  }

  /** A revived object looks up each key at the same position as the
      parsed one, holding the revived value. */
  lemma RevivedLookup(fs: seq<Field>, gs: seq<Field>, k: string, p: Parsers)
    requires |gs| == |fs|
    requires forall i :: 0 <= i < |fs| ==> gs[i].key == fs[i].key && gs[i].val == Revive(fs[i].val, p)
    ensures Lookup(gs, k).Some? <==> Lookup(fs, k).Some?
    ensures Lookup(gs, k).Some? ==> Lookup(gs, k).value == Revive(Lookup(fs, k).value, p)
  {
    assert Keys(gs) == Keys(fs);
  }
}
