/**
 The JavaScript values the client library handles, as an algebraic datatype.

 A `Value` is what `JSON.parse` produces (null, booleans, numbers, strings,
 arrays, plain objects) plus the two host objects the library creates or
 receives: a Luxon `DateTime` and a WHATWG `URL`. Plain objects are kept as
 ordered entry lists, because both `qs` and lodash's `mapKeys` depend on the
 order in which an object enumerates its keys. The model enumerates keys in
 insertion order; JavaScript does so only for keys that are not integer-like,
 and lists integer-like keys such as "2020" first, in ascending order.
 */
module Js {
  import opened Seqs

  datatype Option<+T> = None | Some(value: T)

  newtype byte = x: int | 0 <= x < 256

  datatype Value =
    | Null
    | Bool(b: bool)
    | Num(n: int)
    | Str(s: string)
    | Arr(elems: seq<Value>)
    | Obj(fields: seq<Field>)
    /** A Luxon DateTime; `iso` is what its `toISO()` returns, which is
        `null` for an invalid one. */
    | DateTime(iso: Option<string>)
    /** A WHATWG URL; `href` is its serialisation. */
    | Url(href: string)

  /** One own enumerable property of a plain object. */
  datatype Field = Field(key: string, val: Value)

  /** The failures the library surfaces to its callers. */
  datatype Error =
    /** A TypeError raised by the JavaScript runtime itself. */
    | TypeError
    /** `new Error(error.response.body)` after a failed request. */
    | TransportError(message: string)
    /** `JSON.parse` rejected the response body. */
    | SyntaxError
    /** zlib could not inflate the response body. */
    | DecompressionError
    /** `APIError`: the parsed error envelope and its message. */
    | ApiError(response: Value, message: string)

  datatype Result<+T> = Ok(value: T) | Err(error: Error)

  /** JavaScript truthiness (`if (v)`). Every object, even an empty one, is truthy. */
  predicate Truthy(v: Value)
  {
    match v
    case Null => false
    case Bool(b) => b
    case Num(n) => n != 0
    case Str(s) => s != ""
    case _ => true
  }

  /** True when `v` is a scalar: `typeof v !== 'object'` or `v === null`. */
  predicate IsScalar(v: Value)
  {
    v.Null? || v.Bool? || v.Num? || v.Str?
  }

  /** The keys of an object, in enumeration order. */
  function Keys(fs: seq<Field>): (ks: seq<string>)
    ensures |ks| == |fs|
    ensures forall i :: 0 <= i < |fs| ==> ks[i] == fs[i].key
  {
    seq(|fs|, i requires 0 <= i < |fs| => fs[i].key)
  }

  /** Property access `o[k]` on a plain object: the first entry with key `k`. */
  function Lookup(fs: seq<Field>, k: string): (r: Option<Value>)
    ensures r.Some? <==> k in Keys(fs)
    ensures r.Some? ==> exists i :: 0 <= i < |fs| && fs[i] == Field(k, r.value)
  {
    var i := IndexIn(Keys(fs), k);
    if i < 0 then None else Some(fs[i].val)
  }

  /** Property access `v.k` on any value. Only plain objects have own
      properties that matter here: arrays, strings, dates and URLs have no
      `errors`, `filter`, `href` or `isLuxonDateTime` data property. */
  function Property(v: Value, k: string): Option<Value>
  {
    if v.Obj? then Lookup(v.fields, k) else None
  }

  /** Property assignment `o[k] = v`: overwrite in place when the key is
      already present, otherwise append a new entry at the end. */
  function Assign(fs: seq<Field>, k: string, v: Value): (r: seq<Field>)
    ensures Keys(r) == if k in Keys(fs) then Keys(fs) else Keys(fs) + [k]
    ensures Lookup(r, k) == Some(v)
    ensures forall k' :: k' != k ==> Lookup(r, k') == Lookup(fs, k')
    ensures k !in Keys(fs) ==> r == fs + [Field(k, v)]
    ensures k in Keys(fs) ==> |r| == |fs| && forall j :: 0 <= j < |fs| && fs[j].key != k ==> r[j] == fs[j]
  {
    var i := IndexIn(Keys(fs), k);
    if i < 0 then
      var r := fs + [Field(k, v)];
      assert Keys(r) == Keys(fs) + [k];
      forall k' | k' != k
        ensures Lookup(r, k') == Lookup(fs, k')
      {
        IndexInAppend(Keys(fs), k, k');
      }
      r
    else
      var r := fs[i := Field(k, v)];
      assert Keys(r) == Keys(fs);
      r
  }

  /** No key occurs twice: true of every object JavaScript can build. */
  predicate DistinctKeys(fs: seq<Field>)
  {
    forall i, j :: 0 <= i < j < |fs| ==> fs[i].key != fs[j].key
  }

  // ---------------------------------------------------------------------
  // Decimal rendering of integers: `String(n)` and `${n}` for an integer n.

  function DigitChar(d: int): char
    requires 0 <= d < 10
  {
    "0123456789"[d]
  }

  function DigitValue(c: char): int
  {
    if '0' <= c <= '9' then c as int - '0' as int else 0
  }

  function NatText(n: nat): (s: string)
    ensures |s| > 0
    ensures forall i :: 0 <= i < |s| ==> '0' <= s[i] <= '9'
    ensures |s| > 1 ==> s[0] != '0'
    decreases n
  {
    if n < 10 then [DigitChar(n)] else NatText(n / 10) + [DigitChar(n % 10)]
  }

  /** `String(n)` for an integer `n`. */
  function DecimalText(n: int): (s: string)
    ensures |s| > 0
    ensures forall i :: 0 <= i < |s| ==> s[i] == '-' || '0' <= s[i] <= '9'
    ensures (n < 0) <==> s[0] == '-'
  {
    if n < 0 then "-" + NatText(-n) else NatText(n)
  }

  /** Reads a string of decimal digits back as a number. */
  function ParseNat(s: string): nat
  {
    if |s| == 0 then 0 else ParseNat(s[..|s| - 1]) * 10 + DigitValue(s[|s| - 1]) as nat
  }

  function ParseDecimal(s: string): int
  {
    if |s| > 0 && s[0] == '-' then 0 - ParseNat(s[1..]) else ParseNat(s)
  }

  lemma {:induction false} ParseNatText(n: nat)
    ensures ParseNat(NatText(n)) == n
    decreases n
  {
    if n >= 10 {
      var s := NatText(n);
      assert s[..|s| - 1] == NatText(n / 10);
      ParseNatText(n / 10);
    }
  }

  /** Decimal rendering loses nothing: the number can be read back. */
  lemma {:induction false} DecimalRoundTrip(n: int)
    ensures ParseDecimal(DecimalText(n)) == n
  {
    if n < 0 {
      assert DecimalText(n)[1..] == NatText(-n);
      ParseNatText(-n);
    } else {
      ParseNatText(n);
    }
  }
}
