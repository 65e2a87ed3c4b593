/** Sequence helpers shared by the model. */
module Seqs {

  /** Position of the first occurrence of `k` in `ks`, or -1. */
  function IndexIn<T(==)>(ks: seq<T>, k: T): (r: int)
    ensures -1 <= r < |ks|
    ensures r < 0 <==> k !in ks
    ensures r >= 0 ==> ks[r] == k && forall j :: 0 <= j < r ==> ks[j] != k
  {
    if |ks| == 0 then -1
    else if ks[0] == k then 0
    else
      var r := IndexIn(ks[1..], k);
      if r < 0 then -1 else r + 1
  }

  lemma IndexInAppend<T>(ks: seq<T>, k: T, k': T)
    requires k' != k
    ensures IndexIn(ks + [k], k') == IndexIn(ks, k')
  {
    if |ks| > 0 {
      assert (ks + [k])[1..] == ks[1..] + [k];
      IndexInAppend(ks[1..], k, k');
    }
  }

  function Flatten<T>(ss: seq<seq<T>>): (r: seq<T>)
  {
    if |ss| == 0 then [] else ss[0] + Flatten(ss[1..])
  }

  function MapSeq<A, B>(s: seq<A>, f: A -> B): (r: seq<B>)
    ensures |r| == |s|
    ensures forall i :: 0 <= i < |s| ==> r[i] == f(s[i])
  {
    seq(|s|, i requires 0 <= i < |s| => f(s[i]))
  }

  lemma MapSeqAppend<A, B>(a: seq<A>, b: seq<A>, f: A -> B)
    ensures MapSeq(a + b, f) == MapSeq(a, f) + MapSeq(b, f)
  {
  }

  /** Mapping commutes with flattening. */
  lemma {:induction false} FlattenMap<A, B>(ss: seq<seq<A>>, f: A -> B)
    ensures MapSeq(Flatten(ss), f) == Flatten(MapSeq(ss, (s: seq<A>) => MapSeq(s, f)))
  {
    if |ss| > 0 {
      var g := (s: seq<A>) => MapSeq(s, f);
      FlattenMap(ss[1..], f);
      assert MapSeq(ss, g)[1..] == MapSeq(ss[1..], g);
      MapSeqAppend(ss[0], Flatten(ss[1..]), f);
    }
  }

  /** The number of occurrences of `c` in `s`. */
  function Count<T(==)>(s: seq<T>, c: T): nat
  {
    if |s| == 0 then 0 else Count(s[..|s| - 1], c) + (if s[|s| - 1] == c then 1 else 0)
  }

  lemma {:induction false} CountAppend<T>(a: seq<T>, b: seq<T>, c: T)
    ensures Count(a + b, c) == Count(a, c) + Count(b, c)
    decreases |b|
  {
    if |b| > 0 {
      assert (a + b)[..|a + b| - 1] == a + b[..|b| - 1];
      CountAppend(a, b[..|b| - 1], c);
    } else {
      assert a + b == a;
    }
  }

  lemma {:induction false} CountAbsent<T>(s: seq<T>, c: T)
    requires c !in s
    ensures Count(s, c) == 0
    decreases |s|
  {
    if |s| > 0 {
      CountAbsent(s[..|s| - 1], c);
    }
  }
}
