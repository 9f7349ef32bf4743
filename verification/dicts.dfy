/**
 * A Python `dict` with string keys, kept as its items in insertion order.
 * `Put` is `d[k] = v`: an existing key keeps its position and takes the new
 * value, a new key goes to the end.
 */
module Dicts {
  import opened Text

  function Keys<V>(d: seq<(string, V)>): (ks: seq<string>)
    ensures |ks| == |d|
    ensures forall i :: 0 <= i < |d| ==> ks[i] == d[i].0
  {
    seq(|d|, i requires 0 <= i < |d| => d[i].0)
  }

  ghost predicate DistinctKeys<V>(d: seq<(string, V)>) {
    Distinct(Keys(d))
  }

  /** `d.get(k)`, with None for a missing key. */
  function Find<V>(d: seq<(string, V)>, k: string): Option<V> {
    if d == [] then None
    else if d[0].0 == k then Some(d[0].1)
    else Find(d[1..], k)
  }

  /** `d[k] = v`. */
  function Put<V>(d: seq<(string, V)>, k: string, v: V): seq<(string, V)> {
    if d == [] then [(k, v)]
    else if d[0].0 == k then [(k, v)] + d[1..]
    else [d[0]] + Put(d[1..], k, v)
  }

  lemma {:induction false} FindPresent<V>(d: seq<(string, V)>, k: string)
    ensures Find(d, k).Some? <==> k in Keys(d)
  {
    if d != [] {
      FindPresent(d[1..], k);
      assert Keys(d) == [d[0].0] + Keys(d[1..]);
    }
  }

  lemma {:induction false} FindAt<V>(d: seq<(string, V)>, i: nat)
    requires DistinctKeys(d) && i < |d|
    ensures Find(d, d[i].0) == Some(d[i].1)
  {
    if i > 0 {
      assert d[0].0 == Keys(d)[0] != Keys(d)[i] == d[i].0;
      assert Keys(d[1..]) == Keys(d)[1..];
      FindAt(d[1..], i - 1);
    }
  }

  lemma {:induction false} PutFind<V>(d: seq<(string, V)>, k: string, v: V, q: string)
    ensures Find(Put(d, k, v), q) == if q == k then Some(v) else Find(d, q)
  {
    if d != [] && d[0].0 != k {
      PutFind(d[1..], k, v, q);
    }
  }

  lemma {:induction false} PutKeys<V>(d: seq<(string, V)>, k: string, v: V)
    ensures Keys(Put(d, k, v)) == if k in Keys(d) then Keys(d) else Keys(d) + [k]
  {
    if d != [] {
      assert Keys(d) == [d[0].0] + Keys(d[1..]);
      if d[0].0 != k {
        PutKeys(d[1..], k, v);
        assert Keys(Put(d, k, v)) == [d[0].0] + Keys(Put(d[1..], k, v));
      } else {
        assert Keys(Put(d, k, v)) == [k] + Keys(d[1..]);
      }
    }
  }

  lemma PutDistinct<V>(d: seq<(string, V)>, k: string, v: V)
    requires DistinctKeys(d)
    ensures DistinctKeys(Put(d, k, v))
  {
    PutKeys(d, k, v);
  }

  /** A key that is not yet present is appended. */
  lemma {:induction false} PutAbsent<V>(d: seq<(string, V)>, k: string, v: V)
    requires k !in Keys(d)
    ensures Put(d, k, v) == d + [(k, v)]
  {
    if d != [] {
      assert Keys(d) == [d[0].0] + Keys(d[1..]);
      PutAbsent(d[1..], k, v);
      assert [d[0]] + (d[1..] + [(k, v)]) == d + [(k, v)];
    }
  }

  /** Looking past a prefix that lacks the key. */
  lemma {:induction false} FindSkipsPrefix<V>(d: seq<(string, V)>, e: seq<(string, V)>, k: string)
    requires k !in Keys(d)
    ensures Find(d + e, k) == Find(e, k)
  {
    if d != [] {
      assert Keys(d) == [d[0].0] + Keys(d[1..]);
      assert d[0].0 != k;
      assert (d + e)[0] == d[0] && (d + e)[1..] == d[1..] + e;
      FindSkipsPrefix(d[1..], e, k);
    } else {
      assert d + e == e;
    }
  }

  /** Two new keys put one after the other are appended in that order and read back. */
  lemma PutTwoAbsent<V>(d: seq<(string, V)>, a: string, va: V, b: string, vb: V)
    requires a !in Keys(d) && b !in Keys(d) && a != b
    ensures Put(Put(d, a, va), b, vb) == d + [(a, va), (b, vb)]
    ensures Find(d + [(a, va), (b, vb)], a) == Some(va)
    ensures Find(d + [(a, va), (b, vb)], b) == Some(vb)
  {
    PutAbsent(d, a, va);
    PutKeys(d, a, va);
    PutAbsent(d + [(a, va)], b, vb);
    assert d + [(a, va)] + [(b, vb)] == d + [(a, va), (b, vb)];
    FindSkipsPrefix(d, [(a, va), (b, vb)], a);
    FindSkipsPrefix(d, [(a, va), (b, vb)], b);
  }
}
