/**
 * The list shapes the pipeline in app/crawler/validation_pipeline.py works
 * with: `range(0, n, step)`, fixed-size slices tagged with their start,
 * concatenation, and `sorted(results, key=lambda x: x[0])`.
 */
module Chunking {
  import opened Text

  /** `range(i, stop, step)` for a positive step: from i, one step apart, the last one step or less short of stop. */
  function Range(i: nat, stop: nat, step: nat): (r: seq<nat>)
    requires step > 0
    ensures r != [] <==> i < stop
    ensures r != [] ==> r[0] == i && r[|r| - 1] < stop <= r[|r| - 1] + step
    ensures forall j :: 0 <= j < |r| ==> i <= r[j] < stop
    ensures forall i, j :: 0 <= i && j == i + 1 && j < |r| ==> r[j] == r[i] + step
    decreases stop - i
  {
    if i >= stop then [] else [i] + Range(i + step, stop, step)
  }

  /** Element j of the range is i + j * step. */
  lemma {:induction false} RangeAt(i: nat, stop: nat, step: nat, j: nat)
    requires step > 0 && j < |Range(i, stop, step)|
    ensures Range(i, stop, step)[j] == i + j * step
  {
    if j > 0 {
      RangeAt(i, stop, step, j - 1);
      assert (j - 1) * step + step == j * step;
    }
  }

  /** `[(i, s[i:i+step]) for i in range(0, len(s), step)]`: slices tagged with their start. */
  function Pieces<T>(s: seq<T>, step: nat): (r: seq<(nat, seq<T>)>)
    requires step > 0
  {
    var starts := Range(0, |s|, step);
    seq(|starts|, j requires 0 <= j < |starts| => (starts[j], s[starts[j]..Min(starts[j] + step, |s|)]))
  }

  /** The concatenation of a list of lists, as repeated `extend`. */
  function Concat<T>(parts: seq<seq<T>>): seq<T>
    decreases |parts|
  {
    if parts == [] then [] else Concat(parts[..|parts| - 1]) + parts[|parts| - 1]
  }

  /** Piece j starts at j * step and holds the next `step` elements, fewer only at the end; none is empty. */
  lemma PieceAt<T>(s: seq<T>, step: nat, j: nat)
    requires step > 0 && j < |Pieces(s, step)|
    ensures Pieces(s, step)[j].0 == j * step
    ensures var a := Pieces(s, step)[j].0;
      a < |s| && Pieces(s, step)[j].1 == s[a..Min(a + step, |s|)] && 0 < |Pieces(s, step)[j].1| <= step
  {
    var starts := Range(0, |s|, step);
    assert starts[j] == j * step by {
      RangeAt(0, |s|, step, j);
    }
  }

  /** There are just enough pieces to reach the end, and none for an empty sequence. */
  lemma PiecesCount<T>(s: seq<T>, step: nat)
    requires step > 0
    ensures |Pieces(s, step)| * step >= |s|
    ensures |Pieces(s, step)| > 0 ==> (|Pieces(s, step)| - 1) * step < |s|
    ensures s == [] <==> Pieces(s, step) == []
  {
    var n := |Pieces(s, step)|;
    if n > 0 {
      PieceAt(s, step, n - 1);
    }
  }

  /** Each piece is the non-empty slice of at most `step` elements at its start. */
  lemma PieceSlices<T>(s: seq<T>, step: nat)
    requires step > 0
    ensures var p := Pieces(s, step);
      forall j :: 0 <= j < |p| ==> 0 < |p[j].1| <= step && p[j].0 + |p[j].1| <= |s| && p[j].1 == s[p[j].0..p[j].0 + |p[j].1|]
  {
  }

  /** The first piece starts at 0 and the last ends at the end; there are none only for an empty sequence. */
  lemma PiecesFirstLast<T>(s: seq<T>, step: nat)
    requires step > 0
    ensures var p := Pieces(s, step);
      && (p != [] <==> s != [])
      && (p != [] ==> p[0].0 == 0 && p[|p| - 1].0 + |p[|p| - 1].1| == |s|)
  {
  }

  /** Each piece starts where the one before ends. */
  lemma PiecesLinked<T>(s: seq<T>, step: nat)
    requires step > 0
    ensures var p := Pieces(s, step);
      forall i, j :: 0 <= i && j == i + 1 && j < |p| ==> p[j].0 == p[i].0 + |p[i].1|
  {
    var p := Pieces(s, step);
    var starts := Range(0, |s|, step);
    forall i, j | 0 <= i && j == i + 1 && j < |p| ensures p[j].0 == p[i].0 + |p[i].1| {
      assert starts[j] == starts[i] + step < |s|;
    }
  }

  /** Where each piece ends: `i + len(chunk)` for every `(i, chunk)`. */
  function Ends<T>(p: seq<(nat, seq<T>)>): (r: seq<nat>)
    ensures |r| == |p|
  {
    seq(|p|, j requires 0 <= j < |p| => p[j].0 + |p[j].1|)
  }

  lemma EndsPrefix<T>(p: seq<(nat, seq<T>)>, m: nat)
    requires m < |p|
    ensures Ends(p)[..m + 1] == Ends(p)[..m] + [p[m].0 + |p[m].1|]
  {
    var ends := Ends(p);
    assert ends[..m + 1] == ends[..m] + [ends[m]];
  }

  /**
   * The ends of the pieces go up by at most `step` at a time, from at most
   * `step` to the length of the sequence.
   */
  lemma PieceEnds<T>(s: seq<T>, step: nat)
    requires step > 0
    ensures var e := Ends(Pieces(s, step));
      && (e == [] <==> s == [])
      && (e != [] ==> 0 < e[0] <= step && e[|e| - 1] == |s|)
      && (forall i, j :: 0 <= i < j < |e| ==> e[i] < e[j])
      && (forall i, j :: 0 <= i && j == i + 1 && j < |e| ==> e[i] < e[j] <= e[i] + step)
  {
    PieceSlices(s, step);
    PiecesFirstLast(s, step);
    PiecesLinked(s, step);
    StrictlyUpByLink(Ends(Pieces(s, step)));
  }

  /** A sequence where each element is above the one before is strictly increasing. */
  lemma {:induction false} StrictlyUpByLink(e: seq<nat>)
    requires forall i, j :: 0 <= i && j == i + 1 && j < |e| ==> e[i] < e[j]
    ensures forall i, j :: 0 <= i < j < |e| ==> e[i] < e[j]
    decreases |e|
  {
    if |e| > 1 {
      var n := |e| - 1;
      StrictlyUpByLink(e[..n]);
      assert forall i :: 0 <= i < n ==> e[..n][i] == e[i];
      assert forall i :: 0 <= i < n ==> e[i] < e[n] by {
        forall i | 0 <= i < n ensures e[i] < e[n] {
          assert e[n - 1] < e[n];
          if i < n - 1 {
            assert e[i] < e[n - 1];
          }
        }
      }
    }
  }

  /** End j is `min((j + 1) * step, len(s))`. */
  lemma PieceEndAt<T>(s: seq<T>, step: nat, j: nat)
    requires step > 0 && j < |Pieces(s, step)|
    ensures Ends(Pieces(s, step))[j] == Min((j + 1) * step, |s|)
  {
    PieceAt(s, step, j);
    assert (j + 1) * step == j * step + step;
  }

  function Bodies<T>(ps: seq<(nat, seq<T>)>): (r: seq<seq<T>>)
    ensures |r| == |ps|
  {
    seq(|ps|, j requires 0 <= j < |ps| => ps[j].1)
  }

  /** Slices of s laid end to end from 0: the first j of them concatenate to s up to where slice j - 1 ends. */
  lemma {:induction false} ConcatLinked<T>(s: seq<T>, p: seq<(nat, seq<T>)>, j: nat)
    requires j <= |p|
    requires forall k :: 0 <= k < |p| ==> p[k].0 + |p[k].1| <= |s| && p[k].1 == s[p[k].0..p[k].0 + |p[k].1|]
    requires p != [] ==> p[0].0 == 0
    requires forall i, k :: 0 <= i && k == i + 1 && k < |p| ==> p[k].0 == p[i].0 + |p[i].1|
    ensures Concat(Bodies(p)[..j]) == s[..if j == 0 then 0 else Ends(p)[j - 1]]
  {
    if j > 0 {
      ConcatLinked(s, p, j - 1);
      var bodies := Bodies(p);
      var b := p[j - 1].0;
      var e := b + |p[j - 1].1|;
      if j > 1 {
        assert p[j - 1].0 == p[j - 2].0 + |p[j - 2].1|;
      }
      assert bodies[..j][..j - 1] == bodies[..j - 1];
      assert s[..b] + s[b..e] == s[..e];
    }
  }

  /** The first j pieces concatenate to the elements up to where piece j - 1 ends. */
  lemma ConcatPieces<T>(s: seq<T>, step: nat, j: nat)
    requires step > 0 && j <= |Pieces(s, step)|
    ensures Concat(Bodies(Pieces(s, step))[..j]) == s[..if j == 0 then 0 else Ends(Pieces(s, step))[j - 1]]
  {
    PieceSlices(s, step);
    PiecesFirstLast(s, step);
    PiecesLinked(s, step);
    ConcatLinked(s, Pieces(s, step), j);
  }

  /** All pieces together give the sequence back. */
  lemma PiecesCover<T>(s: seq<T>, step: nat)
    requires step > 0
    ensures Concat(Bodies(Pieces(s, step))) == s
  {
    var bodies := Bodies(Pieces(s, step));
    ConcatPieces(s, step, |bodies|);
    PiecesFirstLast(s, step);
    assert bodies[..|bodies|] == bodies;
  }

  // ---------- sorting by start ----------

  predicate SortedByStart<U>(s: seq<(nat, U)>) {
    forall i, j :: 0 <= i < j < |s| ==> s[i].0 <= s[j].0
  }

  predicate StrictlyByStart<U>(s: seq<(nat, U)>) {
    forall i, j :: 0 <= i < j < |s| ==> s[i].0 < s[j].0
  }

  lemma StrictlySlice<U>(s: seq<(nat, U)>, a: nat, b: nat)
    requires StrictlyByStart(s) && a <= b <= |s|
    ensures StrictlyByStart(s[a..b])
  {
    var t := s[a..b];
    forall i, j | 0 <= i < j < |t| ensures t[i].0 < t[j].0 {
      assert t[i] == s[a + i] && t[j] == s[a + j];
    }
  }

  /** Places x before the first element whose start is not smaller. */
  function InsertByStart<U>(x: (nat, U), s: seq<(nat, U)>): (r: seq<(nat, U)>)
    ensures multiset(r) == multiset(s) + multiset{x}
    ensures |r| == |s| + 1 && (r[0] == x || (s != [] && r[0] == s[0]))
    decreases |s|
  {
    if s == [] then [x]
    else if x.0 <= s[0].0 then [x] + s
    else
      var rest := InsertByStart(x, s[1..]);
      assert s == [s[0]] + s[1..];
      assert multiset([s[0]] + rest) == multiset{s[0]} + multiset(rest);
      [s[0]] + rest
  }

  /** Inserting into a sorted sequence keeps it sorted. */
  lemma {:induction false} InsertKeepsSorted<U>(x: (nat, U), s: seq<(nat, U)>)
    requires SortedByStart(s)
    ensures SortedByStart(InsertByStart(x, s))
    decreases |s|
  {
    if s != [] && x.0 > s[0].0 {
      var rest := InsertByStart(x, s[1..]);
      InsertKeepsSorted(x, s[1..]);
      assert forall k :: 0 <= k < |rest| ==> s[0].0 <= rest[0].0 <= rest[k].0;
    }
  }

  /** `sorted(s, key=lambda x: x[0])`: a stable insertion sort on the start. */
  function SortByStart<U>(s: seq<(nat, U)>): (r: seq<(nat, U)>)
    ensures multiset(r) == multiset(s)
    ensures SortedByStart(r)
    decreases |s|
  {
    if s == [] then []
    else
      assert s == [s[0]] + s[1..];
      InsertKeepsSorted(s[0], SortByStart(s[1..]));
      InsertByStart(s[0], SortByStart(s[1..]))
  }

  lemma FirstOfRearrangement<U>(r: seq<(nat, U)>, e: seq<(nat, U)>)
    requires SortedByStart(r) && StrictlyByStart(e) && multiset(r) == multiset(e) && r != []
    ensures e != [] && r[0] == e[0]
  {
    assert r[0] in multiset(e);
    var i :| 0 <= i < |e| && e[i] == r[0];
    assert e[0] in multiset(r);
    var k :| 0 <= k < |r| && r[k] == e[0];
    assert e[i].0 == r[0].0 <= r[k].0 == e[0].0;
  }

  lemma RestOfRearrangement<U>(r: seq<(nat, U)>, e: seq<(nat, U)>)
    requires SortedByStart(r) && StrictlyByStart(e) && multiset(r) == multiset(e) && r != [] && e != [] && r[0] == e[0]
    ensures SortedByStart(r[1..]) && StrictlyByStart(e[1..]) && multiset(r[1..]) == multiset(e[1..])
  {
    assert r == [r[0]] + r[1..] && e == [e[0]] + e[1..];
    assert multiset(r[1..]) == multiset(r) - multiset{r[0]};
    assert multiset(e[1..]) == multiset(e) - multiset{e[0]};
  }

  /** A sorted rearrangement of a sequence with strictly increasing starts is that sequence. */
  lemma {:induction false} SortedRearrangementIsUnique<U>(r: seq<(nat, U)>, e: seq<(nat, U)>)
    requires SortedByStart(r) && StrictlyByStart(e) && multiset(r) == multiset(e)
    ensures r == e
    decreases |r|
  {
    if r == [] {
      assert |multiset(e)| == 0;
    } else {
      FirstOfRearrangement(r, e);
      RestOfRearrangement(r, e);
      SortedRearrangementIsUnique(r[1..], e[1..]);
      assert r == [r[0]] + r[1..] && e == [e[0]] + e[1..];
    }
  }

  // ---------- arrival order ----------

  function MapSeq<T, U>(f: T -> U, s: seq<T>): (r: seq<U>)
    ensures |r| == |s|
  {
    seq(|s|, i requires 0 <= i < |s| => f(s[i]))
  }

  lemma MapSeqAppend<T, U>(f: T -> U, a: seq<T>, b: seq<T>)
    ensures MapSeq(f, a + b) == MapSeq(f, a) + MapSeq(f, b)
  {
  }

  /** Applying the same function to two rearrangements of a sequence gives two rearrangements. */
  lemma {:induction false} MapRearrangement<T, U>(f: T -> U, a: seq<T>, b: seq<T>)
    requires multiset(a) == multiset(b)
    ensures multiset(MapSeq(f, a)) == multiset(MapSeq(f, b))
    decreases |a|
  {
    assert |a| == |multiset(a)| == |multiset(b)| == |b|;
    if a != [] {
      var n := |a| - 1;
      var x := a[n];
      assert x in multiset(b);
      var i :| 0 <= i < |b| && b[i] == x;
      var rest := b[..i] + b[i + 1..];
      assert b == b[..i] + [x] + b[i + 1..];
      assert a == a[..n] + [x];
      assert multiset(a[..n]) == multiset(a) - multiset{x};
      assert multiset(rest) == multiset(b) - multiset{x};
      MapRearrangement(f, a[..n], rest);
      MapSeqAppend(f, a[..n], [x]);
      MapSeqAppend(f, b[..i] + [x], b[i + 1..]);
      MapSeqAppend(f, b[..i], [x]);
      MapSeqAppend(f, b[..i], b[i + 1..]);
    }
  }
}
