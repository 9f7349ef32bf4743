/**
 * The duplicate index (`build_duplicate_index` in app/crawler/validator.py):
 * one pass over all rows maps each key tuple to how many rows carry it and
 * the 1-based position of the first of them.
 *
 * The counting itself only compares keys, so it is stated over the
 * sequence of the rows' keys, whatever their type.
 */
module DuplicateIndex {
  import opened Text
  import opened Values

  /** The tuple of a row's values in the unique-constraint columns. */
  type Key = seq<Value>

  /** `(count, first_row_index)`. */
  datatype Entry = Entry(count: nat, first: nat)

  /** `tuple(row.get(col) for col in cols)`: a missing column reads as None. */
  function KeyOf(row: Row, cols: seq<string>): (k: Key)
    ensures |k| == |cols|
    ensures forall i :: 0 <= i < |cols| ==> k[i] == RowGet(row, cols[i])
  {
    seq(|cols|, i requires 0 <= i < |cols| => RowGet(row, cols[i]))
  }

  /** The key of every row, in row order. */
  function KeysOf(records: seq<Row>, cols: seq<string>): (ks: seq<Key>)
    ensures |ks| == |records|
    ensures forall i :: 0 <= i < |records| ==> ks[i] == KeyOf(records[i], cols)
  {
    seq(|records|, i requires 0 <= i < |records| => KeyOf(records[i], cols))
  }

  /** The number of positions of `ks` holding `k`. */
  function Occurrences<K(==)>(ks: seq<K>, k: K): nat
    decreases |ks|
  {
    if ks == [] then 0
    else Occurrences(ks[..|ks| - 1], k) + (if ks[|ks| - 1] == k then 1 else 0)
  }

  /** The 1-based position of the first `k` in `ks`, or |ks| + 1 when there is none. */
  function FirstPosition<K(==)>(ks: seq<K>, k: K): nat
    decreases |ks|
  {
    if ks == [] then 1
    else
      var init := ks[..|ks| - 1];
      var p := FirstPosition(init, k);
      if p <= |init| then p
      else if ks[|ks| - 1] == k then |ks|
      else |ks| + 1
  }

  /** What the index holds: empty without constraints, otherwise count and first position of every key that occurs. */
  ghost function IndexSpec(records: seq<Row>, cols: seq<string>): map<Key, Entry> {
    if cols == [] then map[]
    else
      var ks := KeysOf(records, cols);
      map k | k in ks :: Entry(Occurrences(ks, k), FirstPosition(ks, k))
  }

  /** With constraints every row's key is in the index; every entry counts at least one row and points at a row. */
  lemma IndexSpecEntries(records: seq<Row>, cols: seq<string>)
    ensures cols != [] ==> forall i :: 0 <= i < |records| ==> KeyOf(records[i], cols) in IndexSpec(records, cols)
    ensures forall k :: k in IndexSpec(records, cols) ==>
      IndexSpec(records, cols)[k].count >= 1 && 1 <= IndexSpec(records, cols)[k].first <= |records|
  {
    if cols != [] {
      var ks := KeysOf(records, cols);
      EveryKeyCounted(ks);
      forall i | 0 <= i < |records| ensures KeyOf(records[i], cols) in IndexSpec(records, cols) {
        assert ks[i] in ks;
      }
    }
  }

  lemma EveryKeyCounted<K>(ks: seq<K>)
    ensures forall k :: k in ks ==> Occurrences(ks, k) >= 1 && 1 <= FirstPosition(ks, k) <= |ks|
  {
    forall k | k in ks ensures Occurrences(ks, k) >= 1 && 1 <= FirstPosition(ks, k) <= |ks| {
      OccurrencesAndFirst(ks, k);
    }
  }

  /** A key occurs iff its count is positive; then its first position is the smallest position holding it. */
  lemma {:induction false} OccurrencesAndFirst<K>(ks: seq<K>, k: K)
    ensures Occurrences(ks, k) > 0 <==> k in ks
    ensures k in ks ==>
      var p := FirstPosition(ks, k);
      1 <= p <= |ks| && ks[p - 1] == k && forall j :: 0 <= j < p - 1 ==> ks[j] != k
    ensures k !in ks ==> FirstPosition(ks, k) == |ks| + 1
    decreases |ks|
  {
    if ks != [] {
      var n := |ks| - 1;
      var init := ks[..n];
      OccurrencesAndFirst(init, k);
      assert ks == init + [ks[n]];
      assert forall j :: 0 <= j < n ==> init[j] == ks[j];
    }
  }

  /** Two positions holding the same key make its count at least two. */
  lemma {:induction false} OccurrencesTwo<K>(ks: seq<K>, k: K, i: nat, j: nat)
    requires i < j < |ks| && ks[i] == k && ks[j] == k
    ensures Occurrences(ks, k) >= 2
    decreases |ks|
  {
    var n := |ks| - 1;
    var init := ks[..n];
    assert init[i] == ks[i];
    if j < n {
      assert init[j] == ks[j];
      OccurrencesTwo(init, k, i, j);
    } else {
      OccurrencesAndFirst(init, k);
    }
  }

  /** The loop invariant of `build_duplicate_index` after `n` rows. */
  ghost predicate Counted<K>(ks: seq<K>, n: nat, counts: map<K, nat>, firstSeen: map<K, nat>)
    requires n <= |ks|
  {
    && counts.Keys == firstSeen.Keys == (set k | k in ks[..n])
    && forall k :: k in counts ==>
         counts[k] == Occurrences(ks[..n], k) && firstSeen[k] == FirstPosition(ks[..n], k)
  }

  lemma OneMoreRow<K>(ks: seq<K>, n: nat, k: K)
    requires n < |ks|
    ensures Occurrences(ks[..n + 1], k) == Occurrences(ks[..n], k) + (if ks[n] == k then 1 else 0)
    ensures FirstPosition(ks[..n + 1], k)
         == if k in ks[..n] then FirstPosition(ks[..n], k)
            else if ks[n] == k then n + 1
            else n + 2
  {
    var before := ks[..n];
    var after := ks[..n + 1];
    assert after[..n] == before && after[n] == ks[n];
    OccurrencesAndFirst(before, k);
  }

  lemma CountOneMore<K>(ks: seq<K>, n: nat, counts: map<K, nat>, firstSeen: map<K, nat>)
    requires n < |ks| && Counted(ks, n, counts, firstSeen)
    ensures var key := ks[n];
      Counted(ks, n + 1,
        counts[key := (if key in counts then counts[key] else 0) + 1],
        if key in firstSeen then firstSeen else firstSeen[key := n + 1])
  {
    var key := ks[n];
    var counts' := counts[key := (if key in counts then counts[key] else 0) + 1];
    var firstSeen' := if key in firstSeen then firstSeen else firstSeen[key := n + 1];
    assert ks[..n + 1] == ks[..n] + [key];
    forall k | k in counts'
      ensures counts'[k] == Occurrences(ks[..n + 1], k)
      ensures firstSeen'[k] == FirstPosition(ks[..n + 1], k)
    {
      OneMoreRow(ks, n, k);
      OccurrencesAndFirst(ks[..n], k);
    }
  }

  /** `build_duplicate_index`: the counting loop over all rows. */
  method BuildDuplicateIndex(records: seq<Row>, cols: seq<string>) returns (index: map<Key, Entry>)
    ensures index == IndexSpec(records, cols)
  {
    if cols == [] {
      return map[];
    }
    ghost var ks := KeysOf(records, cols);
    var counts: map<Key, nat> := map[];
    var firstSeen: map<Key, nat> := map[];
    var idx := 0;
    while idx < |records|
      invariant idx <= |records|
      invariant Counted(ks, idx, counts, firstSeen)
    {
      var key := KeyOf(records[idx], cols);
      CountOneMore(ks, idx, counts, firstSeen);
      counts := counts[key := (if key in counts then counts[key] else 0) + 1];
      if key !in firstSeen {
        firstSeen := firstSeen[key := idx + 1];
      }
      idx := idx + 1;
    }
    assert ks[..idx] == ks;
    index := map k | k in counts :: Entry(counts[k], firstSeen[k]);
  }

  // ---------- counts sum to the number of rows ----------

  /** Keys in first-seen order: the iteration order of the source's `counts` dict. */
  function FirstSeenOrder<K(==)>(ks: seq<K>): seq<K>
    decreases |ks|
  {
    if ks == [] then []
    else
      var order := FirstSeenOrder(ks[..|ks| - 1]);
      var k := ks[|ks| - 1];
      if k in order then order else order + [k]
  }

  function SumCounts<K(==)>(keys: seq<K>, ks: seq<K>): nat
    decreases |keys|
  {
    if keys == [] then 0
    else SumCounts(keys[..|keys| - 1], ks) + Occurrences(ks, keys[|keys| - 1])
  }

  lemma {:induction false} SumCountsStep<K>(keys: seq<K>, ks: seq<K>, k: K)
    requires Distinct(keys)
    ensures SumCounts(keys, ks + [k]) == SumCounts(keys, ks) + (if k in keys then 1 else 0)
    decreases |keys|
  {
    var all := ks + [k];
    assert all[..|all| - 1] == ks;
    if keys != [] {
      var init := keys[..|keys| - 1];
      assert forall i :: 0 <= i < |init| ==> init[i] == keys[i];
      SumCountsStep(init, ks, k);
      assert keys == init + [keys[|keys| - 1]];
    }
  }

  /**
   * The first-seen order lists every occurring key once, and the counts of
   * those keys add up to the number of rows.
   */
  lemma {:induction false} CountsSumToLength<K>(ks: seq<K>)
    ensures Distinct(FirstSeenOrder(ks))
    ensures forall k :: k in FirstSeenOrder(ks) <==> k in ks
    ensures SumCounts(FirstSeenOrder(ks), ks) == |ks|
    decreases |ks|
  {
    if ks != [] {
      var n := |ks| - 1;
      var init := ks[..n];
      var k := ks[n];
      CountsSumToLength(init);
      assert init + [k] == ks;
      var order := FirstSeenOrder(init);
      SumCountsStep(order, init, k);
      if k !in order {
        OccurrencesAndFirst(init, k);
        var order' := order + [k];
        assert order'[..|order'| - 1] == order;
      }
    }
  }

  /** Without unique constraints the index is empty. */
  lemma NoConstraintsNoIndex(records: seq<Row>)
    ensures IndexSpec(records, []) == map[]
  {
  }
}
