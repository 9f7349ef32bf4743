/**
 * Step 4 of `run_excel_validation_pipeline` (app/crawler/validation_pipeline.py):
 * the records are cut into chunks of CHUNK_SIZE rows, the chunks are
 * validated WORKERS at a time by tasks that append `(start, result)` to a
 * shared list in whatever order they finish, and each batch is merged
 * back after sorting that list by start. The order in which the tasks
 * finish is chosen freely here; every property holds for every order.
 */
module ChunkedValidation {
  import opened Text
  import opened Values
  import opened Validator
  import opened Chunking

  const CHUNK_SIZE: nat := 5000
  const WORKERS: nat := 4

  /** The triple `validate_chunk` returns: the validated rows, the successes and the failures. */
  datatype ChunkResult = ChunkResult(rows: seq<Row>, success: nat, failure: nat)

  type Chunk = (nat, seq<Row>)

  /**
   * Row i of `rows` passed through `f` with index `startIndex + i`. The
   * merge below is proved for any row function `f`; `RowValidator` is the
   * one the pipeline uses.
   */
  function Numbered(f: (Row, nat) -> Row, rows: seq<Row>, startIndex: nat): (r: seq<Row>)
    ensures |r| == |rows|
  {
    seq(|rows|, i requires 0 <= i < |rows| => f(rows[i], startIndex + i))
  }

  /** `_validate_row` with the prepared rules and the duplicate index. */
  function RowValidator(ctx: Context, py: Python): (Row, nat) -> Row {
    (row: Row, rowIndex: nat) => ValidatedRow(row, rowIndex, ctx, py)
  }

  lemma ValidatedSeqNumbered(rows: seq<Row>, startIndex: nat, ctx: Context, py: Python)
    ensures ValidatedSeq(rows, startIndex, ctx, py) == Numbered(RowValidator(ctx, py), rows, startIndex)
  {
  }

  /** What `validate_chunk` computes for a slice whose first row has index `startIndex`. */
  function ChunkSpec(f: (Row, nat) -> Row, rows: seq<Row>, startIndex: nat): (r: ChunkResult)
    ensures |r.rows| == |rows| && r.success + r.failure == |rows|
  {
    var validated := Numbered(f, rows, startIndex);
    var success := CountSuccess(validated);
    ChunkResult(validated, success, |rows| - success)
  }

  /** The entry a worker appends for a chunk: its start and the result for rows numbered from start + 1. */
  function Outcome(f: (Row, nat) -> Row): Chunk -> (nat, ChunkResult) {
    (c: Chunk) => (c.0, ChunkSpec(f, c.1, c.0 + 1))
  }

  lemma OutcomeOf(f: (Row, nat) -> Row, c: Chunk)
    ensures Outcome(f)(c) == (c.0, ChunkSpec(f, c.1, c.0 + 1))
  {
  }

  /** `_collect_results`: validates one chunk and appends `(start, result)` to the shared list. */
  method CollectResults(acc: seq<(nat, ChunkResult)>, start: nat, rows: seq<Row>, ctx: Context, py: Python)
    returns (acc': seq<(nat, ChunkResult)>)
    ensures acc' == acc + [Outcome(RowValidator(ctx, py))((start, rows))]
  {
    var validated, success, failure := ValidateChunk(rows, start + 1, ctx, py);
    assert ChunkResult(validated, success, failure) == ChunkSpec(RowValidator(ctx, py), rows, start + 1) by {
      ValidatedSeqNumbered(rows, start + 1, ctx, py);
    }
    OutcomeOf(RowValidator(ctx, py), (start, rows));
    acc' := acc + [(start, ChunkResult(validated, success, failure))];
  }

  /**
   * One task group: every chunk of the batch is handed to a worker and the
   * workers append in the order they finish, which can be any order.
   */
  method RunBatch(batch: seq<Chunk>, ctx: Context, py: Python) returns (results: seq<(nat, ChunkResult)>)
    ensures multiset(results) == multiset(MapSeq(Outcome(RowValidator(ctx, py)), batch))
  {
    var finished: seq<Chunk> :| multiset(finished) == multiset(batch);
    ghost var out := Outcome(RowValidator(ctx, py));
    results := [];
    for i := 0 to |finished|
      invariant results == MapSeq(out, finished[..i])
    {
      results := CollectResults(results, finished[i].0, finished[i].1, ctx, py);
      assert results == MapSeq(out, finished[..i + 1]) by {
        assert finished[..i + 1] == finished[..i] + [finished[i]];
        MapSeqAppend(out, finished[..i], [finished[i]]);
      }
    }
    assert finished[..|finished|] == finished;
    MapRearrangement(out, finished, batch);
  }

  // ---------- the batch comes back in chunk order ----------

  lemma PiecesStrictlyByStart<T>(s: seq<T>, step: nat)
    requires step > 0
    ensures StrictlyByStart(Pieces(s, step))
  {
    var p := Pieces(s, step);
    PieceSlices(s, step);
    PiecesLinked(s, step);
    var starts := seq(|p|, j requires 0 <= j < |p| => p[j].0);
    assert forall i, k :: 0 <= i && k == i + 1 && k < |starts| ==> starts[i] < starts[k] by {
      forall i, k | 0 <= i && k == i + 1 && k < |starts| ensures starts[i] < starts[k] {
        assert p[k].0 == p[i].0 + |p[i].1|;
      }
    }
    StrictlyUpByLink(starts);
    forall i, j | 0 <= i < j < |p| ensures p[i].0 < p[j].0 {
      assert starts[i] < starts[j];
    }
  }

  /** Sorting the finished list of a batch of chunks with increasing starts gives the results in chunk order. */
  lemma SortedBatch(batch: seq<Chunk>, results: seq<(nat, ChunkResult)>, f: (Row, nat) -> Row)
    requires StrictlyByStart(batch)
    requires multiset(results) == multiset(MapSeq(Outcome(f), batch))
    ensures SortByStart(results) == MapSeq(Outcome(f), batch)
  {
    var expected := MapSeq(Outcome(f), batch);
    assert forall i :: 0 <= i < |batch| ==> expected[i].0 == batch[i].0;
    SortedRearrangementIsUnique(SortByStart(results), expected);
  }

  // ---------- merging ----------

  /** Slices of the records laid end to end from the first row to the last. */
  ghost predicate Tiling(records: seq<Row>, chunks: seq<Chunk>) {
    && (forall k :: 0 <= k < |chunks| ==>
          chunks[k].0 + |chunks[k].1| <= |records| && chunks[k].1 == records[chunks[k].0..chunks[k].0 + |chunks[k].1|])
    && (chunks != [] ==> chunks[0].0 == 0 && chunks[|chunks| - 1].0 + |chunks[|chunks| - 1].1| == |records|)
    && (chunks == [] ==> records == [])
    && (forall i, k :: 0 <= i && k == i + 1 && k < |chunks| ==> chunks[k].0 == chunks[i].0 + |chunks[i].1|)
  }

  lemma PiecesTile(records: seq<Row>)
    ensures Tiling(records, Pieces(records, CHUNK_SIZE))
  {
    PieceSlices(records, CHUNK_SIZE);
    PiecesFirstLast(records, CHUNK_SIZE);
    PiecesLinked(records, CHUNK_SIZE);
  }

  /** Validating a prefix and then the next slice, numbered on from the prefix, validates the longer prefix. */
  lemma NumberedPrefixExtends(f: (Row, nat) -> Row, records: seq<Row>, a: nat, e: nat)
    requires a <= e <= |records|
    ensures Numbered(f, records[..a], 1) + Numbered(f, records[a..e], a + 1) == Numbered(f, records[..e], 1)
  {
    var left := Numbered(f, records[..a], 1);
    var right := Numbered(f, records[a..e], a + 1);
    var all := Numbered(f, records[..e], 1);
    assert forall i :: 0 <= i < a ==> (left + right)[i] == left[i] == all[i];
    assert forall i :: a <= i < e ==> (left + right)[i] == right[i - a] == all[i];
  }

  /** Where the merge stands after m chunks: the first row of chunk m, or the end. */
  function Frontier(records: seq<Row>, chunks: seq<Chunk>, m: nat): nat {
    if m < |chunks| then chunks[m].0 else |records|
  }

  /** Chunk m runs from the frontier after m chunks to the frontier after m + 1. */
  lemma FrontierStep(records: seq<Row>, chunks: seq<Chunk>, m: nat)
    requires Tiling(records, chunks) && m < |chunks|
    ensures Frontier(records, chunks, m) == chunks[m].0
    ensures Frontier(records, chunks, m + 1) == chunks[m].0 + |chunks[m].1| <= |records|
    ensures chunks[m].1 == records[chunks[m].0..chunks[m].0 + |chunks[m].1|]
  {
    if m + 1 < |chunks| {
      assert chunks[m + 1].0 == chunks[m].0 + |chunks[m].1|;
    }
  }

  /** The state of the merge once the first m chunks have been merged. */
  ghost predicate Merged(records: seq<Row>, chunks: seq<Chunk>, m: nat, f: (Row, nat) -> Row,
                         validated: seq<Row>, processed: nat, success: nat, failure: nat, progress: seq<nat>)
  {
    && m <= |chunks|
    && processed == Frontier(records, chunks, m) <= |records|
    && validated == Numbered(f, records[..processed], 1)
    && success == CountSuccess(validated)
    && success + failure == processed
    && progress == Ends(chunks)[..m]
  }

  /** Merging the result of chunk m keeps the merge state. */
  lemma MergeStep(records: seq<Row>, chunks: seq<Chunk>, m: nat, c: ChunkResult, f: (Row, nat) -> Row,
                  validated: seq<Row>, processed: nat, success: nat, failure: nat, progress: seq<nat>)
    requires Tiling(records, chunks) && m < |chunks|
    requires c == ChunkSpec(f, chunks[m].1, chunks[m].0 + 1)
    requires Merged(records, chunks, m, f, validated, processed, success, failure, progress)
    ensures Merged(records, chunks, m + 1, f, validated + c.rows, processed + |c.rows|,
                   success + c.success, failure + c.failure, progress + [processed + |c.rows|])
  {
    var a := chunks[m].0;
    var e := a + |chunks[m].1|;
    assert processed == a && e <= |records| && chunks[m].1 == records[a..e] by {
      FrontierStep(records, chunks, m);
    }
    assert Frontier(records, chunks, m + 1) == e by {
      FrontierStep(records, chunks, m);
    }
    assert validated + c.rows == Numbered(f, records[..e], 1) by {
      NumberedPrefixExtends(f, records, a, e);
    }
    assert success + c.success == CountSuccess(validated + c.rows) by {
      CountSuccessAppend(validated, c.rows);
    }
    assert progress + [processed + |c.rows|] == Ends(chunks)[..m + 1] by {
      EndsPrefix(chunks, m);
    }
  }

  /** Entry m - from of a batch sorted back into chunk order is the result for chunk m. */
  lemma SortedEntry(chunks: seq<Chunk>, from: nat, to: nat, ordered: seq<(nat, ChunkResult)>, m: nat,
                    f: (Row, nat) -> Row)
    requires from <= m < to <= |chunks|
    requires ordered == MapSeq(Outcome(f), chunks[from..to])
    ensures ordered[m - from].1 == ChunkSpec(f, chunks[m].1, chunks[m].0 + 1)
  {
    assert ordered[m - from] == Outcome(f)(chunks[m]);
    OutcomeOf(f, chunks[m]);
  }

  /** The body of the merge loop: one chunk's result is appended to the totals and its progress reported. */
  method MergeOne(records: seq<Row>, chunks: seq<Chunk>, m: nat, c: ChunkResult, ghost f: (Row, nat) -> Row,
                  validated: seq<Row>, processed: nat, success: nat, failure: nat, progress: seq<nat>)
    returns (validated': seq<Row>, processed': nat, success': nat, failure': nat, progress': seq<nat>)
    requires Tiling(records, chunks) && m < |chunks|
    requires c == ChunkSpec(f, chunks[m].1, chunks[m].0 + 1)
    requires Merged(records, chunks, m, f, validated, processed, success, failure, progress)
    ensures validated' == validated + c.rows && processed' == processed + |c.rows|
    ensures success' == success + c.success && failure' == failure + c.failure && progress' == progress + [processed']
    ensures Merged(records, chunks, m + 1, f, validated', processed', success', failure', progress')
  {
    MergeStep(records, chunks, m, c, f, validated, processed, success, failure, progress);
    validated' := validated + c.rows;
    processed' := processed + |c.rows|;
    success' := success + c.success;
    failure' := failure + c.failure;
    progress' := progress + [processed'];
  }

  /** The merge loop over a batch's results in start order, for any row function `f`. */
  method MergeInOrder(records: seq<Row>, chunks: seq<Chunk>, from: nat, to: nat, ordered: seq<(nat, ChunkResult)>,
                      ghost f: (Row, nat) -> Row,
                      validated: seq<Row>, processed: nat, success: nat, failure: nat, progress: seq<nat>)
    returns (validated': seq<Row>, processed': nat, success': nat, failure': nat, progress': seq<nat>)
    requires Tiling(records, chunks) && from <= to <= |chunks|
    requires ordered == MapSeq(Outcome(f), chunks[from..to])
    requires Merged(records, chunks, from, f, validated, processed, success, failure, progress)
    ensures Merged(records, chunks, to, f, validated', processed', success', failure', progress')
  {
    validated', processed', success', failure', progress' := validated, processed, success, failure, progress;
    for m := from to to
      invariant Merged(records, chunks, m, f, validated', processed', success', failure', progress')
    {
      var c := ordered[m - from].1;
      SortedEntry(chunks, from, to, ordered, m, f);
      validated', processed', success', failure', progress' :=
        MergeOne(records, chunks, m, c, f, validated', processed', success', failure', progress');
    }
  }

  /**
   * One pass of the batch loop: the chunks from `bs` on, WORKERS of them
   * or fewer at the end, go to a task group, and their results are merged
   * in start order whatever order the tasks finished in.
   */
  method MergeBatch(records: seq<Row>, chunks: seq<Chunk>, bs: nat, ctx: Context, py: Python,
                    validated: seq<Row>, processed: nat, success: nat, failure: nat, progress: seq<nat>)
    returns (validated': seq<Row>, processed': nat, success': nat, failure': nat, progress': seq<nat>)
    requires Tiling(records, chunks) && StrictlyByStart(chunks) && bs < |chunks|
    requires Merged(records, chunks, bs, RowValidator(ctx, py), validated, processed, success, failure, progress)
    ensures Merged(records, chunks, Min(bs + WORKERS, |chunks|), RowValidator(ctx, py),
                   validated', processed', success', failure', progress')
  {
    var end := Min(bs + WORKERS, |chunks|);
    var batch := chunks[bs..end];
    var results := RunBatch(batch, ctx, py);
    StrictlySlice(chunks, bs, end);
    SortedBatch(batch, results, RowValidator(ctx, py));
    validated', processed', success', failure', progress' :=
      MergeInOrder(records, chunks, bs, end, SortByStart(results), RowValidator(ctx, py),
                   validated, processed, success, failure, progress);
  }

  /** The batch loop of step 4 over any tiling of the records whose chunks come in start order. */
  method MergeAllBatches(records: seq<Row>, chunks: seq<Chunk>, ctx: Context, py: Python)
    returns (validated: seq<Row>, processed: nat, success: nat, failure: nat, progress: seq<nat>)
    requires Tiling(records, chunks) && StrictlyByStart(chunks)
    ensures Merged(records, chunks, |chunks|, RowValidator(ctx, py), validated, processed, success, failure, progress)
  {
    validated, processed, success, failure, progress := [], 0, 0, 0, [];
    // `for batch_start in range(0, len(chunks), WORKERS)`
    var bs := 0;
    while bs < |chunks|
      invariant Merged(records, chunks, Min(bs, |chunks|), RowValidator(ctx, py),
                       validated, processed, success, failure, progress)
      decreases |chunks| - bs
    {
      validated, processed, success, failure, progress :=
        MergeBatch(records, chunks, bs, ctx, py, validated, processed, success, failure, progress);
      bs := bs + WORKERS;
    }
  }

  /**
   * The chunked validation of step 4: the validated rows are exactly
   * those of validating the whole file in one pass, numbered from 1; the
   * counts add up; and progress is reported once per chunk, in chunk
   * order, with the number of rows processed so far.
   */
  method ValidateRecords(records: seq<Row>, ctx: Context, py: Python)
    returns (validated: seq<Row>, processed: nat, success: nat, failure: nat, progress: seq<nat>)
    ensures validated == ValidatedSeq(records, 1, ctx, py)
    ensures processed == |records|
    ensures success == CountSuccess(validated) && success + failure == processed
    ensures progress == Ends(Pieces(records, CHUNK_SIZE))
  {
    var chunks := Pieces(records, CHUNK_SIZE);
    PiecesTile(records);
    PiecesStrictlyByStart(records, CHUNK_SIZE);
    validated, processed, success, failure, progress := MergeAllBatches(records, chunks, ctx, py);
    assert records[..|records|] == records;
    assert Ends(chunks)[..|chunks|] == Ends(chunks);
    ValidatedSeqNumbered(records, 1, ctx, py);
  }

  // ---------- progress ----------

  /**
   * Progress only goes up, by at most one chunk at a time; report j is
   * `min((j + 1) * CHUNK_SIZE, total)`, the last one is the total, and a
   * file without records reports no progress.
   */
  lemma ProgressReports(records: seq<Row>)
    ensures var e := Ends(Pieces(records, CHUNK_SIZE));
      && (e == [] <==> records == [])
      && (e != [] ==> 0 < e[0] <= CHUNK_SIZE && e[|e| - 1] == |records|)
      && (forall i, j :: 0 <= i < j < |e| ==> e[i] < e[j])
      && (forall i, j :: 0 <= i && j == i + 1 && j < |e| ==> e[j] <= e[i] + CHUNK_SIZE)
      && (forall j :: 0 <= j < |e| ==> e[j] == Min((j + 1) * CHUNK_SIZE, |records|))
  {
    PieceEnds(records, CHUNK_SIZE);
    forall j | 0 <= j < |Pieces(records, CHUNK_SIZE)|
      ensures Ends(Pieces(records, CHUNK_SIZE))[j] == Min((j + 1) * CHUNK_SIZE, |records|)
    {
      PieceEndAt(records, CHUNK_SIZE, j);
    }
  }
}
