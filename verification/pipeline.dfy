/**
 * `run_excel_validation_pipeline` (app/crawler/validation_pipeline.py): the
 * order of the run's visible effects. Reading the object, the rules
 * lookup, the database and the notification channel are outside the model:
 * what they return is part of the `Job`, and what the run does to them is
 * recorded as a trace of `Event`s.
 */
module Pipeline {
  import opened Text
  import opened Dicts
  import opened Values
  import opened RecordSources
  import opened RulePrep
  import opened DuplicateIndex
  import opened Validator
  import opened Chunking
  import opened ChunkedValidation
  import opened ResultWriter

  /** What the run is given: its arguments and what storage and the rules table hold for it. */
  datatype Job = Job(
    auditId: string,
    keyIn: string,
    contentType: Option<string>,     // the object's Content-Type, if any
    sheet: seq<seq<Value>>,          // the active sheet's rows, when the object is a workbook
    csvRows: Result<seq<seq<string>>, string>,  // the parsed rows of a delimited file, or the sniffer's error
    rules: Option<RuleDoc>,          // `get_rules_json`: None when no rules are stored
    rulesId: string,
    appPresent: bool,                // `app is not None`: events are published only then
    outputPrefix: string)            // `settings.OUTPUT_PREFIX`

  /** The events `safe_publish` sends; percentages and download URLs are not modelled. */
  datatype Message =
    | InitMsg(total: nat)
    | ProgressMsg(processed: nat)
    | CompletedMsg(success: nat, failure: nat)
    | ErrorMsg(message: string)

  datatype Body = ExcelBody(book: Workbook) | JsonBody(rows: seq<Row>)

  /** One visible effect of the run, in the order it happens. */
  datatype Event =
    | StatusRunning
    | ProgressSaved(processed: nat, total: nat)
    | Published(msg: Message)
    | Uploaded(key: string, body: Body)
    | StatusCompleted(total: nat, success: nat, failure: nat, excelKey: string, jsonKey: string, rulesId: string)
    | StatusFailed(error: string)

  /** How the run ends: normally, or by re-raising the exception it recorded. */
  datatype Outcome = Done | Raised(error: string)

  /** The Content-Type of an .xlsx workbook. */
  const XLSX_CONTENT_TYPE := "application/vnd.openxmlformats-officedocument.spreadsheetml.sheet"

  /** `str(e)` of the AttributeError `None.getvalue()` raises. */
  const NO_WORKBOOK := "'NoneType' object has no attribute 'getvalue'"

  // ---------- step 2: choosing the reader ----------

  datatype Reader = ExcelReader | CsvReader

  /** `f"{content_type}"`: a missing Content-Type prints as None. */
  function ShowContentType(ct: Option<string>): string {
    match ct
    case None => "None"
    case Some(s) => s
  }

  /** Excel when the type mentions spreadsheetml, else CSV when it mentions csv, else the ValueError. */
  function SelectReader(ct: Option<string>): (r: Result<Reader, string>)
    ensures r == Ok(ExcelReader) <==> ct.Some? && Contains(ct.value, "spreadsheetml")
    ensures r == Ok(CsvReader) <==> ct.Some? && !Contains(ct.value, "spreadsheetml") && Contains(ct.value, "csv")
    ensures r.Err? <==> ct.None? || (!Contains(ct.value, "spreadsheetml") && !Contains(ct.value, "csv"))
    ensures r.Err? ==> r.error == "Unsupported S3 Content-Type: " + ShowContentType(ct)
  {
    var text := match ct case None => "" case Some(s) => s;
    if Contains(text, "spreadsheetml") then Ok(ExcelReader)
    else if Contains(text, "csv") then Ok(CsvReader)
    else
      assert ct.None? ==> !Contains(text, "spreadsheetml") && !Contains(text, "csv");
      Err("Unsupported S3 Content-Type: " + ShowContentType(ct))
  }

  /** `list(records_iter)` for the chosen reader, or the exception listing it raises. */
  function ReadRecords(job: Job): Result<seq<Row>, string> {
    match SelectReader(job.contentType)
    case Err(e) => Err(e)
    case Ok(ExcelReader) => ExcelRecords(job.sheet)
    case Ok(CsvReader) =>
      match job.csvRows
      case Err(e) => Err(e)
      case Ok(rows) => Ok(CsvRecords(rows))
  }

  // ---------- step 3: the rules ----------

  /** `not rules_cfg`: no document, or an empty one. */
  predicate NoRules(rules: Option<RuleDoc>): (r: bool)
    ensures r <==> rules.None? || rules.value == RuleDoc(None, None, None, 0)
  {
    rules.None? ||
    (rules.value.columns.None? && rules.value.uniqueConstraints.None? && rules.value.uniqueMode.None? && rules.value.otherKeys == 0)
  }

  // ---------- step 5: output keys ----------

  /** `"PASS" if total_failure == 0 else "FAIL"`. */
  function Quality(failure: nat): (r: string)
    ensures r == "PASS" <==> failure == 0
    ensures r == "PASS" || r == "FAIL"
  {
    if failure == 0 then "PASS" else "FAIL"
  }

  /** `s.split("/")[-1]`. */
  function LastSegment(s: string): string {
    var parts := Split(s, '/');
    parts[|parts| - 1]
  }

  /** `s.rsplit(".", 1)[0]`: everything before the last dot, or all of s when it has none. */
  function BeforeLastDot(s: string): (r: string)
    ensures '.' !in s ==> r == s
    ensures |r| <= |s| && r == s[..|r|]
    decreases |s|
  {
    if '.' !in s then s
    else if s[|s| - 1] == '.' then s[..|s| - 1]
    else
      var r := BeforeLastDot(s[..|s| - 1]);
      assert s[..|s| - 1][..|r|] == s[..|r|];
      r
  }

  /** `key_in.split("/")[-1].rsplit(".", 1)[0]`. */
  function BaseName(key: string): string {
    BeforeLastDot(LastSegment(key))
  }

  /** Dropping the extension: everything before the dot that starts an extension without dots. */
  lemma {:induction false} BeforeLastDotDropsExtension(name: string, ext: string)
    requires '.' !in ext
    ensures BeforeLastDot(name + "." + ext) == name
    decreases |ext|
  {
    var s := name + "." + ext;
    assert s[|name|] == '.';
    if ext == [] {
      assert s[..|s| - 1] == name;
    } else {
      var e := ext[..|ext| - 1];
      assert s[|s| - 1] == ext[|ext| - 1];
      assert s[..|s| - 1] == name + "." + e;
      BeforeLastDotDropsExtension(name, e);
    }
  }

  /**
   * The base name of an object key is its file name without the extension,
   * whatever directories come before it, and also when it has none.
   */
  lemma BaseNameOfKey(dir: string, name: string, ext: string)
    requires '/' !in name && '/' !in ext && '.' !in ext
    ensures BaseName(dir + "/" + name + "." + ext) == name
    ensures BaseName(name + "." + ext) == name
  {
    var file := name + "." + ext;
    assert '/' !in file by {
      forall i | 0 <= i < |file| ensures file[i] != '/' {
        if i < |name| { assert file[i] == name[i]; }
        else if i > |name| { assert file[i] == ext[i - |name| - 1]; }
      }
    }
    SplitWithoutSeparator(file, '/');
    LastPieceAfterSeparator(dir, file, '/');
    assert dir + "/" + name + "." + ext == dir + ['/'] + file;
    BeforeLastDotDropsExtension(name, ext);
  }

  /** `f"{OUTPUT_PREFIX}/{base}_{audit_id}_{quality}{ext}"`. */
  function OutputKey(prefix: string, base: string, auditId: string, quality: string, ext: string): string {
    prefix + "/" + base + "_" + auditId + "_" + quality + ext
  }

  /** A report key lies under the output prefix, ends with the extension, and names the quality just before it. */
  lemma OutputKeyShape(prefix: string, base: string, auditId: string, quality: string, ext: string)
    ensures var key := OutputKey(prefix, base, auditId, quality, ext);
      && |key| == |prefix| + |base| + |auditId| + |quality| + |ext| + 3
      && key[..|prefix| + 1] == prefix + "/" && key[|key| - |ext|..] == ext
      && key[|key| - |ext| - |quality| - 1..|key| - |ext|] == "_" + quality
  {
    var key := OutputKey(prefix, base, auditId, quality, ext);
    assert key == (prefix + "/") + (base + "_" + auditId) + ("_" + quality) + ext;
  }

  // ---------- the trace ----------

  /** `safe_publish(event)`: nothing is sent without an app. */
  function Publish(app: bool, m: Message): (r: seq<Event>)
    ensures app ==> r == [Published(m)]
    ensures !app ==> r == []
  {
    if app then [Published(m)] else []
  }

  /** One `update_progress` and one progress event per merged chunk, in merge order. */
  function ProgressEvents(progress: seq<nat>, total: nat, app: bool): seq<Event>
    decreases |progress|
  {
    if progress == [] then []
    else
      var n := |progress| - 1;
      ProgressEvents(progress[..n], total, app) + [ProgressSaved(progress[n], total)] + Publish(app, ProgressMsg(progress[n]))
  }

  /** The except block: the FAILED status with `str(e)`, then the error event. */
  function FailureEvents(e: string, app: bool): seq<Event> {
    [StatusFailed(e)] + Publish(app, ErrorMsg(e))
  }

  /** The progress values saved through `update_progress`, in order. */
  function Saved(events: seq<Event>): seq<nat>
    decreases |events|
  {
    if events == [] then []
    else
      var n := |events| - 1;
      Saved(events[..n]) + (if events[n].ProgressSaved? then [events[n].processed] else [])
  }

  lemma {:induction false} SavedAppend(a: seq<Event>, b: seq<Event>)
    ensures Saved(a + b) == Saved(a) + Saved(b)
    decreases |b|
  {
    if b != [] {
      var n := |b| - 1;
      assert (a + b)[..|a + b| - 1] == a + b[..n];
      assert (a + b)[|a + b| - 1] == b[n];
      SavedAppend(a, b[..n]);
    } else {
      assert a + b == a;
    }
  }

  /** Nothing is published: what a run without an app produces. */
  ghost predicate Silent(events: seq<Event>) {
    forall i :: 0 <= i < |events| ==> !events[i].Published?
  }

  /** No event of the trace marks the audit COMPLETED. */
  ghost predicate NotCompleted(events: seq<Event>) {
    forall i :: 0 <= i < |events| ==> !events[i].StatusCompleted?
  }

  /** What two consecutive stretches of the trace give together. */
  lemma TraceConcat(a: seq<Event>, b: seq<Event>)
    ensures Saved(a + b) == Saved(a) + Saved(b)
    ensures NotCompleted(a) && NotCompleted(b) ==> NotCompleted(a + b)
    ensures Silent(a) && Silent(b) ==> Silent(a + b)
  {
    SavedAppend(a, b);
    if NotCompleted(a) && NotCompleted(b) {
      forall i | 0 <= i < |a + b| ensures !(a + b)[i].StatusCompleted? {
        if i >= |a| {
          assert (a + b)[i] == b[i - |a|];
        }
      }
    }
    if Silent(a) && Silent(b) {
      forall i | 0 <= i < |a + b| ensures !(a + b)[i].Published? {
        if i >= |a| {
          assert (a + b)[i] == b[i - |a|];
        }
      }
    }
  }

  /** A trace of one event. */
  lemma OneEvent(e: Event)
    ensures Saved([e]) == if e.ProgressSaved? then [e.processed] else []
    ensures NotCompleted([e]) <==> !e.StatusCompleted?
    ensures Silent([e]) <==> !e.Published?
  {
    assert [e][..0] == [];
  }

  /** A stretch that saves no progress, publishes nothing without an app and does not complete the audit. */
  ghost predicate Quiet(events: seq<Event>, app: bool) {
    Saved(events) == [] && NotCompleted(events) && (!app ==> Silent(events))
  }

  lemma PublishIsQuiet(app: bool, m: Message)
    ensures Quiet(Publish(app, m), app)
  {
    if app {
      OneEvent(Published(m));
    }
  }

  lemma FailureIsQuiet(e: string, app: bool)
    ensures Quiet(FailureEvents(e, app), app)
  {
    PublishIsQuiet(app, ErrorMsg(e));
    OneEvent(StatusFailed(e));
    TraceConcat([StatusFailed(e)], Publish(app, ErrorMsg(e)));
  }

  /** One more progress value adds its saved value and its progress event. */
  lemma ProgressStep(progress: seq<nat>, total: nat, app: bool)
    requires progress != []
    ensures var n := |progress| - 1;
      ProgressEvents(progress, total, app)
        == ProgressEvents(progress[..n], total, app) + [ProgressSaved(progress[n], total)] + Publish(app, ProgressMsg(progress[n]))
  {
  }

  /** The progress events save exactly the reported values, in order. */
  lemma {:induction false} ProgressSavesValues(progress: seq<nat>, total: nat, app: bool)
    ensures Saved(ProgressEvents(progress, total, app)) == progress
    decreases |progress|
  {
    if progress != [] {
      var n := |progress| - 1;
      assert progress[..n] + [progress[n]] == progress;
      ProgressSavesValues(progress[..n], total, app);
      ProgressStep(progress, total, app);
      OneEvent(ProgressSaved(progress[n], total));
      PublishIsQuiet(app, ProgressMsg(progress[n]));
      TraceConcat(ProgressEvents(progress[..n], total, app), [ProgressSaved(progress[n], total)]);
      TraceConcat(ProgressEvents(progress[..n], total, app) + [ProgressSaved(progress[n], total)], Publish(app, ProgressMsg(progress[n])));
    } else {
      assert ProgressEvents(progress, total, app) == [];
    }
  }

  /** The progress events never complete the audit, and publish nothing without an app. */
  lemma {:induction false} ProgressQuiet(progress: seq<nat>, total: nat, app: bool)
    ensures NotCompleted(ProgressEvents(progress, total, app))
    ensures !app ==> Silent(ProgressEvents(progress, total, app))
    decreases |progress|
  {
    if progress != [] {
      var n := |progress| - 1;
      ProgressQuiet(progress[..n], total, app);
      ProgressStep(progress, total, app);
      OneEvent(ProgressSaved(progress[n], total));
      PublishIsQuiet(app, ProgressMsg(progress[n]));
      TraceConcat(ProgressEvents(progress[..n], total, app), [ProgressSaved(progress[n], total)]);
      TraceConcat(ProgressEvents(progress[..n], total, app) + [ProgressSaved(progress[n], total)], Publish(app, ProgressMsg(progress[n])));
    }
  }

  /** The events of the loading steps: RUNNING, progress 0 and the init event. */
  function LoadEvents(total: nat, app: bool): seq<Event> {
    [StatusRunning, ProgressSaved(0, total)] + Publish(app, InitMsg(total))
  }

  lemma LoadTrace(total: nat, app: bool)
    ensures Saved(LoadEvents(total, app)) == [0]
    ensures NotCompleted(LoadEvents(total, app))
    ensures !app ==> Silent(LoadEvents(total, app))
  {
    OneEvent(StatusRunning);
    OneEvent(ProgressSaved(0, total));
    TraceConcat([StatusRunning], [ProgressSaved(0, total)]);
    assert [StatusRunning] + [ProgressSaved(0, total)] == [StatusRunning, ProgressSaved(0, total)];
    PublishIsQuiet(app, InitMsg(total));
    TraceConcat([StatusRunning, ProgressSaved(0, total)], Publish(app, InitMsg(total)));
  }

  /** The closing events: the two uploads, the completed event and the COMPLETED status. */
  function ClosingEvents(app: bool, book: Workbook, json: seq<Row>, success: nat, failure: nat,
                         excelKey: string, jsonKey: string, rulesId: string): seq<Event>
  {
    [Uploaded(excelKey, ExcelBody(book)), Uploaded(jsonKey, JsonBody(json))]
      + Publish(app, CompletedMsg(success, failure))
      + [StatusCompleted(success + failure, success, failure, excelKey, jsonKey, rulesId)]
  }

  /** The closing events save no progress and publish nothing without an app. */
  lemma ClosingTrace(app: bool, book: Workbook, json: seq<Row>, success: nat, failure: nat,
                     excelKey: string, jsonKey: string, rulesId: string)
    ensures var c := ClosingEvents(app, book, json, success, failure, excelKey, jsonKey, rulesId);
      Saved(c) == [] && (!app ==> Silent(c))
  {
    var ex := Uploaded(excelKey, ExcelBody(book));
    var js := Uploaded(jsonKey, JsonBody(json));
    var done := StatusCompleted(success + failure, success, failure, excelKey, jsonKey, rulesId);
    OneEvent(ex);
    OneEvent(js);
    OneEvent(done);
    PublishIsQuiet(app, CompletedMsg(success, failure));
    TraceConcat([ex], [js]);
    assert [ex] + [js] == [ex, js];
    TraceConcat([ex, js], Publish(app, CompletedMsg(success, failure)));
    TraceConcat([ex, js] + Publish(app, CompletedMsg(success, failure)), [done]);
  }

  /** The JSON report is uploaded second, and the last closing event is COMPLETED. */
  lemma ClosingShape(app: bool, book: Workbook, json: seq<Row>, success: nat, failure: nat,
                     excelKey: string, jsonKey: string, rulesId: string)
    ensures var c := ClosingEvents(app, book, json, success, failure, excelKey, jsonKey, rulesId);
      && |c| >= 3 && c[0] == Uploaded(excelKey, ExcelBody(book)) && c[1] == Uploaded(jsonKey, JsonBody(json))
      && c[|c| - 1] == StatusCompleted(success + failure, success, failure, excelKey, jsonKey, rulesId)
  {
  }

  // ---------- step 5: the JSON report ----------

  /** `str(e)` of the TypeError `json.dumps` raises on the first date cell it meets. */
  const JSON_DATE_ERROR := "Object of type date is not JSON serializable"

  /** Some cell holds a date, which `json.dumps` cannot encode without a `default`. */
  predicate HoldsDate(rows: seq<Row>) {
    exists i, k :: 0 <= i < |rows| && 0 <= k < |rows[i]| && rows[i][k].1.Date?
  }

  /** A cell as `json.dumps(..., default=str)` encodes it: a date as its `str()`. */
  function DateAsText(v: Value): Value {
    if v.Date? then Str(PyStr(v)) else v
  }

  /**
   * The rows as `json.dumps(..., default=str)` would encode them: the same
   * keys in the same order, every date written as YYYY-MM-DD, and nothing
   * left that the encoder rejects.
   */
  function DatesAsText(rows: seq<Row>): (r: seq<Row>)
    ensures |r| == |rows| && !HoldsDate(r)
    ensures forall i :: 0 <= i < |rows| ==> |r[i]| == |rows[i]| && Keys(r[i]) == Keys(rows[i])
    ensures forall i, k :: 0 <= i < |rows| && 0 <= k < |rows[i]| ==>
      r[i][k] == if rows[i][k].1.Date? then (rows[i][k].0, Str(PyStr(rows[i][k].1))) else rows[i][k]
  {
    var r := seq(|rows|, i requires 0 <= i < |rows| =>
      seq(|rows[i]|, k requires 0 <= k < |rows[i]| => (rows[i][k].0, DateAsText(rows[i][k].1))));
    assert forall i :: 0 <= i < |rows| ==> Keys(r[i]) == Keys(rows[i]);
    r
  }

  /** Rows without a date are encoded as they are: `default` is never called. */
  lemma DateFreeRowsUnchanged(rows: seq<Row>)
    requires !HoldsDate(rows)
    ensures DatesAsText(rows) == rows
  {
    var r := DatesAsText(rows);
    forall i | 0 <= i < |rows| ensures r[i] == rows[i] {
      forall k | 0 <= k < |rows[i]| ensures r[i][k] == rows[i][k] {
        assert !rows[i][k].1.Date?;
      }
    }
  }

  // ---------- the run ----------

  /** Steps 1 to 3: the records and the prepared rules, or the exception that ends the run there. */
  function LoadResult(job: Job, py: Python): Result<(seq<Row>, Prepared), string> {
    match ReadRecords(job)
    case Err(e) => Err(e)
    case Ok(records) =>
      if NoRules(job.rules) then Err("No rules found for rules_id=" + job.rulesId)
      else
        match PrepSpec(job.rules.value, py)
        case Err(e) => Err(e)
        case Ok(p) => Ok((records, p))
  }

  /** What every row is validated against once the rules are prepared. */
  ghost function RunContext(records: seq<Row>, p: Prepared): Context {
    Context(p.rules, IndexSpec(records, p.uniqueCols), p.uniqueCols, p.uniqueMode)
  }

  /** The validated rows written to both reports. */
  ghost function Validated(records: seq<Row>, p: Prepared, py: Python): seq<Row> {
    ValidatedSeq(records, 1, RunContext(records, p), py)
  }

  /**
   * The exception the run ends with, in the order the steps can raise, or
   * None when it completes: loading, the missing workbook, then encoding
   * the JSON report after the workbook was uploaded.
   */
  ghost function PipelineError(job: Job, py: Python): Option<string> {
    match LoadResult(job, py)
    case Err(e) => Some(e)
    case Ok((records, p)) =>
      if records == [] then Some(NO_WORKBOOK)
      else if HoldsDate(Validated(records, p, py)) then Some(JSON_DATE_ERROR)
      else None
  }

  /** After loading, the run's error is the one the closing steps raise on the validated rows. */
  lemma ClosingError(job: Job, py: Python, records: seq<Row>, p: Prepared)
    requires LoadResult(job, py) == Ok((records, p))
    ensures var validated := Validated(records, p, py);
      PipelineError(job, py) == if validated == [] then Some(NO_WORKBOOK)
        else if HoldsDate(validated) then Some(JSON_DATE_ERROR) else None
  {
  }

  /** Whichever reader produced them, the records have distinct, lower-case keys. */
  lemma ReadRecordsAreReaderRows(job: Job)
    requires ReadRecords(job).Ok?
    ensures forall j :: 0 <= j < |ReadRecords(job).value| ==> ReaderRow(ReadRecords(job).value[j])
  {
    forall j | 0 <= j < |ReadRecords(job).value| ensures ReaderRow(ReadRecords(job).value[j]) {
      if SelectReader(job.contentType) == Ok(ExcelReader) {
        ExcelRecordShape(job.sheet, j);
      } else {
        CsvRecordShape(job.csvRows.value, j);
      }
    }
  }

  /** Validation keeps every cell of a reader row and adds two text cells, so it adds or removes no date. */
  lemma ValidationKeepsDates(records: seq<Row>, ctx: Context, py: Python)
    requires forall j :: 0 <= j < |records| ==> ReaderRow(records[j])
    ensures HoldsDate(ValidatedSeq(records, 1, ctx, py)) <==> HoldsDate(records)
  {
    var out: seq<Row> := ValidatedSeq(records, 1, ctx, py);
    forall i | 0 <= i < |records|
      ensures |out[i]| == |records[i]| + 2 && out[i][..|records[i]|] == records[i]
      ensures out[i][|records[i]|].1.Str? && out[i][|records[i]| + 1].1.Str?
    {
      ValidatedCells(records, ctx, py, i);
    }
    TextCellsKeepDates(records, out);
  }

  /** Appending text cells to every row adds no date and removes none. */
  lemma TextCellsKeepDates(records: seq<Row>, out: seq<Row>)
    requires |out| == |records|
    requires forall i :: 0 <= i < |records| ==> |out[i]| == |records[i]| + 2 && out[i][..|records[i]|] == records[i]
    requires forall i :: 0 <= i < |records| ==> out[i][|records[i]|].1.Str? && out[i][|records[i]| + 1].1.Str?
    ensures HoldsDate(out) <==> HoldsDate(records)
  {
    if HoldsDate(records) {
      var i: int, k: int :| 0 <= i < |records| && 0 <= k < |records[i]| && records[i][k].1.Date?;
      assert out[i][..|records[i]|][k] == out[i][k];
    }
    if HoldsDate(out) {
      var i: int, k: int :| 0 <= i < |out| && 0 <= k < |out[i]| && out[i][k].1.Date?;
      assert out[i][..|records[i]|][k] == out[i][k];
    }
  }

  /** Validated row i is record i followed by two text cells. */
  lemma ValidatedCells(records: seq<Row>, ctx: Context, py: Python, i: nat)
    requires i < |records| && ReaderRow(records[i])
    ensures var out := ValidatedSeq(records, 1, ctx, py)[i];
      |out| == |records[i]| + 2 && out[..|records[i]|] == records[i]
      && out[|records[i]|].1.Str? && out[|records[i]| + 1].1.Str?
  {
    assert ValidatedSeq(records, 1, ctx, py)[i] == ValidatedRow(records[i], 1 + i, ctx, py);
    ValidatedRowAddsText(records[i], 1 + i, ctx, py);
  }

  lemma ValidatedRowAddsText(row: Row, rowIndex: nat, ctx: Context, py: Python)
    requires ReaderRow(row)
    ensures var out := ValidatedRow(row, rowIndex, ctx, py);
      |out| == |row| + 2 && out[..|row|] == row && out[|row|].1.Str? && out[|row| + 1].1.Str?
  {
    var errors := Messages(row, rowIndex, ctx, py);
    var tail := [("Valid", Str(Verdict(errors))), ("Remarks", Str(Remarks(errors)))];
    NormalizeLowerRow(row);
    ValidatedRowShape(row, rowIndex, ctx, py);
    assert ValidatedRow(row, rowIndex, ctx, py) == row + tail;
    assert (row + tail)[..|row|] == row;
  }

  /**
   * Once the rules are prepared and there are records, the run fails on
   * the JSON report exactly when some record holds a date cell.
   */
  lemma DatesFailTheRun(job: Job, py: Python)
    requires LoadResult(job, py).Ok? && LoadResult(job, py).value.0 != []
    ensures PipelineError(job, py).Some? <==> HoldsDate(LoadResult(job, py).value.0)
    ensures HoldsDate(LoadResult(job, py).value.0) ==> PipelineError(job, py) == Some(JSON_DATE_ERROR)
  {
    var (records, p) := LoadResult(job, py).value;
    ReadRecordsAreReaderRows(job);
    ValidationKeepsDates(records, RunContext(records, p), py);
  }

  /**
   * An upload of one sheet with a header "d" and a single date under it,
   * checked against rules that name no column.
   */
  function DateSheetJob(): Job {
    Job("a1", "in/dates.xlsx", Some(XLSX_CONTENT_TYPE), [[Str("d")], [Date(2024, 1, 1)]],
        Err("not read"), Some(RuleDoc(Some([]), None, None, 0)), "r1", false, "out")
  }

  /** That upload loads one record holding the date; the workbook is written, and the run then fails on the JSON report. */
  lemma DateSheetFails(py: Python)
    ensures LoadResult(DateSheetJob(), py).Ok?
    ensures LoadResult(DateSheetJob(), py).value.0 == [[("d", Date(2024, 1, 1))]]
    ensures PipelineError(DateSheetJob(), py) == Some(JSON_DATE_ERROR)
  {
    var job := DateSheetJob();
    var row: Row := [("d", Date(2024, 1, 1))];
    XlsxSelectsExcel();
    DateSheetRecords();
    assert ReadRecords(job) == Ok([row]);
    assert CompileAll([], py) == Ok([]);
    assert LoadResult(job, py).value.0 == [row];
    assert HoldsDate([row]) by {
      assert [row][0][0].1.Date?;
    }
    DatesFailTheRun(job, py);
  }

  lemma XlsxSelectsExcel()
    ensures SelectReader(Some(XLSX_CONTENT_TYPE)) == Ok(ExcelReader)
  {
    var pre := "application/vnd.openxmlformats-officedocument.";
    assert XLSX_CONTENT_TYPE == pre + "spreadsheetml" + ".sheet";
    assert XLSX_CONTENT_TYPE[|pre|..|pre| + |"spreadsheetml"|] == "spreadsheetml";
    ContainsAt(XLSX_CONTENT_TYPE, "spreadsheetml", |pre|);
  }

  lemma DateSheetRecords()
    ensures ExcelRecords([[Str("d")], [Date(2024, 1, 1)]]) == Ok([[("d", Date(2024, 1, 1))]])
  {
    var sheet := [[Str("d")], [Date(2024, 1, 1)]];
    var row: Row := [("d", Date(2024, 1, 1))];
    ExcelRecordAt(sheet, 0);
    HeaderOfD();
    DateRowOfD();
    assert ExcelRecords(sheet).value[0] == row;
    assert ExcelRecords(sheet).value == [row];
  }

  lemma DateRowOfD()
    ensures MapRow(["d"], [Date(2024, 1, 1)]) == [("d", Date(2024, 1, 1))]
  {
    assert ["d"][..0] == [];
  }

  lemma HeaderOfD()
    ensures ExcelHeaders([Str("d")]) == ["d"]
  {
    assert !IsSpace('d');
    assert StripLeft("d") == "d";
    assert StripRight("d") == "d";
    assert LowerChar('d') == 'd';
    assert Lower("d")[0] == 'd';
    assert Lower("d") == "d";
    assert ExcelHeader(Str("d")) == "d";
  }

  /** The key of the report with extension `ext`: PASS in its name exactly when no row failed. */
  function ReportKey(job: Job, validated: seq<Row>, ext: string): string {
    OutputKey(job.outputPrefix, BaseName(job.keyIn), job.auditId, Quality(|validated| - CountSuccess(validated)), ext)
  }

  /** The COMPLETED status: the totals, the two report keys and the rules id. */
  function CompletedStatus(job: Job, validated: seq<Row>): Event {
    var success := CountSuccess(validated);
    StatusCompleted(|validated|, success, |validated| - success,
      ReportKey(job, validated, ".xlsx"), ReportKey(job, validated, ".json"), job.rulesId)
  }

  /**
   * Steps 1 to 3: RUNNING, the records read with the reader the content
   * type selects, progress 0 and the init event, then the rules.
   */
  method Load(job: Job, py: Python) returns (events: seq<Event>, loaded: Result<(seq<Row>, Prepared), string>)
    ensures loaded == LoadResult(job, py)
    ensures events != [] && events[0] == StatusRunning
    ensures ReadRecords(job).Err? ==> events == [StatusRunning]
    ensures ReadRecords(job).Ok? ==> events == LoadEvents(|ReadRecords(job).value|, job.appPresent)
    ensures loaded.Ok? ==> Saved(events) == [0]
    ensures NotCompleted(events) && (!job.appPresent ==> Silent(events))
  {
    events := [StatusRunning];
    OneEvent(StatusRunning);
    var reader := SelectReader(job.contentType);
    var records: seq<Row>;
    match reader {
      case Err(e) =>
        return events, Err(e);
      case Ok(ExcelReader) =>
        var r := ExcelRecords(job.sheet);
        if r.Err? {
          return events, Err(r.error);
        }
        records := r.value;
      case Ok(CsvReader) =>
        if job.csvRows.Err? {
          return events, Err(job.csvRows.error);
        }
        records := CsvRecords(job.csvRows.value);
    }
    var total := |records|;
    events := LoadEvents(total, job.appPresent);
    LoadTrace(total, job.appPresent);
    if NoRules(job.rules) {
      return events, Err("No rules found for rules_id=" + job.rulesId);
    }
    var prepared := PrepRulesFromDict(job.rules.value, py);
    if prepared.Err? {
      return events, Err(prepared.error);
    }
    loaded := Ok((records, prepared.value));
  }

  /** Step 4: the duplicate index, then every record validated chunk by chunk. */
  method ValidateAll(records: seq<Row>, p: Prepared, py: Python)
    returns (validated: seq<Row>, success: nat, failure: nat, progress: seq<nat>)
    ensures validated == Validated(records, p, py)
    ensures success == CountSuccess(validated) && success + failure == |validated|
    ensures progress == Ends(Pieces(records, CHUNK_SIZE))
  {
    var index := BuildDuplicateIndex(records, p.uniqueCols);
    var ctx := Context(p.rules, index, p.uniqueCols, p.uniqueMode);
    var processed;
    validated, processed, success, failure, progress := ValidateRecords(records, ctx, py);
  }

  /** The Excel report of `validated` was uploaded under its PASS/FAIL key. */
  ghost predicate ExcelUploaded(events: seq<Event>, job: Job, validated: seq<Row>)
    requires validated != []
  {
    exists book :: Uploaded(ReportKey(job, validated, ".xlsx"), ExcelBody(book)) in events && ValidatedReport(book, validated)
  }

  lemma ExcelUploadKept(before: seq<Event>, events: seq<Event>, after: seq<Event>, job: Job, validated: seq<Row>)
    requires validated != [] && ExcelUploaded(events, job, validated)
    ensures ExcelUploaded(before + events + after, job, validated)
  {
    var book :| Uploaded(ReportKey(job, validated, ".xlsx"), ExcelBody(book)) in events && ValidatedReport(book, validated);
    assert Uploaded(ReportKey(job, validated, ".xlsx"), ExcelBody(book)) in before + events + after;
  }

  /** The events of a run that completes: the progress events, then the closing events. */
  function CompletedEvents(job: Job, validated: seq<Row>, json: seq<Row>, success: nat, failure: nat,
                           progress: seq<nat>, book: Workbook): seq<Event>
  {
    var excelKey := OutputKey(job.outputPrefix, BaseName(job.keyIn), job.auditId, Quality(failure), ".xlsx");
    var jsonKey := OutputKey(job.outputPrefix, BaseName(job.keyIn), job.auditId, Quality(failure), ".json");
    ProgressEvents(progress, |validated|, job.appPresent)
      + ClosingEvents(job.appPresent, book, json, success, failure, excelKey, jsonKey, job.rulesId)
  }

  /** A run that completes saves exactly the progress values, and publishes nothing without an app. */
  lemma CompletedSaved(job: Job, validated: seq<Row>, json: seq<Row>, success: nat, failure: nat,
                       progress: seq<nat>, book: Workbook)
    ensures Saved(CompletedEvents(job, validated, json, success, failure, progress, book)) == progress
    ensures !job.appPresent ==> Silent(CompletedEvents(job, validated, json, success, failure, progress, book))
  {
    var excelKey := OutputKey(job.outputPrefix, BaseName(job.keyIn), job.auditId, Quality(failure), ".xlsx");
    var jsonKey := OutputKey(job.outputPrefix, BaseName(job.keyIn), job.auditId, Quality(failure), ".json");
    ProgressSavesValues(progress, |validated|, job.appPresent);
    ProgressQuiet(progress, |validated|, job.appPresent);
    ClosingTrace(job.appPresent, book, json, success, failure, excelKey, jsonKey, job.rulesId);
    TraceConcat(ProgressEvents(progress, |validated|, job.appPresent),
      ClosingEvents(job.appPresent, book, json, success, failure, excelKey, jsonKey, job.rulesId));
  }

  /** A run that completes uploads both reports and ends with COMPLETED. */
  lemma CompletedShape(job: Job, validated: seq<Row>, json: seq<Row>, success: nat, failure: nat,
                       progress: seq<nat>, book: Workbook)
    requires success == CountSuccess(validated) && success + failure == |validated|
    ensures var events := CompletedEvents(job, validated, json, success, failure, progress, book);
      && Uploaded(ReportKey(job, validated, ".xlsx"), ExcelBody(book)) in events
      && Uploaded(ReportKey(job, validated, ".json"), JsonBody(json)) in events
      && events[|events| - 1] == CompletedStatus(job, validated)
  {
    var excelKey := OutputKey(job.outputPrefix, BaseName(job.keyIn), job.auditId, Quality(failure), ".xlsx");
    var jsonKey := OutputKey(job.outputPrefix, BaseName(job.keyIn), job.auditId, Quality(failure), ".json");
    var head := ProgressEvents(progress, |validated|, job.appPresent);
    var closing := ClosingEvents(job.appPresent, book, json, success, failure, excelKey, jsonKey, job.rulesId);
    ClosingShape(job.appPresent, book, json, success, failure, excelKey, jsonKey, job.rulesId);
    assert CompletedStatus(job, validated) == StatusCompleted(success + failure, success, failure, excelKey, jsonKey, job.rulesId);
    assert (head + closing)[|head|] == closing[0];
    assert (head + closing)[|head| + 1] == closing[1];
    assert (head + closing)[|head + closing| - 1] == closing[|closing| - 1];
  }

  /** The events of a run that fails on the JSON report: the progress events, then the workbook's upload. */
  function ExcelOnlyEvents(job: Job, validated: seq<Row>, progress: seq<nat>, book: Workbook): seq<Event> {
    ProgressEvents(progress, |validated|, job.appPresent) + [Uploaded(ReportKey(job, validated, ".xlsx"), ExcelBody(book))]
  }

  /** Such a run saves exactly the progress values, does not complete, and keeps the uploaded workbook. */
  lemma ExcelOnlyTrace(job: Job, validated: seq<Row>, progress: seq<nat>, book: Workbook)
    requires validated != [] && ValidatedReport(book, validated)
    ensures var events := ExcelOnlyEvents(job, validated, progress, book);
      && Saved(events) == progress && NotCompleted(events)
      && (!job.appPresent ==> Silent(events))
      && ExcelUploaded(events, job, validated)
  {
    var head := ProgressEvents(progress, |validated|, job.appPresent);
    var ex := Uploaded(ReportKey(job, validated, ".xlsx"), ExcelBody(book));
    ProgressSavesValues(progress, |validated|, job.appPresent);
    ProgressQuiet(progress, |validated|, job.appPresent);
    OneEvent(ex);
    TraceConcat(head, [ex]);
    assert (head + [ex])[|head|] == ex;
  }

  /**
   * Steps 4 to 7 after validation: the progress events, the workbook, the
   * two uploads and COMPLETED. Without records the workbook is None and
   * the run fails when it reads the workbook's bytes; with a date cell the
   * workbook is uploaded and the run fails when it encodes the JSON report.
   */
  method Finish(job: Job, validated: seq<Row>, success: nat, failure: nat, progress: seq<nat>)
    returns (events: seq<Event>, error: Option<string>)
    requires success == CountSuccess(validated) && success + failure == |validated|
    ensures error.Some? <==> validated == [] || HoldsDate(validated)
    ensures validated == [] ==> error == Some(NO_WORKBOOK)
    ensures validated != [] && HoldsDate(validated) ==> error == Some(JSON_DATE_ERROR)
    ensures error.Some? ==> NotCompleted(events)
    ensures Saved(events) == progress
    ensures !job.appPresent ==> Silent(events)
    ensures error.None? ==>
      && Uploaded(ReportKey(job, validated, ".json"), JsonBody(validated)) in events
      && events[|events| - 1] == CompletedStatus(job, validated)
    ensures validated != [] ==> ExcelUploaded(events, job, validated)
  {
    var quality := Quality(failure);
    var base := BaseName(job.keyIn);
    var excelKey := OutputKey(job.outputPrefix, base, job.auditId, quality, ".xlsx");
    var jsonKey := OutputKey(job.outputPrefix, base, job.auditId, quality, ".json");
    var book := WriteValidatedExcelStream(validated);
    if book.None? {
      events := ProgressEvents(progress, |validated|, job.appPresent);
      ProgressSavesValues(progress, |validated|, job.appPresent);
      ProgressQuiet(progress, |validated|, job.appPresent);
      return events, Some(NO_WORKBOOK);
    }
    if HoldsDate(validated) {
      events := ExcelOnlyEvents(job, validated, progress, book.value);
      ExcelOnlyTrace(job, validated, progress, book.value);
      return events, Some(JSON_DATE_ERROR);
    }
    events := CompletedEvents(job, validated, validated, success, failure, progress, book.value);
    CompletedSaved(job, validated, validated, success, failure, progress, book.value);
    CompletedShape(job, validated, validated, success, failure, progress, book.value);
    error := None;
  }

  /**
   * `Finish` with the JSON report encoded by `json.dumps(..., default=str)`:
   * every run with records completes, and the JSON report holds the
   * validated rows with their dates written as text.
   */
  method FinishCorrected(job: Job, validated: seq<Row>, success: nat, failure: nat, progress: seq<nat>)
    returns (events: seq<Event>, error: Option<string>)
    requires success == CountSuccess(validated) && success + failure == |validated|
    ensures error.Some? <==> validated == []
    ensures error.Some? ==> error.value == NO_WORKBOOK && NotCompleted(events)
    ensures Saved(events) == progress
    ensures !job.appPresent ==> Silent(events)
    ensures error.None? ==>
      && Uploaded(ReportKey(job, validated, ".json"), JsonBody(DatesAsText(validated))) in events
      && events[|events| - 1] == CompletedStatus(job, validated)
    ensures error.None? ==> ExcelUploaded(events, job, validated)
  {
    var book := WriteValidatedExcelStream(validated);
    if book.None? {
      events := ProgressEvents(progress, |validated|, job.appPresent);
      ProgressSavesValues(progress, |validated|, job.appPresent);
      ProgressQuiet(progress, |validated|, job.appPresent);
      return events, Some(NO_WORKBOOK);
    }
    var json := DatesAsText(validated);
    events := CompletedEvents(job, validated, json, success, failure, progress, book.value);
    CompletedSaved(job, validated, json, success, failure, progress, book.value);
    CompletedShape(job, validated, json, success, failure, progress, book.value);
    error := None;
  }

  /** A run that failed with `e`: the FAILED status and the error event end it, and nothing completed. */
  ghost predicate FailedRun(events: seq<Event>, e: string, app: bool) {
    && |events| >= |FailureEvents(e, app)|
    && events[|events| - |FailureEvents(e, app)|..] == FailureEvents(e, app)
    && NotCompleted(events)
  }

  /**
   * A run that completed: progress 0, then every merged chunk's count up
   * to the total, the JSON report of the validated rows, and COMPLETED last.
   */
  ghost predicate CompletedRun(events: seq<Event>, job: Job, records: seq<Row>, p: Prepared, py: Python) {
    var validated := Validated(records, p, py);
    && Saved(events) == [0] + Ends(Pieces(records, CHUNK_SIZE))
    && Saved(events)[|Saved(events)| - 1] == |records|
    && Uploaded(ReportKey(job, validated, ".json"), JsonBody(validated)) in events
    && events != [] && events[|events| - 1] == CompletedStatus(job, validated)
  }

  /** The except block ends any trace that has not completed with a failed run. */
  lemma FailAfter(events: seq<Event>, e: string, app: bool)
    requires NotCompleted(events)
    ensures FailedRun(events + FailureEvents(e, app), e, app)
    ensures !app && Silent(events) ==> Silent(events + FailureEvents(e, app))
    ensures Saved(events + FailureEvents(e, app)) == Saved(events)
  {
    var failed := FailureEvents(e, app);
    FailureIsQuiet(e, app);
    TraceConcat(events, failed);
    assert (events + failed)[|events + failed| - |failed|..] == failed;
  }

  /** Loading events that saved 0, followed by closing steps that completed, make a completed run. */
  lemma CompleteAfter(load: seq<Event>, rest: seq<Event>, job: Job, records: seq<Row>, p: Prepared, py: Python)
    requires Saved(load) == [0] && Saved(rest) == Ends(Pieces(records, CHUNK_SIZE))
    requires var validated := Validated(records, p, py);
      && Uploaded(ReportKey(job, validated, ".json"), JsonBody(validated)) in rest
      && rest != [] && rest[|rest| - 1] == CompletedStatus(job, validated)
    ensures CompletedRun(load + rest, job, records, p, py)
  {
    TraceConcat(load, rest);
    ProgressReports(records);
    assert (load + rest)[|load + rest| - 1] == rest[|rest| - 1];
  }

  /**
   * The whole run. It starts by marking the audit RUNNING; it either ends
   * with COMPLETED, after the two uploads, or with the FAILED status and
   * the error event, and then re-raises. A date cell fails it after the
   * workbook was uploaded. The saved progress is 0 and then
   * the number of rows processed after each merged chunk.
   */
  method RunPipeline(job: Job, py: Python) returns (events: seq<Event>, outcome: Outcome)
    ensures events != [] && events[0] == StatusRunning
    ensures outcome.Raised? <==> PipelineError(job, py).Some?
    ensures outcome.Raised? ==>
      outcome.error == PipelineError(job, py).value && FailedRun(events, outcome.error, job.appPresent)
    ensures outcome.Done? ==>
      CompletedRun(events, job, LoadResult(job, py).value.0, LoadResult(job, py).value.1, py)
    ensures LoadResult(job, py).Ok? && LoadResult(job, py).value.0 != [] ==>
      var (records, p) := LoadResult(job, py).value;
      ExcelUploaded(events, job, Validated(records, p, py))
    ensures !job.appPresent ==> Silent(events)
  {
    var loaded;
    events, loaded := Load(job, py);
    if loaded.Err? {
      FailAfter(events, loaded.error, job.appPresent);
      events := events + FailureEvents(loaded.error, job.appPresent);
      return events, Raised(loaded.error);
    }
    var (records, p) := loaded.value;
    var validated, success, failure, progress := ValidateAll(records, p, py);
    var rest, error := Finish(job, validated, success, failure, progress);
    ClosingError(job, py, records, p);
    TraceConcat(events, rest);
    assert (events + rest)[0] == StatusRunning;
    if error.Some? {
      var failed := FailureEvents(error.value, job.appPresent);
      FailAfter(events + rest, error.value, job.appPresent);
      if validated != [] {
        ExcelUploadKept(events, rest, failed, job, validated);
      }
      events := events + rest + failed;
      return events, Raised(error.value);
    }
    ExcelUploadKept(events, rest, [], job, validated);
    assert events + rest + [] == events + rest;
    CompleteAfter(events, rest, job, records, p, py);
    events := events + rest;
    outcome := Done;
  }
}
