/**
 * The result workbook (app/crawler/excel_writer.py): which headers are
 * written, the data cells, the three conditional-format rules and the
 * column widths. The legend sheet, cell styles, column letters and the
 * bytes xlsxwriter produces are not part of this model.
 */
module ResultWriter {
  import opened Text
  import opened Dicts
  import opened Values
  import opened Validator

  /** The conditional formats: data rows 1..lastRow (0-based) over columns 0..lastCol, reading the Valid and Remarks columns. */
  datatype Formats = Formats(lastRow: nat, lastCol: nat, validCol: nat, remarksCol: nat)

  /** The data sheet: written cells by (row, column), the formats if any, and one width per column. */
  datatype Workbook = Workbook(headers: seq<string>, cells: map<(nat, nat), Value>, formats: Option<Formats>, widths: seq<nat>)

  const MAX_WIDTH := 50

  /** `headers.index(x)`. */
  function IndexOf(s: seq<string>, x: string): (i: nat)
    requires x in s
    ensures i < |s| && s[i] == x && forall j :: 0 <= j < i ==> s[j] != x
  {
    if s[0] == x then 0 else 1 + IndexOf(s[1..], x)
  }

  /** `len(str(r.get(h, "")))`: a missing key counts as "", a present None as "None". */
  function CellLength(rec: Row, h: string): nat {
    match Find(rec, h)
    case Some(v) => |PyStr(v)|
    case None => 0
  }

  /** `max(CellLength(r, h) for r in records)`. */
  function MaxLength(records: seq<Row>, h: string): (m: nat)
    requires records != []
    ensures forall i :: 0 <= i < |records| ==> CellLength(records[i], h) <= m
    decreases |records|
  {
    if |records| == 1 then CellLength(records[0], h)
    else
      var init := records[..|records| - 1];
      assert forall i :: 0 <= i < |init| ==> init[i] == records[i];
      Max(MaxLength(init, h), CellLength(records[|records| - 1], h))
  }

  /** The maximum is reached: some record's cell is exactly that long. */
  lemma {:induction false} MaxLengthReached(records: seq<Row>, h: string)
    requires records != []
    ensures exists i :: 0 <= i < |records| && CellLength(records[i], h) == MaxLength(records, h)
    decreases |records|
  {
    var last := |records| - 1;
    if last == 0 || CellLength(records[last], h) >= MaxLength(records, h) {
      assert CellLength(records[last], h) == MaxLength(records, h);
    } else {
      var init := records[..last];
      MaxLengthReached(init, h);
      var i :| 0 <= i < |init| && CellLength(init[i], h) == MaxLength(init, h);
      assert init[i] == records[i];
    }
  }

  /** `min(max_len + 2, 50)`. */
  function ColumnWidth(records: seq<Row>, h: string): (w: nat)
    requires records != []
    ensures 2 <= w <= MAX_WIDTH
  {
    Min(MaxLength(records, h) + 2, MAX_WIDTH)
  }

  /** The cells the header row and the data loop write. */
  ghost predicate CellsWritten(cells: map<(nat, nat), Value>, records: seq<Row>, headers: seq<string>, rows: nat)
    requires rows <= |records|
  {
    && (forall key :: key in cells <==> key.0 <= rows && key.1 < |headers|)
    && (forall c :: 0 <= c < |headers| ==> cells[(0, c)] == Str(headers[c]))
    && (forall r, c :: 1 <= r <= rows && 0 <= c < |headers| ==> cells[(r, c)] == RowGet(records[r - 1], headers[c]))
  }

  /** One row of `ws.write(r, c, values[c])` calls, column by column. */
  method WriteRow(cells: map<(nat, nat), Value>, r: nat, values: seq<Value>) returns (out: map<(nat, nat), Value>)
    ensures forall key :: key in out <==> key in cells || (key.0 == r && key.1 < |values|)
    ensures forall key :: key in cells && key.0 != r ==> out[key] == cells[key]
    ensures forall c :: 0 <= c < |values| ==> out[(r, c)] == values[c]
  {
    out := cells;
    for c := 0 to |values|
      invariant forall key :: key in out <==> key in cells || (key.0 == r && key.1 < c)
      invariant forall key :: key in cells && key.0 != r ==> out[key] == cells[key]
      invariant forall j :: 0 <= j < c ==> out[(r, j)] == values[j]
    {
      out := out[(r, c) := values[c]];
    }
  }

  /** `rec.get(h)` for every header, in header order. */
  function RecordCells(rec: Row, headers: seq<string>): (r: seq<Value>)
    ensures |r| == |headers|
  {
    seq(|headers|, c requires 0 <= c < |headers| => RowGet(rec, headers[c]))
  }

  lemma OneMoreRowWritten(cells: map<(nat, nat), Value>, out: map<(nat, nat), Value>, records: seq<Row>, headers: seq<string>, r: nat)
    requires 1 <= r <= |records| && CellsWritten(cells, records, headers, r - 1)
    requires forall key :: key in out <==> key in cells || (key.0 == r && key.1 < |headers|)
    requires forall key :: key in cells && key.0 != r ==> out[key] == cells[key]
    requires forall c :: 0 <= c < |headers| ==> out[(r, c)] == RowGet(records[r - 1], headers[c])
    ensures CellsWritten(out, records, headers, r)
  {
  }

  /**
   * The sheet written for `records` under `headers`: the header row and
   * every data cell, the row colours exactly when both Valid and Remarks
   * are headers, and each column exactly as wide as its longest text.
   */
  ghost predicate Report(wb: Workbook, records: seq<Row>, headers: seq<string>)
    requires records != []
  {
    && wb.headers == headers
    && CellsWritten(wb.cells, records, headers, |records|)
    && wb.formats == (if "Valid" in headers && "Remarks" in headers
         then Some(Formats(|records|, |headers| - 1, IndexOf(headers, "Valid"), IndexOf(headers, "Remarks")))
         else None)
    && |wb.widths| == |headers|
    && (forall c :: 0 <= c < |headers| ==> wb.widths[c] == ColumnWidth(records, headers[c]))
  }

  /** The report of the validated rows: the first record's keys are the headers. */
  ghost predicate ValidatedReport(wb: Workbook, records: seq<Row>)
    requires records != []
  {
    Report(wb, records, Keys(records[0]))
  }

  /**
   * `_write_workbook_bytes`: the header row, the data cells row by row, the
   * formats when both Valid and Remarks are headers, and the column widths.
   * `max` over no records raises; the only caller passes at least one.
   */
  method WriteWorkbook(records: seq<Row>, headers: seq<string>) returns (wb: Workbook)
    requires records != []
    ensures Report(wb, records, headers)
  {
    var headerCells := seq(|headers|, c requires 0 <= c < |headers| => Str(headers[c]));
    var cells := WriteRow(map[], 0, headerCells);
    for r := 1 to |records| + 1
      invariant CellsWritten(cells, records, headers, r - 1)
    {
      var out := WriteRow(cells, r, RecordCells(records[r - 1], headers));
      OneMoreRowWritten(cells, out, records, headers, r);
      cells := out;
    }
    var formats: Option<Formats> := None;
    if "Valid" in headers && "Remarks" in headers {
      formats := Some(Formats(|records|, |headers| - 1, IndexOf(headers, "Valid"), IndexOf(headers, "Remarks")));
    }
    var widths := ColumnWidths(records, headers);
    wb := Workbook(headers, cells, formats, widths);
  }

  /** The auto-fit loop: one width per header. */
  method ColumnWidths(records: seq<Row>, headers: seq<string>) returns (widths: seq<nat>)
    requires records != []
    ensures |widths| == |headers|
    ensures forall c :: 0 <= c < |headers| ==> widths[c] == ColumnWidth(records, headers[c])
  {
    widths := [];
    for c := 0 to |headers|
      invariant |widths| == c
      invariant forall j :: 0 <= j < c ==> widths[j] == ColumnWidth(records, headers[j])
    {
      var w := ColumnWidth(records, headers[c]);
      assert forall j :: 0 <= j < c ==> (widths + [w])[j] == widths[j];
      widths := widths + [w];
    }
  }

  /** `write_validated_excel_stream`: no workbook for no records, else the first record's keys as headers. */
  method WriteValidatedExcelStream(records: seq<Row>) returns (wb: Option<Workbook>)
    ensures wb.None? <==> records == []
    ensures wb.Some? ==> ValidatedReport(wb.value, records)
    ensures wb.Some? ==> forall c :: 0 <= c < |records[0]| ==> 2 <= wb.value.widths[c] <= MAX_WIDTH
  {
    if records == [] {
      return None;
    }
    var headers := Keys(records[0]);
    var book := WriteWorkbook(records, headers);
    return Some(book);
  }

  // ---------- the three row colours ----------

  /** Excel's `=` on text ignores case; a number, a date or a blank is not equal to a text. */
  predicate CellIs(v: Value, text: string) {
    v.Str? && Lower(v.s) == Lower(text)
  }

  /** `SEARCH("duplicate", LOWER(cell))` finds a match; only a text cell can hold letters. */
  predicate MentionsDuplicate(v: Value) {
    v.Str? && Contains(Lower(v.s), "duplicate")
  }

  predicate Green(valid: Value, remarks: Value) {
    CellIs(valid, "Success")
  }

  predicate Yellow(valid: Value, remarks: Value) {
    CellIs(valid, "Fail") && !MentionsDuplicate(remarks)
  }

  /** The red rule does not look at Valid. */
  predicate Red(valid: Value, remarks: Value) {
    MentionsDuplicate(remarks)
  }

  /** A text in which no "d" is followed by "u" cannot contain "duplicate". */
  lemma {:induction false} NoDuPairNoDuplicate(s: string)
    requires forall j :: 0 <= j < |s| - 1 ==> !(s[j] == 'd' && s[j + 1] == 'u')
    ensures !Contains(s, "duplicate")
    decreases |s|
  {
    if s != [] {
      if |s| >= 2 {
        assert !(s[0] == 'd' && s[1] == 'u');
      }
      NoDuPairNoDuplicate(s[1..]);
    }
  }

  lemma SuccessRemarkIsNotDuplicate()
    ensures !Contains(Lower(SUCCESS_REMARK), "duplicate")
  {
    var s := Lower(SUCCESS_REMARK);
    assert s == "validated successfully" by {
      assert forall j :: 0 <= j < |s| ==> s[j] == LowerChar(SUCCESS_REMARK[j]);
    }
    NoDuPairNoDuplicate(s);
  }

  lemma JoinAppend(xs: seq<string>, y: string, sep: string)
    ensures Join(xs + [y], sep) == if xs == [] then y else Join(xs, sep) + sep + y
    decreases |xs|
  {
    if |xs| >= 2 {
      JoinAppend(xs[1..], y, sep);
      assert (xs + [y])[1..] == xs[1..] + [y];
    } else if |xs| == 1 {
      assert (xs + [y])[1..] == [y];
    }
  }

  /** Text ending in a message that starts with "Duplicate" mentions "duplicate" once lower-cased. */
  lemma EndsInDuplicate(prefix: string, d: string)
    requires |d| >= 9 && d[..9] == "Duplicate"
    ensures Contains(Lower(prefix + d), "duplicate")
  {
    var low := Lower(prefix + d);
    assert Lower("Duplicate") == "duplicate";
    assert low[|prefix|..|prefix| + 9] == Lower("Duplicate") by {
      assert forall j :: 0 <= j < 9 ==> low[|prefix| + j] == LowerChar(d[j]) == LowerChar("Duplicate"[j]);
    }
    ContainsAt(low, "duplicate", |prefix|);
  }

  /** A row that got the duplicate message has "duplicate" in its lower-cased remarks. */
  lemma DuplicateMessageIsRed(fieldMsgs: seq<string>, cols: seq<string>)
    ensures Contains(Lower(Join(fieldMsgs + [DuplicateMessage(cols)], ", ")), "duplicate")
  {
    var d := DuplicateMessage(cols);
    var prefix := if fieldMsgs == [] then "" else Join(fieldMsgs, ", ") + ", ";
    assert Join(fieldMsgs + [d], ", ") == prefix + d by {
      JoinAppend(fieldMsgs, d, ", ");
    }
    assert d[..9] == "Duplicate";
    EndsInDuplicate(prefix, d);
  }

  /** The colour of a row with verdict and remarks computed from its messages. */
  lemma ColourOfMessages(msgs: seq<string>)
    ensures var valid := Str(Verdict(msgs));
      var remarks := Str(Remarks(msgs));
      && (Green(valid, remarks) <==> msgs == [])
      && (Red(valid, remarks) <==> msgs != [] && Contains(Lower(Join(msgs, ", ")), "duplicate"))
      && (Yellow(valid, remarks) <==> msgs != [] && !Contains(Lower(Join(msgs, ", ")), "duplicate"))
  {
    SuccessRemarkIsNotDuplicate();
    assert Lower(SUCCESS) != Lower(FAIL) by { assert Lower(SUCCESS)[0] == 's'; }
  }

  /**
   * Each validated row falls in exactly one colour class: green when it
   * has no message, red when its remarks mention "duplicate", yellow for
   * the other failures. Every row the duplicate policy marked is red.
   */
  lemma ValidatedRowColour(row: Row, rowIndex: nat, ctx: Context, py: Python)
    ensures var out := ValidatedRow(row, rowIndex, ctx, py);
      var valid := RowGet(out, "Valid");
      var remarks := RowGet(out, "Remarks");
      var msgs := Messages(row, rowIndex, ctx, py);
      && (Green(valid, remarks) <==> msgs == [])
      && (Red(valid, remarks) <==> msgs != [] && Contains(Lower(Join(msgs, ", ")), "duplicate"))
      && (Yellow(valid, remarks) <==> msgs != [] && !Contains(Lower(Join(msgs, ", ")), "duplicate"))
      && (DuplicateMessages(Normalize(row), rowIndex, ctx) != [] ==> Red(valid, remarks))
  {
    var msgs := Messages(row, rowIndex, ctx, py);
    var out := ValidatedRow(row, rowIndex, ctx, py);
    ValidatedRowShape(row, rowIndex, ctx, py);
    assert RowGet(out, "Valid") == Str(Verdict(msgs)) && RowGet(out, "Remarks") == Str(Remarks(msgs));
    ColourOfMessages(msgs);
    var norm := Normalize(row);
    var dup := DuplicateMessages(norm, rowIndex, ctx);
    if dup != [] {
      assert dup == [DuplicateMessage(ctx.uniqueCols)];
      assert msgs == RuleMessages(ctx.rules, norm, py) + [DuplicateMessage(ctx.uniqueCols)];
      DuplicateMessageIsRed(RuleMessages(ctx.rules, norm, py), ctx.uniqueCols);
    }
  }

  /** Keys that are all lower-case followed by Valid and Remarks: those two are found right after them. */
  lemma VerdictColumnsFollow(norm: Row, valid: Value, remarks: Value)
    requires forall k :: k in Keys(norm) ==> Lower(k) == k
    ensures var headers := Keys(norm + [("Valid", valid), ("Remarks", remarks)]);
      "Valid" in headers && "Remarks" in headers
      && IndexOf(headers, "Valid") == |norm| && IndexOf(headers, "Remarks") == |norm| + 1
  {
    var headers := Keys(norm + [("Valid", valid), ("Remarks", remarks)]);
    assert headers[|norm|] == "Valid" && headers[|norm| + 1] == "Remarks";
    assert Lower("Valid") != "Valid" by { assert Lower("Valid")[0] == 'v'; }
    assert Lower("Remarks") != "Remarks" by { assert Lower("Remarks")[0] == 'r'; }
    assert forall j :: 0 <= j < |norm| ==> headers[j] == Keys(norm)[j];
  }

  /** The first validated row has both Valid and Remarks keys, so a workbook of validated rows gets the colour rules. */
  lemma ValidatedHeadersCarryVerdict(row: Row, ctx: Context, py: Python)
    ensures var headers := Keys(ValidatedRow(row, 1, ctx, py));
      "Valid" in headers && "Remarks" in headers && IndexOf(headers, "Remarks") == IndexOf(headers, "Valid") + 1
  {
    var errors := Messages(row, 1, ctx, py);
    assert ValidatedRow(row, 1, ctx, py)
      == Normalize(row) + [("Valid", Str(Verdict(errors))), ("Remarks", Str(Remarks(errors)))] by {
      ValidatedRowShape(row, 1, ctx, py);
    }
    NormalizeKeys(row);
    VerdictColumnsFollow(Normalize(row), Str(Verdict(errors)), Str(Remarks(errors)));
  }
}
