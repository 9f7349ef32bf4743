/**
 * The row-building part of the two readers (`stream_csv_records` in
 * app/crawler/csv_reader.py and `stream_excel_records` in
 * app/crawler/excel_reader.py): a header row plus data rows become one
 * mapping per data row, keyed by the trimmed, lower-cased header names.
 * Delimiter sniffing, CSV parsing and workbook parsing are done by
 * libraries; their output (a list of cell rows) is the input here.
 */
module RecordSources {
  import opened Text
  import opened Dicts
  import opened Values

  /** `row[i] if i < len(row) else None`. */
  function Cell(cells: seq<Value>, i: nat): Value {
    if i < |cells| then cells[i] else Null
  }

  /** `{headers[i]: Cell(cells, i) for i in range(len(headers))}`, built in header order. */
  function MapRow(headers: seq<string>, cells: seq<Value>): Row
    decreases |headers|
  {
    if headers == [] then []
    else
      var n := |headers| - 1;
      Put(MapRow(headers[..n], cells), headers[n], Cell(cells, n))
  }

  /** A CSV header: `str(h).strip().lower()`. */
  function CsvHeader(h: string): string {
    Lower(Strip(h))
  }

  /** An Excel header: "" for an empty cell, otherwise `str(h).strip().lower()`. */
  function ExcelHeader(h: Value): string {
    if h == Null then "" else Lower(Strip(PyStr(h)))
  }

  /** The header row of a CSV file, normalised. */
  function CsvHeaders(row: seq<string>): (r: seq<string>)
    ensures |r| == |row|
    ensures forall j :: 0 <= j < |r| ==> Lower(r[j]) == r[j]
  {
    CsvHeadersLower(row);
    seq(|row|, j requires 0 <= j < |row| => CsvHeader(row[j]))
  }

  /** The header row of a sheet, normalised. */
  function ExcelHeaders(row: seq<Value>): (r: seq<string>)
    ensures |r| == |row|
    ensures forall j :: 0 <= j < |r| ==> Lower(r[j]) == r[j]
    ensures forall j :: 0 <= j < |r| && row[j] == Null ==> r[j] == ""
  {
    ExcelHeadersLower(row);
    seq(|row|, j requires 0 <= j < |row| => ExcelHeader(row[j]))
  }

  function StrCells(row: seq<string>): (r: seq<Value>)
    ensures |r| == |row|
  {
    seq(|row|, i requires 0 <= i < |row| => Str(row[i]))
  }

  /** One sheet row as a mapping: cells keep their type. */
  function ExcelRecord(headers: seq<string>, row: seq<Value>): Row {
    MapRow(headers, row)
  }

  /** The data rows of a sheet as mappings under `headers`. */
  function ExcelRows(headers: seq<string>, rows: seq<seq<Value>>): (r: seq<Row>)
    ensures |r| == |rows|
    ensures forall i :: 0 <= i < |rows| ==> r[i] == ExcelRecord(headers, rows[i])
  {
    seq(|rows|, i requires 0 <= i < |rows| => ExcelRecord(headers, rows[i]))
  }

  /** One CSV data row as a mapping: every cell is a string. */
  function CsvRecord(headers: seq<string>, row: seq<string>): Row {
    MapRow(headers, StrCells(row))
  }

  /** The records of a parsed CSV file: nothing without rows, else one mapping per row after the header. */
  function CsvRecords(rows: seq<seq<string>>): (r: seq<Row>)
    ensures |r| == if rows == [] then 0 else |rows| - 1
    ensures forall i :: 0 <= i < |r| ==> r[i] == CsvRecord(CsvHeaders(rows[0]), rows[i + 1])
  {
    if rows == [] then []
    else
      var headers := CsvHeaders(rows[0]);
      seq(|rows| - 1, i requires 0 <= i < |rows| - 1 => CsvRecord(headers, rows[i + 1]))
  }

  /**
   * The records of the active sheet. A sheet without any row has no header
   * row; `next` then raises inside the generator, which Python reports as
   * "generator raised StopIteration" when the records are listed.
   */
  function ExcelRecords(sheet: seq<seq<Value>>): (r: Result<seq<Row>, string>)
    ensures r.Err? <==> sheet == []
    ensures r.Ok? ==> |r.value| == |sheet| - 1
  {
    if sheet == [] then Err("generator raised StopIteration")
    else Ok(ExcelRows(ExcelHeaders(sheet[0]), sheet[1..]))
  }

  // ---------- properties of one mapping ----------

  /** The keys of a mapping are distinct and are exactly the header names. */
  lemma {:induction false} MapRowKeys(headers: seq<string>, cells: seq<Value>)
    ensures DistinctKeys(MapRow(headers, cells))
    ensures forall k :: k in Keys(MapRow(headers, cells)) <==> k in headers
    decreases |headers|
  {
    if headers != [] {
      var n := |headers| - 1;
      var init := headers[..n];
      MapRowKeys(init, cells);
      PutKeys(MapRow(init, cells), headers[n], Cell(cells, n));
      PutDistinct(MapRow(init, cells), headers[n], Cell(cells, n));
      assert forall k :: k in headers <==> k in init || k == headers[n] by {
        assert headers == init + [headers[n]];
      }
    }
  }

  /** With distinct headers the keys come in header order. */
  lemma {:induction false} MapRowKeyOrder(headers: seq<string>, cells: seq<Value>)
    requires Distinct(headers)
    ensures Keys(MapRow(headers, cells)) == headers
    decreases |headers|
  {
    if headers != [] {
      var n := |headers| - 1;
      var init := headers[..n];
      assert forall i :: 0 <= i < n ==> init[i] == headers[i];
      MapRowKeyOrder(init, cells);
      assert headers[n] !in init;
      PutKeys(MapRow(init, cells), headers[n], Cell(cells, n));
      assert init + [headers[n]] == headers;
    }
  }

  /**
   * A header reads the cell in its own column, None past the end of a
   * short row; when several headers share a name, the last of them wins.
   */
  lemma {:induction false} MapRowValue(headers: seq<string>, cells: seq<Value>, i: nat)
    requires i < |headers|
    requires forall j :: i < j < |headers| ==> headers[j] != headers[i]
    ensures Find(MapRow(headers, cells), headers[i]) == Some(Cell(cells, i))
    decreases |headers|
  {
    var n := |headers| - 1;
    PutFind(MapRow(headers[..n], cells), headers[n], Cell(cells, n), headers[i]);
    if i < n {
      MapRowValue(headers[..n], cells, i);
    }
  }

  /** The mapping holds at most one entry per header. */
  lemma {:induction false} MapRowSize(headers: seq<string>, cells: seq<Value>)
    ensures |MapRow(headers, cells)| <= |headers|
    decreases |headers|
  {
    if headers != [] {
      var n := |headers| - 1;
      MapRowSize(headers[..n], cells);
      PutKeys(MapRow(headers[..n], cells), headers[n], Cell(cells, n));
    }
  }

  /** A CSV header is lower-case, no longer than its cell, and without surrounding whitespace; an all-blank cell gives "". */
  lemma CsvHeaderNormalised(h: string)
    ensures Lower(CsvHeader(h)) == CsvHeader(h) && |CsvHeader(h)| <= |h|
    ensures CsvHeader(h) == "" <==> forall i :: 0 <= i < |h| ==> IsSpace(h[i])
    ensures CsvHeader(h) != "" ==> !IsSpace(CsvHeader(h)[0]) && !IsSpace(CsvHeader(h)[|CsvHeader(h)| - 1])
  {
    LowerIdempotent(Strip(h));
    StripShortens(h);
    CsvHeaderBlank(h);
    CsvHeaderTrimmed(h);
  }

  lemma StripShortens(h: string)
    ensures |Strip(h)| <= |h|
  {
    assert |Strip(h)| <= |StripLeft(h)|;
  }

  lemma CsvHeaderBlank(h: string)
    ensures CsvHeader(h) == "" <==> forall i :: 0 <= i < |h| ==> IsSpace(h[i])
  {
    assert |CsvHeader(h)| == |Strip(h)|;
  }

  lemma CsvHeaderTrimmed(h: string)
    ensures CsvHeader(h) != "" ==> !IsSpace(CsvHeader(h)[0]) && !IsSpace(CsvHeader(h)[|CsvHeader(h)| - 1])
  {
    var s := Strip(h);
    var r := CsvHeader(h);
    if r != "" {
      assert r[0] == LowerChar(s[0]) && r[|r| - 1] == LowerChar(s[|s| - 1]);
      LowerKeepsSpace(s[0]);
      LowerKeepsSpace(s[|s| - 1]);
    }
  }

  lemma LowerKeepsSpace(c: char)
    ensures IsSpace(LowerChar(c)) == IsSpace(c)
  {
  }

  lemma CsvHeadersLower(row: seq<string>)
    ensures forall j :: 0 <= j < |row| ==> Lower(CsvHeader(row[j])) == CsvHeader(row[j])
  {
    forall j | 0 <= j < |row| ensures Lower(CsvHeader(row[j])) == CsvHeader(row[j]) {
      LowerIdempotent(Strip(row[j]));
    }
  }

  lemma ExcelHeadersLower(row: seq<Value>)
    ensures forall j :: 0 <= j < |row| ==> Lower(ExcelHeader(row[j])) == ExcelHeader(row[j])
  {
    forall j | 0 <= j < |row| ensures Lower(ExcelHeader(row[j])) == ExcelHeader(row[j]) {
      if row[j] != Null {
        LowerIdempotent(Strip(PyStr(row[j])));
      }
    }
  }

  /** An Excel header is "" for an empty cell and otherwise the CSV normalisation of the cell's text. */
  lemma ExcelHeaderNormalised(h: Value)
    ensures Lower(ExcelHeader(h)) == ExcelHeader(h)
    ensures h == Null ==> ExcelHeader(h) == ""
    ensures h != Null ==> ExcelHeader(h) == CsvHeader(PyStr(h)) && |ExcelHeader(h)| <= |PyStr(h)|
  {
    if h != Null {
      CsvHeaderNormalised(PyStr(h));
    }
  }

  /** Lower-case header names give rows as the validator expects them: distinct, lower-case keys. */
  lemma LowerHeadersGiveReaderRows(headers: seq<string>, cells: seq<Value>)
    requires forall i :: 0 <= i < |headers| ==> Lower(headers[i]) == headers[i]
    ensures ReaderRow(MapRow(headers, cells))
  {
    var row := MapRow(headers, cells);
    MapRowKeys(headers, cells);
    forall i | 0 <= i < |row| ensures Lower(row[i].0) == row[i].0 {
      assert row[i].0 == Keys(row)[i];
      assert row[i].0 in headers;
      var j :| 0 <= j < |headers| && headers[j] == row[i].0;
    }
  }

  // ---------- properties of the readers ----------

  /** Row j + 1 of a CSV file becomes record j: the normalised headers mapped to its cells as strings. */
  lemma CsvRecordShape(rows: seq<seq<string>>, j: nat)
    requires j + 1 < |rows|
    ensures CsvRecords(rows)[j] == MapRow(CsvHeaders(rows[0]), StrCells(rows[j + 1]))
    ensures ReaderRow(CsvRecords(rows)[j])
  {
    assert CsvRecords(rows)[j] == CsvRecord(CsvHeaders(rows[0]), rows[j + 1]);
    LowerHeadersGiveReaderRows(CsvHeaders(rows[0]), StrCells(rows[j + 1]));
  }

  /** Row j + 1 of the sheet becomes record j: the normalised headers mapped to its cells. */
  lemma ExcelRecordShape(sheet: seq<seq<Value>>, j: nat)
    requires j + 1 < |sheet|
    ensures ExcelRecords(sheet).value[j] == MapRow(ExcelHeaders(sheet[0]), sheet[j + 1])
    ensures ReaderRow(ExcelRecords(sheet).value[j])
  {
    ExcelRecordAt(sheet, j);
    LowerHeadersGiveReaderRows(ExcelHeaders(sheet[0]), sheet[j + 1]);
  }

  lemma ExcelRecordAt(sheet: seq<seq<Value>>, j: nat)
    requires j + 1 < |sheet|
    ensures ExcelRecords(sheet).value[j] == ExcelRecord(ExcelHeaders(sheet[0]), sheet[j + 1])
  {
    assert sheet[1..][j] == sheet[j + 1];
  }
}
