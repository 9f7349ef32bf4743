/**
 * Cell values and rows as the readers produce them, `str()` of a value,
 * and the Python library behaviour the validator relies on.
 */
module Values {
  import opened Text
  import opened Dicts

  /** A cell: Python `None`, a string, an integer or a `datetime.date`. */
  datatype Value = Null | Str(s: string) | Num(n: int) | Date(year: nat, month: nat, day: nat)

  /** A row: lower-cased header name to cell, in header order. */
  type Row = seq<(string, Value)>

  /** `str(v)`; a date prints as YYYY-MM-DD. */
  function PyStr(v: Value): string {
    match v
    case Null => "None"
    case Str(s) => s
    case Num(n) => IntToString(n)
    case Date(y, m, d) =>
      PadZero(NatToString(y), 4) + "-" + PadZero(NatToString(m), 2) + "-" + PadZero(NatToString(d), 2)
  }

  /** A row as the readers build it: distinct keys, all lower-case. */
  ghost predicate ReaderRow(row: Row) {
    DistinctKeys(row) && forall i :: 0 <= i < |row| ==> Lower(row[i].0) == row[i].0
  }

  /** `row.get(k)`: a missing key reads as None. */
  function RowGet(row: Row, k: string): Value {
    match Find(row, k)
    case Some(v) => v
    case None => Null
  }

  /**
   * The parts of Python the validator calls but this model does not
   * re-implement: the integer `int(s)` reads from a string (None when it
   * raises), whether `float(s)`, `Decimal(s)` and
   * `datetime.fromisoformat(s)` accept a string, the error `re.compile`
   * raises for a pattern (None when it compiles), and whether a compiled
   * pattern `match`es at the start of a string.
   */
  datatype Python = Python(
    intOf: string -> Option<int>,
    parsesFloat: string -> bool,
    parsesDecimal: string -> bool,
    parsesIsoDate: string -> bool,
    compileError: string -> Option<string>,
    matchesAtStart: (string, string) -> bool)
}
