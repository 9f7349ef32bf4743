/**
 * Per-row validation and the chunk API (`_validate_row` and
 * `validate_chunk` in app/crawler/validator.py).
 */
module Validator {
  import opened Text
  import opened Dicts
  import opened Values
  import opened RulePrep
  import opened DuplicateIndex

  /** What every row of a run is validated against: `rules`, `dup_index`, `unique_constraints`, `unique_mode`. */
  datatype Context = Context(rules: seq<(string, Rule)>, index: map<Key, Entry>, uniqueCols: seq<string>, mode: string)

  const SUCCESS := "Success"
  const FAIL := "Fail"
  const SUCCESS_REMARK := "Validated Successfully"

  /** `{k.lower(): v for k, v in row.items()}`. */
  function Normalize(row: Row): Row
    decreases |row|
  {
    if row == [] then []
    else Put(Normalize(row[..|row| - 1]), Lower(row[|row| - 1].0), row[|row| - 1].1)
  }

  /** `value is None or str(value).strip() == ""`. */
  predicate Blank(v: Value) {
    v == Null || Strip(PyStr(v)) == ""
  }

  /** `value is None or value == ""`. */
  predicate Empty(v: Value) {
    v == Null || v == Str("")
  }

  /** Whether the `try` block of the type check runs without raising. */
  predicate Coerces(typ: Option<string>, v: Value, py: Python): (r: bool)
    ensures v.Num? && typ != Some("date") ==> r
    ensures v.Date? && typ == Some("date") ==> r
    ensures (v.Null? || v.Date?) && (typ == Some("int") || typ == Some("float")) ==> !r
  {
    match typ
    case None => true
    case Some(t) =>
      if t == "int" then (match v case Num(_) => true case Str(s) => py.intOf(s).Some? case _ => false)
      else if t == "float" then (match v case Num(_) => true case Str(s) => py.parsesFloat(s) case _ => false)
      else if t == "decimal" then (match v case Num(_) => true case _ => py.parsesDecimal(PyStr(v)))
      else if t == "date" then (match v case Date(_, _, _) => true case _ => py.parsesIsoDate(PyStr(v)))
      else true
  }

  function TypeName(typ: Option<string>): string {
    match typ
    case Some(t) => t
    case None => "None"
  }

  /** The messages the rule loop adds for one field: none or one. */
  function FieldMessages(field: string, rule: Rule, v: Value, py: Python): seq<string> {
    if rule.required && Blank(v) then [field + " is required"]
    else if Empty(v) then []
    else if !Coerces(rule.typ, v, py) then [field + " invalid " + TypeName(rule.typ)]
    else if rule.pattern.Some? && !py.matchesAtStart(rule.pattern.value, PyStr(v)) then [field + " does not match pattern"]
    else []
  }

  /** The messages of the rule loop after the rules `rules`, in rule order. */
  function RuleMessages(rules: seq<(string, Rule)>, norm: Row, py: Python): seq<string>
    decreases |rules|
  {
    if rules == [] then []
    else
      var (field, rule) := rules[|rules| - 1];
      RuleMessages(rules[..|rules| - 1], norm, py) + FieldMessages(field, rule, RowGet(norm, field), py)
  }

  function DuplicateMessage(cols: seq<string>): string {
    "Duplicate based on " + Join(cols, ", ")
  }

  /** `dup_index.get(key, (1, row_index))`. */
  function Lookup(ctx: Context, key: Key, rowIndex: nat): Entry {
    if key in ctx.index then ctx.index[key] else Entry(1, rowIndex)
  }

  /** The message the duplicate policy adds, if any. */
  function DuplicateMessages(norm: Row, rowIndex: nat, ctx: Context): seq<string> {
    if ctx.uniqueCols != [] && ctx.mode != "ignore" then
      var e := Lookup(ctx, KeyOf(norm, ctx.uniqueCols), rowIndex);
      if e.count > 1 && (ctx.mode == "fail_all" || (ctx.mode == "keep_first" && rowIndex != e.first))
      then [DuplicateMessage(ctx.uniqueCols)]
      else []
    else []
  }

  /** All messages of a row: field messages in rule order, the duplicate message last. */
  function Messages(row: Row, rowIndex: nat, ctx: Context, py: Python): seq<string> {
    var norm := Normalize(row);
    RuleMessages(ctx.rules, norm, py) + DuplicateMessages(norm, rowIndex, ctx)
  }

  function Verdict(errors: seq<string>): string {
    if errors == [] then SUCCESS else FAIL
  }

  function Remarks(errors: seq<string>): string {
    if errors == [] then SUCCESS_REMARK else Join(errors, ", ")
  }

  /** The row `_validate_row` returns. */
  function ValidatedRow(row: Row, rowIndex: nat, ctx: Context, py: Python): Row {
    var errors := Messages(row, rowIndex, ctx, py);
    Put(Put(Normalize(row), "Valid", Str(Verdict(errors))), "Remarks", Str(Remarks(errors)))
  }

  /** `_validate_row`: the loop over the rules, then the duplicate policy. */
  method ValidateRow(row: Row, rowIndex: nat, ctx: Context, py: Python) returns (out: Row)
    ensures out == ValidatedRow(row, rowIndex, ctx, py)
  {
    var errors: seq<string> := [];
    var norm := Normalize(row);
    var i := 0;
    while i < |ctx.rules|
      invariant i <= |ctx.rules|
      invariant errors == RuleMessages(ctx.rules[..i], norm, py)
    {
      var (field, rule) := ctx.rules[i];
      assert ctx.rules[..i + 1][..i] == ctx.rules[..i];
      var value := RowGet(norm, field);
      if rule.required && Blank(value) {
        errors := errors + [field + " is required"];
      } else if !Empty(value) {
        if !Coerces(rule.typ, value, py) {
          errors := errors + [field + " invalid " + TypeName(rule.typ)];
        } else if rule.pattern.Some? && !py.matchesAtStart(rule.pattern.value, PyStr(value)) {
          errors := errors + [field + " does not match pattern"];
        }
      }
      i := i + 1;
    }
    assert ctx.rules[..i] == ctx.rules;
    assert errors == RuleMessages(ctx.rules, norm, py);
    if ctx.uniqueCols != [] && ctx.mode != "ignore" {
      var key := KeyOf(norm, ctx.uniqueCols);
      var entry := if key in ctx.index then ctx.index[key] else Entry(1, rowIndex);
      if entry.count > 1 {
        if ctx.mode == "fail_all" {
          errors := errors + [DuplicateMessage(ctx.uniqueCols)];
        } else if ctx.mode == "keep_first" {
          if rowIndex != entry.first {
            errors := errors + [DuplicateMessage(ctx.uniqueCols)];
          }
        }
      }
    }
    assert errors == Messages(row, rowIndex, ctx, py);
    var verdict := if errors == [] then SUCCESS else FAIL;
    var remarks := if errors == [] then SUCCESS_REMARK else Join(errors, ", ");
    out := Put(Put(norm, "Valid", Str(verdict)), "Remarks", Str(remarks));
  }

  // ---------- the chunk API ----------

  predicate IsSuccess(row: Row) {
    RowGet(row, "Valid") == Str(SUCCESS)
  }

  /** How many rows of `rows` have `Valid == "Success"`. */
  function CountSuccess(rows: seq<Row>): (n: nat)
    ensures n <= |rows|
    decreases |rows|
  {
    if rows == [] then 0
    else CountSuccess(rows[..|rows| - 1]) + (if IsSuccess(rows[|rows| - 1]) then 1 else 0)
  }

  /** Row i of `rows` validated with index `startIndex + i`. */
  function ValidatedSeq(rows: seq<Row>, startIndex: nat, ctx: Context, py: Python): (r: seq<Row>)
    ensures |r| == |rows|
  {
    seq(|rows|, i requires 0 <= i < |rows| => ValidatedRow(rows[i], startIndex + i, ctx, py))
  }

  lemma ValidatedSeqStep(rows: seq<Row>, i: nat, startIndex: nat, ctx: Context, py: Python)
    requires i < |rows|
    ensures ValidatedSeq(rows[..i + 1], startIndex, ctx, py)
         == ValidatedSeq(rows[..i], startIndex, ctx, py) + [ValidatedRow(rows[i], startIndex + i, ctx, py)]
  {
    var left := ValidatedSeq(rows[..i], startIndex, ctx, py);
    var all := ValidatedSeq(rows[..i + 1], startIndex, ctx, py);
    assert forall k :: 0 <= k < i ==> all[k] == left[k];
  }

  /** `validate_chunk`: validates a slice in order and counts successes and failures. */
  method ValidateChunk(rows: seq<Row>, startIndex: nat, ctx: Context, py: Python)
    returns (validated: seq<Row>, success: nat, failure: nat)
    ensures validated == ValidatedSeq(rows, startIndex, ctx, py)
    ensures success == CountSuccess(validated)
    ensures success + failure == |rows|
  {
    validated, success, failure := [], 0, 0;
    var idx := startIndex;
    var i := 0;
    while i < |rows|
      invariant i <= |rows| && idx == startIndex + i
      invariant validated == ValidatedSeq(rows[..i], startIndex, ctx, py)
      invariant success == CountSuccess(validated) && success + failure == i
    {
      var vr := ValidateRow(rows[i], idx, ctx, py);
      assert validated + [vr] == ValidatedSeq(rows[..i + 1], startIndex, ctx, py) by {
        ValidatedSeqStep(rows, i, startIndex, ctx, py);
      }
      assert CountSuccess(validated + [vr]) == CountSuccess(validated) + (if IsSuccess(vr) then 1 else 0) by {
        assert (validated + [vr])[..|validated|] == validated;
      }
      validated := validated + [vr];
      if RowGet(vr, "Valid") == Str(SUCCESS) {
        success := success + 1;
      } else {
        failure := failure + 1;
      }
      idx := idx + 1;
      i := i + 1;
    }
    assert rows[..i] == rows;
  }

  // ---------- properties ----------

  lemma {:induction false} NormalizeKeys(row: Row)
    ensures DistinctKeys(Normalize(row))
    ensures forall k :: k in Keys(Normalize(row)) ==> Lower(k) == k
    decreases |row|
  {
    if row != [] {
      var last := row[|row| - 1];
      NormalizeKeys(row[..|row| - 1]);
      PutKeys(Normalize(row[..|row| - 1]), Lower(last.0), last.1);
      PutDistinct(Normalize(row[..|row| - 1]), Lower(last.0), last.1);
      LowerIdempotent(last.0);
    }
  }

  /** Every key of the normalised row is an input key lower-cased, and every lower-cased input key is one of them. */
  lemma {:induction false} NormalizeKeySet(row: Row)
    ensures |Normalize(row)| <= |row|
    ensures forall k :: k in Keys(Normalize(row)) <==> k in LowerKeys(row)
    decreases |row|
  {
    if row != [] {
      var n := |row| - 1;
      var init := row[..n];
      NormalizeKeySet(init);
      PutKeys(Normalize(init), Lower(row[n].0), row[n].1);
      assert LowerKeys(row) == LowerKeys(init) + [Lower(row[n].0)] by {
        assert forall j :: 0 <= j < n ==> init[j] == row[j];
      }
    }
  }

  /** The row's keys, lower-cased, in order. */
  function LowerKeys(row: Row): (r: seq<string>)
    ensures |r| == |row|
    ensures forall j :: 0 <= j < |row| ==> r[j] == Lower(row[j].0)
  {
    seq(|row|, j requires 0 <= j < |row| => Lower(row[j].0))
  }


  /** Every message of the rule loop starts with the name of the field it is about. */
  lemma FieldMessagesNameTheField(field: string, rule: Rule, v: Value, py: Python)
    ensures forall m :: m in FieldMessages(field, rule, v, py) ==> |field| < |m| && m[..|field|] == field
  {
    var ms := FieldMessages(field, rule, v, py);
    if rule.required && Blank(v) {
      NamedMessage(field, " is required");
    } else if Empty(v) {
      assert ms == [];
    } else if !Coerces(rule.typ, v, py) {
      NamedMessage(field, " invalid " + TypeName(rule.typ));
    } else {
      NamedMessage(field, " does not match pattern");
    }
  }

  /** A message made of a field name and a non-empty suffix starts with the name. */
  lemma NamedMessage(field: string, suffix: string)
    requires suffix != []
    ensures |field| < |field + suffix| && (field + suffix)[..|field|] == field
  {
  }

  /** A row whose keys are already lower-case and distinct (as the readers produce) is kept as it is. */
  lemma {:induction false} NormalizeLowerRow(row: Row)
    requires ReaderRow(row)
    ensures Normalize(row) == row
    decreases |row|
  {
    if row != [] {
      var n := |row| - 1;
      var init := row[..n];
      assert Keys(init) == Keys(row)[..n];
      NormalizeLowerRow(init);
      assert row[n].0 !in Keys(init);
      PutAbsent(init, row[n].0, row[n].1);
      assert init + [row[n]] == row;
    }
  }

  /**
   * Output shape: the lower-cased input row with `Valid` and `Remarks`
   * appended; `Valid` is "Success" exactly when there is no message, and
   * `Remarks` joins the messages with ", " or says "Validated Successfully".
   */
  lemma ValidatedRowShape(row: Row, rowIndex: nat, ctx: Context, py: Python)
    ensures var errors := Messages(row, rowIndex, ctx, py);
      && ValidatedRow(row, rowIndex, ctx, py)
         == Normalize(row) + [("Valid", Str(Verdict(errors))), ("Remarks", Str(Remarks(errors)))]
      && RowGet(ValidatedRow(row, rowIndex, ctx, py), "Valid") == Str(Verdict(errors))
      && (RowGet(ValidatedRow(row, rowIndex, ctx, py), "Valid") == Str(SUCCESS) <==> errors == [])
      && RowGet(ValidatedRow(row, rowIndex, ctx, py), "Remarks")
         == Str(if errors == [] then "Validated Successfully" else Join(errors, ", "))
  {
    var errors := Messages(row, rowIndex, ctx, py);
    var norm := Normalize(row);
    NormalizeKeys(row);
    assert Lower("Valid") != "Valid" by { assert Lower("Valid")[0] == 'v'; }
    assert Lower("Remarks") != "Remarks" by { assert Lower("Remarks")[0] == 'r'; }
    PutTwoAbsent(norm, "Valid", Str(Verdict(errors)), "Remarks", Str(Remarks(errors)));
  }

  /** A row keeps every key of its (lower-case) input with its value; Valid and Remarks follow. */
  lemma ValidatedRowExtendsInput(row: Row, rowIndex: nat, ctx: Context, py: Python)
    requires ReaderRow(row)
    ensures var out := ValidatedRow(row, rowIndex, ctx, py);
      |out| == |row| + 2 && out[..|row|] == row && out[|row|].0 == "Valid" && out[|row| + 1].0 == "Remarks"
  {
    NormalizeLowerRow(row);
    ValidatedRowShape(row, rowIndex, ctx, py);
  }

  /**
   * The rule loop's checks for one field: a blank required value gives only
   * "is required"; an empty optional value gives nothing; a failed coercion
   * gives only "invalid <type>" and skips the pattern; "str" and unknown
   * types never fail the coercion.
   */
  lemma FieldCheckOrder(field: string, rule: Rule, v: Value, py: Python)
    ensures |FieldMessages(field, rule, v, py)| <= 1
    ensures rule.required && Blank(v) ==> FieldMessages(field, rule, v, py) == [field + " is required"]
    ensures !rule.required && Empty(v) ==> FieldMessages(field, rule, v, py) == []
    ensures !(rule.required && Blank(v)) && !Empty(v) && !Coerces(rule.typ, v, py) ==>
      FieldMessages(field, rule, v, py) == [field + " invalid " + TypeName(rule.typ)]
    ensures (rule.typ.None? || rule.typ.value !in {"int", "float", "decimal", "date"}) ==> Coerces(rule.typ, v, py)
  {
  }

  /** An optional whitespace-only string is not blank-skipped: it still meets the type and pattern checks. */
  lemma WhitespaceOptionalIsChecked(field: string, rule: Rule, s: string, py: Python)
    requires !rule.required && s != [] && forall i :: 0 <= i < |s| ==> IsSpace(s[i])
    ensures FieldMessages(field, rule, Str(s), py)
      == if !Coerces(rule.typ, Str(s), py) then [field + " invalid " + TypeName(rule.typ)]
         else if rule.pattern.Some? && !py.matchesAtStart(rule.pattern.value, s) then [field + " does not match pattern"]
         else []
  {
  }

  /** The entry the row at 1-based position p finds in the index built over all records. */
  lemma DuplicateEntry(records: seq<Row>, p: nat, ctx: Context)
    requires 1 <= p <= |records| && ctx.uniqueCols != []
    requires ctx.index == IndexSpec(records, ctx.uniqueCols)
    requires ReaderRow(records[p - 1])
    ensures var key := KeyOf(records[p - 1], ctx.uniqueCols);
      var e := Lookup(ctx, KeyOf(Normalize(records[p - 1]), ctx.uniqueCols), p);
      && e.count == Occurrences(KeysOf(records, ctx.uniqueCols), key) >= 1
      && 1 <= e.first <= p && KeyOf(records[e.first - 1], ctx.uniqueCols) == key
      && forall j :: 0 <= j < e.first - 1 ==> KeyOf(records[j], ctx.uniqueCols) != key
  {
    NormalizeLowerRow(records[p - 1]);
    var ks := KeysOf(records, ctx.uniqueCols);
    assert ks[p - 1] in ks;
    OccurrencesAndFirst(ks, ks[p - 1]);
  }

  /** Without constraints, under "ignore" and under any unknown mode no row gets a duplicate message. */
  lemma NoDuplicatePolicy(norm: Row, rowIndex: nat, ctx: Context)
    requires ctx.uniqueCols == [] || ctx.mode !in {"fail_all", "keep_first"}
    ensures DuplicateMessages(norm, rowIndex, ctx) == []
  {
  }

  /** "fail_all" marks exactly the rows whose key occurs more than once among all records. */
  lemma FailAllPolicy(records: seq<Row>, p: nat, ctx: Context)
    requires 1 <= p <= |records| && ctx.uniqueCols != [] && ctx.mode == "fail_all"
    requires ctx.index == IndexSpec(records, ctx.uniqueCols)
    requires ReaderRow(records[p - 1])
    ensures DuplicateMessages(Normalize(records[p - 1]), p, ctx)
      == if Occurrences(KeysOf(records, ctx.uniqueCols), KeyOf(records[p - 1], ctx.uniqueCols)) > 1
         then [DuplicateMessage(ctx.uniqueCols)] else []
  {
    DuplicateEntry(records, p, ctx);
  }

  /** "keep_first" marks exactly the rows that have an earlier row with the same key. */
  lemma KeepFirstPolicy(records: seq<Row>, p: nat, ctx: Context)
    requires 1 <= p <= |records| && ctx.uniqueCols != [] && ctx.mode == "keep_first"
    requires ctx.index == IndexSpec(records, ctx.uniqueCols)
    requires ReaderRow(records[p - 1])
    ensures DuplicateMessages(Normalize(records[p - 1]), p, ctx)
      == if exists j :: 0 <= j < p - 1 && KeyOf(records[j], ctx.uniqueCols) == KeyOf(records[p - 1], ctx.uniqueCols)
         then [DuplicateMessage(ctx.uniqueCols)] else []
  {
    var cols := ctx.uniqueCols;
    var key := KeyOf(records[p - 1], cols);
    DuplicateEntry(records, p, ctx);
    if j :| 0 <= j < p - 1 && KeyOf(records[j], cols) == key {
      OccurrencesTwo(KeysOf(records, cols), key, j, p - 1);
    }
  }

  /** The chunk's validated rows keep their order: row i is validated with ordinal startIndex + i. */
  lemma ValidatedSeqSlice(rows: seq<Row>, a: nat, b: nat, startIndex: nat, ctx: Context, py: Python)
    requires a <= b <= |rows|
    ensures ValidatedSeq(rows[a..b], startIndex + a, ctx, py) == ValidatedSeq(rows, startIndex, ctx, py)[a..b]
  {
    var part := ValidatedSeq(rows[a..b], startIndex + a, ctx, py);
    var whole := ValidatedSeq(rows, startIndex, ctx, py);
    forall k | 0 <= k < b - a ensures part[k] == whole[a + k] {
      assert rows[a..b][k] == rows[a + k];
    }
  }

  lemma {:induction false} CountSuccessAppend(a: seq<Row>, b: seq<Row>)
    ensures CountSuccess(a + b) == CountSuccess(a) + CountSuccess(b)
    decreases |b|
  {
    if b == [] {
      assert a + b == a;
    } else {
      var n := |b| - 1;
      CountSuccessAppend(a, b[..n]);
      assert (a + b)[..|a + b| - 1] == a + b[..n];
    }
  }
}
