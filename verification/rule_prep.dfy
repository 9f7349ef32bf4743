/**
 * Rule preparation (`prep_rules_from_dict` in app/crawler/validator.py):
 * column names and unique constraints are lower-cased, the unique mode
 * defaults to "ignore", and every non-empty regex is compiled up front, so
 * a malformed pattern fails the preparation before any row is looked at.
 */
module RulePrep {
  import opened Text
  import opened Dicts
  import opened Values

  /** One entry of the document's `columns`: its `required`, `type` and `regex` keys. */
  datatype RawRule = RawRule(required: bool, typ: Option<string>, regex: Option<string>)

  /** The rules document; a None field is a key the document does not have. */
  datatype RuleDoc = RuleDoc(
    columns: Option<seq<(string, RawRule)>>,
    uniqueConstraints: Option<seq<string>>,
    uniqueMode: Option<string>,
    otherKeys: nat)

  /** A prepared rule; `pattern` is set only for a regex that compiled. */
  datatype Rule = Rule(required: bool, typ: Option<string>, pattern: Option<string>)

  /** `(rules, unique_constraints, unique_mode)`. */
  datatype Prepared = Prepared(rules: seq<(string, Rule)>, uniqueCols: seq<string>, uniqueMode: string)

  /** `"regex" in r and r["regex"]`. */
  predicate HasPattern(raw: RawRule) {
    raw.regex.Some? && raw.regex.value != ""
  }

  predicate BadPattern(raw: RawRule, py: Python) {
    HasPattern(raw) && py.compileError(raw.regex.value).Some?
  }

  function RuleOf(raw: RawRule): Rule {
    Rule(raw.required, raw.typ, if HasPattern(raw) then raw.regex else None)
  }

  function Columns(cfg: RuleDoc): seq<(string, RawRule)> {
    match cfg.columns
    case Some(cols) => cols
    case None => []
  }

  function LowerAll(names: seq<string>): (r: seq<string>)
    ensures |r| == |names|
  {
    seq(|names|, i requires 0 <= i < |names| => Lower(names[i]))
  }

  /** The `rules` dict after the loop has seen `cols`, or the first compile error. */
  function CompileAll(cols: seq<(string, RawRule)>, py: Python): Result<seq<(string, Rule)>, string>
    decreases |cols|
  {
    if cols == [] then Ok([])
    else
      var last := cols[|cols| - 1];
      match CompileAll(cols[..|cols| - 1], py)
      case Err(e) => Err(e)
      case Ok(rules) =>
        if BadPattern(last.1, py) then Err(py.compileError(last.1.regex.value).value)
        else Ok(Put(rules, Lower(last.0), RuleOf(last.1)))
  }

  function PrepSpec(cfg: RuleDoc, py: Python): Result<Prepared, string> {
    match CompileAll(Columns(cfg), py)
    case Err(e) => Err(e)
    case Ok(rules) =>
      var unique := match cfg.uniqueConstraints case Some(u) => u case None => [];
      var mode := match cfg.uniqueMode case Some(m) => m case None => "ignore";
      Ok(Prepared(rules, LowerAll(unique), Lower(mode)))
  }

  lemma {:induction false} CompileErrorPersists(cols: seq<(string, RawRule)>, i: nat, py: Python)
    requires i <= |cols| && CompileAll(cols[..i], py).Err?
    ensures CompileAll(cols, py) == CompileAll(cols[..i], py)
    decreases |cols| - i
  {
    if i < |cols| {
      assert cols[..i + 1][..i] == cols[..i];
      CompileErrorPersists(cols, i + 1, py);
    } else {
      assert cols[..i] == cols;
    }
  }

  /** `prep_rules_from_dict`: the loop over `columns` with eager compilation. */
  method PrepRulesFromDict(cfg: RuleDoc, py: Python) returns (r: Result<Prepared, string>)
    ensures r == PrepSpec(cfg, py)
  {
    var cols := Columns(cfg);
    var unique := match cfg.uniqueConstraints case Some(u) => u case None => [];
    var mode := match cfg.uniqueMode case Some(m) => m case None => "ignore";
    var uniqueCols := LowerAll(unique);
    var uniqueMode := Lower(mode);
    var rules: seq<(string, Rule)> := [];
    var i := 0;
    while i < |cols|
      invariant i <= |cols|
      invariant CompileAll(cols[..i], py) == Ok(rules)
    {
      var (field, raw) := cols[i];
      assert cols[..i + 1][..i] == cols[..i];
      if HasPattern(raw) {
        var err := py.compileError(raw.regex.value);
        if err.Some? {
          CompileErrorPersists(cols, i + 1, py);
          return Err(err.value);
        }
        rules := Put(rules, Lower(field), Rule(raw.required, raw.typ, raw.regex));
      } else {
        rules := Put(rules, Lower(field), Rule(raw.required, raw.typ, None));
      }
      i := i + 1;
    }
    assert cols[..i] == cols;
    r := Ok(Prepared(rules, uniqueCols, uniqueMode));
  }

  // ---------- properties of the prepared rules ----------

  /**
   * Preparation fails exactly when some non-empty regex does not compile,
   * and then with the error of the first such column.
   */
  lemma {:induction false} CompileFailsOnFirstBadPattern(cols: seq<(string, RawRule)>, py: Python)
    ensures CompileAll(cols, py).Err? <==> exists i :: 0 <= i < |cols| && BadPattern(cols[i].1, py)
    ensures CompileAll(cols, py).Err? ==>
      exists i :: 0 <= i < |cols| && BadPattern(cols[i].1, py) &&
        (forall j :: 0 <= j < i ==> !BadPattern(cols[j].1, py)) &&
        CompileAll(cols, py).error == py.compileError(cols[i].1.regex.value).value
    decreases |cols|
  {
    if cols != [] {
      var init := cols[..|cols| - 1];
      CompileFailsOnFirstBadPattern(init, py);
      assert forall i :: 0 <= i < |init| ==> init[i] == cols[i];
      if CompileAll(init, py).Ok? && BadPattern(cols[|cols| - 1].1, py) {
        assert forall j :: 0 <= j < |cols| - 1 ==> !BadPattern(cols[j].1, py);
      }
    }
  }

  /** The lower-cased names of the columns, in document order. */
  function FieldNames(cols: seq<(string, RawRule)>): (r: seq<string>)
    ensures |r| == |cols|
    ensures forall i :: 0 <= i < |cols| ==> r[i] == Lower(cols[i].0)
  {
    seq(|cols|, i requires 0 <= i < |cols| => Lower(cols[i].0))
  }

  /** Every prepared rule name is lower-case, names are unique, and they are exactly the lower-cased column names. */
  lemma {:induction false} CompiledNames(cols: seq<(string, RawRule)>, py: Python)
    requires CompileAll(cols, py).Ok?
    ensures DistinctKeys(CompileAll(cols, py).value)
    ensures forall k :: k in Keys(CompileAll(cols, py).value) ==> Lower(k) == k
    ensures forall k :: k in Keys(CompileAll(cols, py).value) <==> k in FieldNames(cols)
    decreases |cols|
  {
    if cols != [] {
      var init := cols[..|cols| - 1];
      var last := cols[|cols| - 1];
      var key := Lower(last.0);
      CompiledNames(init, py);
      var rules0 := CompileAll(init, py).value;
      var rules := CompileAll(cols, py).value;
      assert rules == Put(rules0, key, RuleOf(last.1));
      PutKeys(rules0, key, RuleOf(last.1));
      PutDistinct(rules0, key, RuleOf(last.1));
      LowerIdempotent(last.0);
      assert forall k :: k in Keys(rules) <==> k in Keys(rules0) || k == key;
      FieldNamesOfLast(cols);
    }
  }

  /** One more column adds its lower-cased name to the field names. */
  lemma FieldNamesOfLast(cols: seq<(string, RawRule)>)
    requires cols != []
    ensures forall k :: k in FieldNames(cols) <==> k in FieldNames(cols[..|cols| - 1]) || k == Lower(cols[|cols| - 1].0)
  {
    var init := cols[..|cols| - 1];
    assert FieldNames(cols) == FieldNames(init) + [Lower(cols[|cols| - 1].0)] by {
      assert forall i :: 0 <= i < |init| ==> init[i] == cols[i];
    }
  }

  /**
   * The rule stored under a column's lower-cased name is that column's own
   * rule, with its pattern attached only when its regex is non-empty, unless
   * a later column lower-cases to the same name (the later one wins).
   */
  lemma {:induction false} CompiledRuleOfColumn(cols: seq<(string, RawRule)>, i: nat, py: Python)
    requires i < |cols| && CompileAll(cols, py).Ok?
    requires forall j :: i < j < |cols| ==> Lower(cols[j].0) != Lower(cols[i].0)
    ensures Find(CompileAll(cols, py).value, Lower(cols[i].0)) == Some(RuleOf(cols[i].1))
    decreases |cols|
  {
    var init := cols[..|cols| - 1];
    var last := cols[|cols| - 1];
    var rules0 := CompileAll(init, py).value;
    PutFind(rules0, Lower(last.0), RuleOf(last.1), Lower(cols[i].0));
    if i < |cols| - 1 {
      CompiledRuleOfColumn(init, i, py);
    }
  }

  /** Preparation fails exactly when some non-empty regex does not compile; otherwise the rules sit under the lower-cased column names. */
  lemma PrepSpecOutcome(cfg: RuleDoc, py: Python)
    ensures PrepSpec(cfg, py).Err? <==> exists i :: 0 <= i < |Columns(cfg)| && BadPattern(Columns(cfg)[i].1, py)
    ensures PrepSpec(cfg, py).Ok? ==> forall k :: k in Keys(PrepSpec(cfg, py).value.rules) <==> k in FieldNames(Columns(cfg))
  {
    CompileFailsOnFirstBadPattern(Columns(cfg), py);
    if CompileAll(Columns(cfg), py).Ok? {
      CompiledNames(Columns(cfg), py);
    }
  }

  /** The prepared unique constraints and mode are lower-cased; the mode defaults to "ignore". */
  lemma PreparedNamesAreLowered(cfg: RuleDoc, py: Python)
    requires PrepSpec(cfg, py).Ok?
    ensures var p := PrepSpec(cfg, py).value;
      && (forall c :: c in p.uniqueCols ==> Lower(c) == c)
      && Lower(p.uniqueMode) == p.uniqueMode
      && (cfg.uniqueMode.None? ==> p.uniqueMode == "ignore")
      && (cfg.uniqueConstraints.None? ==> p.uniqueCols == [])
  {
    var p := PrepSpec(cfg, py).value;
    forall c | c in p.uniqueCols ensures Lower(c) == c {
      var i :| 0 <= i < |p.uniqueCols| && p.uniqueCols[i] == c;
      var u := match cfg.uniqueConstraints case Some(u) => u case None => [];
      LowerIdempotent(u[i]);
    }
    var m := match cfg.uniqueMode case Some(m) => m case None => "ignore";
    LowerIdempotent(m);
  }
}
