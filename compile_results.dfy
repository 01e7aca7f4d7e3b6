/** `analyze_results`: one pass over the result records of a run that builds
    the table columns in lockstep, logs the rows whose predicted effect is
    not a number, and collects which labels each method name received. */
module CompileResults {
  import opened Common
  import opened Text
  import opened MethodNames

  /** A number in the `pred_effect` column; `NotNumber` is `np.nan`. */
  datatype Number = NotNumber | Num(x: real)

  /** The exceptions that escape `analyze_results` or `main`. */
  datatype Crash = KeyError(key: string) | TypeError | AttributeError | UnboundLocalError | IndexError

  /** The lists of `df_dict`. */
  datatype Columns = Columns(query: seq<Value>, name: seq<Value>, trueMethod: seq<Label>, effect: seq<Value>,
                             path: seq<Value>, predMethod: seq<Label>, predEffect: seq<Number>,
                             predMethodIni: seq<Cell>)

  /** The lists of `errors_info`. */
  datatype Errors = Errors(queryNumber: seq<nat>, query: seq<Value>, predEffect: seq<Cell>, error: seq<string>)

  const CONVERT_FAILED := "Could not convert to float"

  /** What one record contributes: the five fields read with `[]` and the
      predicted-results dictionary in force for it. */
  datatype Row = Row(query: Value, name: Value, trueMethod: Value, effect: Value, path: Value,
                     pred: map<string, Value>)

  /** `result[key]`: a `TypeError` when the record is not a dictionary, a
      `KeyError` when the key is missing. */
  function Field(result: Value, key: string): (r: Result<Value, Crash>)
    ensures r.Success? <==> result.Dict? && key in result.entries
    ensures r.Success? ==> r.value == result.entries[key]
  {
    if !result.Dict? then Failure(TypeError)
    else if key in result.entries then Success(result.entries[key])
    else Failure(KeyError(key))
  }

  /** `d.get(key, np.nan)`. */
  function Get(d: map<string, Value>, key: string): Cell {
    if key in d then Val(d[key]) else Missing
  }

  /** `result.get("result", [])`: the outer dictionary's value, `[]` when
      absent. */
  function Outer(record: map<string, Value>): Value {
    if "result" in record then record["result"] else List([])
  }

  /** The `try` around `result.get("result", []).get("final_result", [])`
      followed by `pred_results.get(...)`: a non-dictionary outer value is
      caught and the previous `pred_results` is reused (unbound on the first
      record); a non-dictionary `final_result` is not caught. */
  function PredResults(record: map<string, Value>, stale: Option<map<string, Value>>): Result<map<string, Value>, Crash> {
    var outer := Outer(record);
    if outer.Dict? then
      var inner := if "final_result" in outer.entries then outer.entries["final_result"] else List([]);
      if inner.Dict? then Success(inner.entries) else Failure(AttributeError)
    else if stale.Some? then Success(stale.value)
    else Failure(UnboundLocalError)
  }

  /** Python can use the value as a dictionary key. */
  predicate Hashable(c: Cell) {
    !(c.Val? && (c.v.List? || c.v.Dict?))
  }

  /** Everything `analyze_results` reads for one record, in the order it
      reads it, with the exceptions that stop it. */
  function ReadRow(result: Value, stale: Option<map<string, Value>>): Result<Row, Crash> {
    match Field(result, "query")
    case Failure(e) => Failure(e)
    case Success(query) =>
    match Field(result, "name")
    case Failure(e) => Failure(e)
    case Success(name) =>
    match Field(result, "method")
    case Failure(e) => Failure(e)
    case Success(trueMethod) =>
    match Field(result, "effect")
    case Failure(e) => Failure(e)
    case Success(effect) =>
    match Field(result, "dataset_path")
    case Failure(e) => Failure(e)
    case Success(path) =>
    match PredResults(result.entries, stale)
    case Failure(e) => Failure(e)
    case Success(pred) =>
      if !Hashable(Val(trueMethod)) || !Hashable(Get(pred, "method")) then Failure(TypeError)
      else Success(Row(query, name, trueMethod, effect, path, pred))
  }

  /** `float(x)`; `parse` is `float` on strings (it may accept `"nan"`).
      `None`, lists and dictionaries raise `TypeError`, shown as `None`. */
  function FloatOf(c: Cell, parse: string -> Option<Number>): Option<Number> {
    match c
    case Missing => Some(NotNumber)
    case Val(Bool(b)) => Some(Num(if b then 1.0 else 0.0))
    case Val(Int(i)) => Some(Num(i as real))
    case Val(Float(x)) => Some(Num(x))
    case Val(Str(s)) => parse(s)
    case Val(_) => None
  }

  /** The predicted-effect cell of a row. */
  function EffectCell(row: Row): Cell {
    Get(row.pred, "causal_effect")
  }

  /** The row's predicted effect does not convert to a number. */
  predicate Fails(row: Row, parse: string -> Option<Number>) {
    FloatOf(EffectCell(row), parse).None?
  }

  /** The `pred_effect` column entry of a row. */
  function EffectOf(row: Row, parse: string -> Option<Number>): Number {
    var f := FloatOf(EffectCell(row), parse);
    if f.Some? then f.value else NotNumber
  }

  /** The local state of `analyze_results` between two records. */
  datatype State = State(count: nat, columns: Columns, errors: Errors,
                         trueMapping: map<Cell, seq<Label>>, predMapping: map<Cell, seq<Label>>,
                         predResults: Option<map<string, Value>>)

  const START := State(0, Columns([], [], [], [], [], [], [], []), Errors([], [], [], []), map[], map[], None)

  /** `mapping.setdefault(key, []).append(label)`. */
  function AddLabel(mapping: map<Cell, seq<Label>>, key: Cell, l: Label): map<Cell, seq<Label>> {
    mapping[key := (if key in mapping then mapping[key] else []) + [l]]
  }

  /** What one row adds to the state: an entry in every column, an entry
      in the error log when its effect does not convert, and its labels in
      the two mappings. */
  function AddRow(st: State, row: Row, parse: string -> Option<Number>, standardize: Cell -> Label): State {
    var trueMethod := Val(row.trueMethod);
    var predMethod := Get(row.pred, "method");
    var c := st.columns;
    var columns := Columns(c.query + [row.query], c.name + [row.name],
                           c.trueMethod + [standardize(trueMethod)], c.effect + [row.effect],
                           c.path + [row.path], c.predMethod + [standardize(predMethod)],
                           c.predEffect + [EffectOf(row, parse)], c.predMethodIni + [predMethod]);
    var e := st.errors;
    var errors := if Fails(row, parse)
                  then Errors(e.queryNumber + [st.count], e.query + [row.query],
                              e.predEffect + [EffectCell(row)], e.error + [CONVERT_FAILED])
                  else e;
    State(st.count + 1, columns, errors,
          AddLabel(st.trueMapping, trueMethod, standardize(trueMethod)),
          AddLabel(st.predMapping, predMethod, standardize(predMethod)),
          Some(row.pred))
  }

  /** One iteration of the loop over the records. */
  function Step(st: State, result: Value, parse: string -> Option<Number>, standardize: Cell -> Label): Result<State, Crash> {
    match ReadRow(result, st.predResults)
    case Failure(e) => Failure(e)
    case Success(row) => Success(AddRow(st, row, parse, standardize))
  }

  /** The state after the loop has gone through `results`. */
  function AnalyzePrefix(results: seq<Value>, parse: string -> Option<Number>, standardize: Cell -> Label): Result<State, Crash>
    decreases |results|
  {
    if results == [] then Success(START)
    else
      match AnalyzePrefix(results[..|results| - 1], parse, standardize)
      case Failure(e) => Failure(e)
      case Success(st) => Step(st, results[|results| - 1], parse, standardize)
  }

  /** What `analyze_results` returns (the data frame as its columns, the
      error log) and the two mappings it prints, each list replaced by its
      set. */
  datatype Analysis = Analysis(columns: Columns, errors: Errors,
                               trueMapping: map<Cell, set<Label>>, predMapping: map<Cell, set<Label>>)

  function AsSets(mapping: map<Cell, seq<Label>>): map<Cell, set<Label>> {
    map key | key in mapping :: set l | l in mapping[key]
  }

  /** `analyze_results(results_json)` with the default keys. */
  function AnalyzeSpec(results: seq<Value>, parse: string -> Option<Number>, standardize: Cell -> Label): Result<Analysis, Crash> {
    match AnalyzePrefix(results, parse, standardize)
    case Failure(e) => Failure(e)
    case Success(st) => Success(Analysis(st.columns, st.errors, AsSets(st.trueMapping), AsSets(st.predMapping)))
  }

  /** The predicted results the record after `rows` falls back on. */
  function LastPred(rows: seq<Row>): Option<map<string, Value>> {
    if rows == [] then None else Some(rows[|rows| - 1].pred)
  }

  /** Reference reading of the records as rows, without any table: each
      record is read with the predicted results of the row before it to fall
      back on. */
  function ReadRows(results: seq<Value>): Result<seq<Row>, Crash>
    decreases |results|
  {
    if results == [] then Success([])
    else
      match ReadRows(results[..|results| - 1])
      case Failure(e) => Failure(e)
      case Success(rows) =>
        match ReadRow(results[|results| - 1], LastPred(rows))
        case Failure(e) => Failure(e)
        case Success(row) => Success(rows + [row])
  }

  /** Row `k` of the columns holds what row `row` says. */
  predicate RowAt(c: Columns, k: nat, row: Row, parse: string -> Option<Number>, standardize: Cell -> Label)
    requires k < |c.query| && k < |c.name| && k < |c.trueMethod| && k < |c.effect| && k < |c.path|
    requires k < |c.predMethod| && k < |c.predEffect| && k < |c.predMethodIni|
  {
    && c.query[k] == row.query && c.name[k] == row.name && c.effect[k] == row.effect && c.path[k] == row.path
    && c.trueMethod[k] == standardize(Val(row.trueMethod))
    && c.predMethodIni[k] == Get(row.pred, "method")
    && c.predMethod[k] == standardize(c.predMethodIni[k])
    && c.predEffect[k] == EffectOf(row, parse)
  }

  /** Every column has one entry per row, and entry `k` comes from row `k`. */
  predicate ColumnsOf(c: Columns, rows: seq<Row>, parse: string -> Option<Number>, standardize: Cell -> Label) {
    && |c.query| == |c.name| == |c.trueMethod| == |c.effect| == |c.path| == |rows|
    && |c.predMethod| == |c.predEffect| == |c.predMethodIni| == |rows|
    && forall k :: 0 <= k < |rows| ==> RowAt(c, k, rows[k], parse, standardize)
  }

  /** The error log has four lists of equal length; its query numbers are
      strictly increasing and are exactly the rows whose effect does not
      convert, each logged with its query, its raw effect and the message. */
  predicate ErrorsOf(e: Errors, rows: seq<Row>, parse: string -> Option<Number>) {
    && |e.query| == |e.predEffect| == |e.error| == |e.queryNumber|
    && (forall j :: 0 <= j < |e.queryNumber| ==>
          e.queryNumber[j] < |rows| && Fails(rows[e.queryNumber[j]], parse)
          && e.query[j] == rows[e.queryNumber[j]].query
          && e.predEffect[j] == EffectCell(rows[e.queryNumber[j]])
          && e.error[j] == CONVERT_FAILED)
    && (forall j, j' :: 0 <= j < j' < |e.queryNumber| ==> e.queryNumber[j] < e.queryNumber[j'])
    && (forall k :: 0 <= k < |rows| && Fails(rows[k], parse) ==> k in e.queryNumber)
  }

  /** Every key of a mapping lists at least one label, and every label it
      lists is the key's own label. */
  predicate OneLabelEach(m: map<Cell, seq<Label>>, standardize: Cell -> Label) {
    forall key :: key in m ==> m[key] != [] && forall i :: 0 <= i < |m[key]| ==> m[key][i] == standardize(key)
  }

  /** The loop state after `rows` is the table of those rows. */
  predicate Tabulates(st: State, rows: seq<Row>, parse: string -> Option<Number>, standardize: Cell -> Label) {
    && st.count == |rows| && st.predResults == LastPred(rows)
    && ColumnsOf(st.columns, rows, parse, standardize)
    && ErrorsOf(st.errors, rows, parse)
    && OneLabelEach(st.trueMapping, standardize) && OneLabelEach(st.predMapping, standardize)
  }

  lemma ColumnsStep(c: Columns, rows: seq<Row>, row: Row, st: State, parse: string -> Option<Number>,
                    standardize: Cell -> Label)
    requires st.columns == c && ColumnsOf(c, rows, parse, standardize)
    ensures ColumnsOf(AddRow(st, row, parse, standardize).columns, rows + [row], parse, standardize)
  {
    var c' := AddRow(st, row, parse, standardize).columns;
    var rows' := rows + [row];
    forall k | 0 <= k < |rows'|
      ensures RowAt(c', k, rows'[k], parse, standardize)
    {
      if k < |rows| {
        assert RowAt(c, k, rows[k], parse, standardize);
      }
    }
  }

  lemma ErrorsStep(e: Errors, rows: seq<Row>, row: Row, st: State, parse: string -> Option<Number>,
                   standardize: Cell -> Label)
    requires st.errors == e && st.count == |rows| && ErrorsOf(e, rows, parse)
    ensures ErrorsOf(AddRow(st, row, parse, standardize).errors, rows + [row], parse)
  {
    var e' := AddRow(st, row, parse, standardize).errors;
    var rows' := rows + [row];
    forall j | 0 <= j < |e'.queryNumber|
      ensures e'.queryNumber[j] < |rows'| && Fails(rows'[e'.queryNumber[j]], parse)
              && e'.query[j] == rows'[e'.queryNumber[j]].query
              && e'.predEffect[j] == EffectCell(rows'[e'.queryNumber[j]])
              && e'.error[j] == CONVERT_FAILED
    {
      if j < |e.queryNumber| {
        assert rows'[e.queryNumber[j]] == rows[e.queryNumber[j]];
      }
    }
    forall k | 0 <= k < |rows'| && Fails(rows'[k], parse)
      ensures k in e'.queryNumber
    {
      if k < |rows| {
        assert rows'[k] == rows[k];
        assert k in e.queryNumber;
      } else {
        assert e'.queryNumber[|e'.queryNumber| - 1] == k;
      }
    }
  }

  lemma AddLabelKeeps(m: map<Cell, seq<Label>>, key: Cell, standardize: Cell -> Label)
    requires OneLabelEach(m, standardize)
    ensures OneLabelEach(AddLabel(m, key, standardize(key)), standardize)
  {
  }

  /** One more row keeps the state a table of the rows read. */
  lemma AddRowTabulates(st: State, rows: seq<Row>, row: Row, parse: string -> Option<Number>, standardize: Cell -> Label)
    requires Tabulates(st, rows, parse, standardize)
    ensures Tabulates(AddRow(st, row, parse, standardize), rows + [row], parse, standardize)
  {
    ColumnsStep(st.columns, rows, row, st, parse, standardize);
    ErrorsStep(st.errors, rows, row, st, parse, standardize);
    AddLabelKeeps(st.trueMapping, Val(row.trueMethod), standardize);
    AddLabelKeeps(st.predMapping, Get(row.pred, "method"), standardize);
  }

  /** The loop stops exactly where reading the records as rows stops, with
      the same exception; otherwise its state is the table of the rows. */
  lemma {:induction false} AnalyzeReadsRows(results: seq<Value>, parse: string -> Option<Number>, standardize: Cell -> Label)
    ensures AnalyzePrefix(results, parse, standardize).Success? <==> ReadRows(results).Success?
    ensures AnalyzePrefix(results, parse, standardize).Failure? ==>
              ReadRows(results) == Failure(AnalyzePrefix(results, parse, standardize).error)
    ensures AnalyzePrefix(results, parse, standardize).Success? ==>
              Tabulates(AnalyzePrefix(results, parse, standardize).value, ReadRows(results).value, parse, standardize)
    decreases |results|
  {
    if results != [] {
      var init := results[..|results| - 1];
      AnalyzeReadsRows(init, parse, standardize);
      var prefix := AnalyzePrefix(init, parse, standardize);
      if prefix.Success? {
        var rows := ReadRows(init).value;
        var row := ReadRow(results[|results| - 1], prefix.value.predResults);
        if row.Success? {
          AddRowTabulates(prefix.value, rows, row.value, parse, standardize);
        }
      }
    }
  }

  /** What `analyze_results` returns is the table of the rows read: all
      columns as long as the records, entry `k` of each from record `k`,
      the error log exactly the rows whose effect does not convert, in
      increasing order; and each printed mapping gives every method name
      the single label it always receives. */
  lemma AnalyzeTable(results: seq<Value>, parse: string -> Option<Number>, standardize: Cell -> Label)
    ensures AnalyzeSpec(results, parse, standardize).Success? <==> ReadRows(results).Success?
    ensures AnalyzeSpec(results, parse, standardize).Success? ==>
              var a := AnalyzeSpec(results, parse, standardize).value;
              var rows := ReadRows(results).value;
              && |rows| == |results|
              && ColumnsOf(a.columns, rows, parse, standardize)
              && ErrorsOf(a.errors, rows, parse)
              && (forall key :: key in a.trueMapping ==> a.trueMapping[key] == {standardize(key)})
              && (forall key :: key in a.predMapping ==> a.predMapping[key] == {standardize(key)})
  {
    AnalyzeReadsRows(results, parse, standardize);
    RowsCount(results);
    var p := AnalyzePrefix(results, parse, standardize);
    if p.Success? {
      SingletonSets(p.value.trueMapping, standardize);
      SingletonSets(p.value.predMapping, standardize);
    }
  }

  lemma SingletonSets(m: map<Cell, seq<Label>>, standardize: Cell -> Label)
    requires OneLabelEach(m, standardize)
    ensures forall key :: key in AsSets(m) ==> AsSets(m)[key] == {standardize(key)}
  {
    forall key | key in AsSets(m)
      ensures AsSets(m)[key] == {standardize(key)}
    {
      assert m[key][0] in AsSets(m)[key];
    }
  }

  /** One row per record. */
  lemma {:induction false} RowsCount(results: seq<Value>)
    ensures ReadRows(results).Success? ==> |ReadRows(results).value| == |results|
    decreases |results|
  {
    if results != [] {
      RowsCount(results[..|results| - 1]);
    }
  }

  /** Each row is what its record gives with the previous row's predicted
      results to fall back on; in particular a record whose `"result"` is
      not a dictionary repeats the previous row's predicted results, and the
      first record cannot fall back on anything. */
  lemma {:induction false} RowsFromRecords(results: seq<Value>, k: nat)
    requires ReadRows(results).Success? && k < |results|
    ensures var rows := ReadRows(results).value;
            && k < |rows|
            && ReadRow(results[k], LastPred(rows[..k])) == Success(rows[k])
    decreases |results|
  {
    RowsCount(results);
    var init := results[..|results| - 1];
    RowsCount(init);
    if k < |results| - 1 {
      RowsFromRecords(init, k);
      assert ReadRows(results).value[..k] == ReadRows(init).value[..k];
    } else {
      assert ReadRows(results).value[..k] == ReadRows(init).value;
    }
  }

  /** A record whose `"result"` is not a dictionary takes its predicted
      results from the previous row; as the first record it stops the loop
      with an `UnboundLocalError`. */
  lemma StaleReuse(results: seq<Value>, k: nat)
    requires ReadRows(results).Success? && k < |results|
    requires results[k].Dict? && !Outer(results[k].entries).Dict?
    ensures |ReadRows(results).value| == |results|
    ensures k > 0 && ReadRows(results).value[k].pred == ReadRows(results).value[k - 1].pred
  {
    RowsCount(results);
    RowsFromRecords(results, k);
  }

  /** Once the loop has stopped on an exception, the result is that
      exception whatever records follow. */
  lemma {:induction false} FailureSticks(results: seq<Value>, i: nat, parse: string -> Option<Number>,
                                         standardize: Cell -> Label)
    requires i <= |results| && AnalyzePrefix(results[..i], parse, standardize).Failure?
    ensures AnalyzePrefix(results, parse, standardize) == AnalyzePrefix(results[..i], parse, standardize)
    decreases |results| - i
  {
    if i < |results| {
      assert results[..i + 1][..i] == results[..i];
      FailureSticks(results, i + 1, parse, standardize);
    } else {
      assert results[..i] == results;
    }
  }

  /** `analyze_results`, appending to the lists record by record; every
      label is `standardize_method_name`'s. */
  method AnalyzeResults(results: seq<Value>, parse: string -> Option<Number>) returns (r: Result<Analysis, Crash>)
    ensures r == AnalyzeSpec(results, parse, StandardizeMethodName)
  {
    var standardize: Cell -> Label := StandardizeMethodName;
    var df := Columns([], [], [], [], [], [], [], []);
    var errorsInfo := Errors([], [], [], []);
    var trueMapping: map<Cell, seq<Label>> := map[];
    var predMapping: map<Cell, seq<Label>> := map[];
    var predResults: Option<map<string, Value>> := None;
    var count := 0;
    for i := 0 to |results|
      invariant count == i
      invariant AnalyzePrefix(results[..i], parse, standardize)
                == Success(State(count, df, errorsInfo, trueMapping, predMapping, predResults))
    {
      assert results[..i + 1][..i] == results[..i];
      ghost var st := State(count, df, errorsInfo, trueMapping, predMapping, predResults);
      var row := ReadRow(results[i], predResults);
      if row.Failure? {
        FailureSticks(results, i + 1, parse, standardize);
        return Failure(row.error);
      }
      var rowMethod := Val(row.value.trueMethod);
      var rowPredMethod := Get(row.value.pred, "method");
      predResults := Some(row.value.pred);
      trueMapping := AddLabel(trueMapping, rowMethod, standardize(rowMethod));
      df := df.(query := df.query + [row.value.query], name := df.name + [row.value.name],
                trueMethod := df.trueMethod + [standardize(rowMethod)],
                path := df.path + [row.value.path], effect := df.effect + [row.value.effect],
                predMethod := df.predMethod + [standardize(rowPredMethod)],
                predMethodIni := df.predMethodIni + [rowPredMethod]);
      predMapping := AddLabel(predMapping, rowPredMethod, standardize(rowPredMethod));
      var converted := FloatOf(EffectCell(row.value), parse);
      if converted.Some? {
        df := df.(predEffect := df.predEffect + [converted.value]);
      } else {
        df := df.(predEffect := df.predEffect + [NotNumber]);
        errorsInfo := Errors(errorsInfo.queryNumber + [count], errorsInfo.query + [row.value.query],
                             errorsInfo.predEffect + [EffectCell(row.value)], errorsInfo.error + [CONVERT_FAILED]);
      }
      count := count + 1;
      assert State(count, df, errorsInfo, trueMapping, predMapping, predResults) == AddRow(st, row.value, parse, standardize);
    }
    assert results[..|results|] == results;
    r := Success(Analysis(df, errorsInfo, AsSets(trueMapping), AsSets(predMapping)));
  }

  /** The characters `rstrip(".json")` removes: a set, not a suffix. */
  const JSON_CHARS: set<char> := {'.', 'j', 's', 'o', 'n'}

  /** `files.rstrip(".json").split("_")` and its items 0, 1 and 2 (data
      source, prompt name, model name) as `main` writes it; `None` is the
      `IndexError` of a name with fewer than three parts. */
  function FileNamePartsAsWritten(file: string): Option<Triple> {
    var parts := Split(RStripChars(file, JSON_CHARS), '_');
    if |parts| < 3 then None else Some((parts[0], parts[1], parts[2]))
  }

  /** The reading `main` evidently intends: the `.json` suffix it has
      checked for is removed, and only it. */
  function FileNameParts(file: string): Option<Triple> {
    var stem := if EndsWith(file, ".json") then file[..|file| - 5] else file;
    var parts := Split(stem, '_');
    if |parts| < 3 then None else Some((parts[0], parts[1], parts[2]))
  }

  /** Three parts without underscores, joined by underscores, split back
      into those parts. */
  lemma SplitThree(a: string, b: string, c: string)
    requires '_' !in a && '_' !in b && '_' !in c
    ensures Split(a + "_" + b + "_" + c, '_') == [a, b, c]
  {
    assert [a, b, c][1..] == [b, c];
    assert [b, c][1..] == [c];
    assert Join([b, c], '_') == b + "_" + c;
    assert Join([a, b, c], '_') == a + "_" + (b + "_" + c);
    assert a + "_" + (b + "_" + c) == a + "_" + b + "_" + c;
    SplitJoin([a, b, c], '_');
  }

  /** A name built from three parts without underscores gives those parts
      back. */
  lemma FileNamePartsRoundTrip(source: string, prompt: string, model: string)
    requires '_' !in source && '_' !in prompt && '_' !in model
    ensures FileNameParts(source + "_" + prompt + "_" + model + ".json") == Some((source, prompt, model))
  {
    var stem := source + "_" + prompt + "_" + model;
    var file := stem + ".json";
    assert file[|file| - 5..] == ".json";
    assert file[..|file| - 5] == stem;
    SplitThree(source, prompt, model);
  }

  /** As written, the model name loses its trailing run of `.`, `j`, `s`,
      `o` and `n` together with the extension. */
  lemma AsWrittenStripsModel(source: string, prompt: string, model: string)
    requires '_' !in source && '_' !in prompt && '_' !in model
    requires RStripChars(model, JSON_CHARS) != ""
    ensures FileNamePartsAsWritten(source + "_" + prompt + "_" + model + ".json")
            == Some((source, prompt, RStripChars(model, JSON_CHARS)))
  {
    var m := RStripChars(model, JSON_CHARS);
    StrippedName(source + "_" + prompt + "_", model);
    assert '_' !in m by {
      assert m == model[..|m|];
    }
    SplitThree(source, prompt, m);
  }

  lemma StrippedName(p: string, model: string)
    requires RStripChars(model, JSON_CHARS) != ""
    ensures RStripChars(p + model + ".json", JSON_CHARS) == p + RStripChars(model, JSON_CHARS)
  {
    assert forall i :: 0 <= i < |".json"| ==> ".json"[i] in JSON_CHARS;
    RStripCharsTail(p + model, ".json", JSON_CHARS);
    RStripCharsInside(p, model, JSON_CHARS);
  }

  /** `x_y_gpt4o.json` is read as model `gpt4`, while the intended reading
      gives `gpt4o`. */
  lemma Gpt4oMisread()
    ensures FileNamePartsAsWritten("x_y_gpt4o.json") == Some(("x", "y", "gpt4"))
    ensures FileNameParts("x_y_gpt4o.json") == Some(("x", "y", "gpt4o"))
  {
    assert "x_y_gpt4o.json" == "x" + "_" + "y" + "_" + "gpt4o" + ".json";
    assert RStripChars("gpt4o", JSON_CHARS) == "gpt4";
    AsWrittenStripsModel("x", "y", "gpt4o");
    FileNamePartsRoundTrip("x", "y", "gpt4o");
  }

  /** Data source, prompt name and model name. */
  type Triple = (string, string, string)

  /** `results_all`: analyses by data source, prompt name and model name. */
  type Filed = map<string, map<string, map<string, Analysis>>>

  /** What `main` builds: `results_all[source][prompt][model]`, the analysis
      of that run, and `error_all[file]`, its error log. */
  datatype Compiled = Compiled(results: Filed, errors: map<string, Errors>)

  predicate IsJson(file: string) {
    EndsWith(file, ".json")
  }

  /** `results[source][prompt][model]` exists. */
  predicate Has(results: Filed, parts: Triple) {
    parts.0 in results && parts.1 in results[parts.0] && parts.2 in results[parts.0][parts.1]
  }

  function At(results: Filed, parts: Triple): Analysis
    requires Has(results, parts)
  {
    results[parts.0][parts.1][parts.2]
  }

  /** The three `if ... not in ...` insertions followed by
      `results_all[source][prompt][model] = df_result`. */
  function Nest(results: Filed, parts: Triple,
                an: Analysis): Filed
  {
    var bySource := if parts.0 in results then results[parts.0] else map[];
    var byPrompt := if parts.1 in bySource then bySource[parts.1] else map[];
    results[parts.0 := bySource[parts.1 := byPrompt[parts.2 := an]]]
  }

  /** A file `main` stops on: a `.json` file whose name has fewer than three
      parts, or whose records make `analyze_results` raise. */
  predicate Broken(file: string, load: string -> seq<Value>,
      nameParts: string -> Option<Triple>, analyze: seq<Value> -> Result<Analysis, Crash>) {
    IsJson(file) && (nameParts(file).None? || analyze(load(file)).Failure?)
  }

  /** `analyze_results` as a function of the records. */
  function Analyzer(parse: string -> Option<Number>, standardize: Cell -> Label): seq<Value> -> Result<Analysis, Crash> {
    results => AnalyzeSpec(results, parse, standardize)
  }

  /** One iteration of the loop over the folder: other files are skipped,
      a `.json` file is analysed and filed under its three name parts. */
  function CompileStep(c: Compiled, file: string, load: string -> seq<Value>, nameParts: string -> Option<Triple>,
                       analyze: seq<Value> -> Result<Analysis, Crash>): Result<Compiled, Crash>
  {
    if !IsJson(file) then Success(c)
    else
      match nameParts(file)
      case None => Failure(IndexError)
      case Some(parts) =>
        match analyze(load(file))
        case Failure(e) => Failure(e)
        case Success(an) => Success(Compiled(Nest(c.results, parts, an), c.errors[file := an.errors]))
  }

  /** `main` over the folder listing `files`; `load(file)` is what
      `json.load` reads from the file. */
  function CompileSpec(files: seq<string>, load: string -> seq<Value>, nameParts: string -> Option<Triple>,
                       analyze: seq<Value> -> Result<Analysis, Crash>): Result<Compiled, Crash>
    decreases |files|
  {
    if files == [] then Success(Compiled(map[], map[]))
    else
      match CompileSpec(files[..|files| - 1], load, nameParts, analyze)
      case Failure(e) => Failure(e)
      case Success(c) => CompileStep(c, files[|files| - 1], load, nameParts, analyze)
  }

  /** Once `main` has raised, the files that follow change nothing. */
  lemma {:induction false} CompileFailureSticks(files: seq<string>, i: nat, load: string -> seq<Value>,
      nameParts: string -> Option<Triple>, analyze: seq<Value> -> Result<Analysis, Crash>)
    requires i <= |files| && CompileSpec(files[..i], load, nameParts, analyze).Failure?
    ensures CompileSpec(files, load, nameParts, analyze) == CompileSpec(files[..i], load, nameParts, analyze)
    decreases |files| - i
  {
    if i < |files| {
      assert files[..i + 1][..i] == files[..i];
      CompileFailureSticks(files, i + 1, load, nameParts, analyze);
    } else {
      assert files[..i] == files;
    }
  }

  /** `main`: the loop over the folder listing. */
  method Compile(files: seq<string>, load: string -> seq<Value>, parse: string -> Option<Number>)
    returns (r: Result<Compiled, Crash>)
    ensures r == CompileSpec(files, load, FileNameParts, Analyzer(parse, StandardizeMethodName))
  {
    ghost var nameParts := FileNameParts;
    ghost var analyze := Analyzer(parse, StandardizeMethodName);
    var resultsAll: Filed := map[];
    var errorAll: map<string, Errors> := map[];
    for i := 0 to |files|
      invariant CompileSpec(files[..i], load, nameParts, analyze) == Success(Compiled(resultsAll, errorAll))
    {
      assert files[..i + 1][..i] == files[..i];
      var file := files[i];
      ghost var before := resultsAll;
      if IsJson(file) {
        var result := load(file);
        var parts := FileNameParts(file);
        assert parts == nameParts(file);
        if parts.None? {
          CompileFailureSticks(files, i + 1, load, nameParts, analyze);
          return Failure(IndexError);
        }
        var (source, prompt, model) := parts.value;
        // The three `if ... not in ...` insertions: the model's placeholder
        // `{}` is overwritten below or lost with the exception, so only the
        // two outer levels are stored.
        var bySource := if source in resultsAll then resultsAll[source] else map[];
        var byPrompt := if prompt in bySource then bySource[prompt] else map[];
        resultsAll := resultsAll[source := bySource[prompt := byPrompt]];
        var an := AnalyzeResults(result, parse);
        assert an == analyze(result);
        if an.Failure? {
          CompileFailureSticks(files, i + 1, load, nameParts, analyze);
          return Failure(an.error);
        }
        errorAll := errorAll[file := an.value.errors];
        resultsAll := resultsAll[source := bySource[prompt := byPrompt[model := an.value]]];
        assert parts.value == (source, prompt, model);
        assert resultsAll == Nest(before, parts.value, an.value);
      }
    }
    assert files[..|files|] == files;
    r := Success(Compiled(resultsAll, errorAll));
  }

  /** Filing one analysis leaves every other triple as it was. */
  lemma NestKeeps(results: Filed, parts: Triple,
                  an: Analysis, other: Triple)
    ensures Has(Nest(results, parts, an), parts) && At(Nest(results, parts, an), parts) == an
    ensures other != parts ==> (Has(Nest(results, parts, an), other) <==> Has(results, other))
    ensures other != parts && Has(results, other) ==> At(Nest(results, parts, an), other) == At(results, other)
  {
  }

  /** `main` raises exactly when the listing holds a broken `.json` file. */
  lemma {:induction false} CompileFails(files: seq<string>, load: string -> seq<Value>,
      nameParts: string -> Option<Triple>, analyze: seq<Value> -> Result<Analysis, Crash>)
    ensures CompileSpec(files, load, nameParts, analyze).Failure?
            <==> exists k :: 0 <= k < |files| && Broken(files[k], load, nameParts, analyze)
    decreases |files|
  {
    if files != [] {
      var init := files[..|files| - 1];
      CompileFails(init, load, nameParts, analyze);
      if exists k :: 0 <= k < |init| && Broken(init[k], load, nameParts, analyze) {
        var k :| 0 <= k < |init| && Broken(init[k], load, nameParts, analyze);
        assert files[k] == init[k];
      }
      if exists k :: 0 <= k < |files| && Broken(files[k], load, nameParts, analyze) {
        var k :| 0 <= k < |files| && Broken(files[k], load, nameParts, analyze);
        if k < |init| {
          assert init[k] == files[k];
        }
      }
    }
  }

  /** When `main` returns, `error_all` has exactly the `.json` files as keys,
      each with the error log of its own analysis. */
  lemma {:induction false} CompileErrors(files: seq<string>, load: string -> seq<Value>,
      nameParts: string -> Option<Triple>, analyze: seq<Value> -> Result<Analysis, Crash>)
    requires CompileSpec(files, load, nameParts, analyze).Success?
    ensures var c := CompileSpec(files, load, nameParts, analyze).value;
            forall f :: f in c.errors <==> f in files && IsJson(f)
    ensures var c := CompileSpec(files, load, nameParts, analyze).value;
            forall f :: f in c.errors ==> analyze(load(f)).Success?
                                          && c.errors[f] == analyze(load(f)).value.errors
    decreases |files|
  {
    if files != [] {
      var init := files[..|files| - 1];
      CompileErrors(init, load, nameParts, analyze);
      assert files == init + [files[|files| - 1]];
    }
  }

  /** No `.json` file after position `k` carries the same three name parts. */
  predicate LastWithParts(files: seq<string>, nameParts: string -> Option<Triple>, k: int)
    requires 0 <= k < |files|
  {
    forall j :: k < j < |files| && IsJson(files[j]) ==> nameParts(files[j]) != nameParts(files[k])
  }

  /** When `main` returns, every `.json` file is filed under its three name
      parts, and a triple holds the analysis of the last file carrying it. */
  lemma {:induction false} CompileFiles(files: seq<string>, load: string -> seq<Value>,
      nameParts: string -> Option<Triple>, analyze: seq<Value> -> Result<Analysis, Crash>, k: int)
    requires CompileSpec(files, load, nameParts, analyze).Success?
    requires 0 <= k < |files| && IsJson(files[k])
    ensures nameParts(files[k]).Some? && analyze(load(files[k])).Success?
    ensures var c := CompileSpec(files, load, nameParts, analyze).value;
            Has(c.results, nameParts(files[k]).value)
    ensures var c := CompileSpec(files, load, nameParts, analyze).value;
            LastWithParts(files, nameParts, k) ==>
              At(c.results, nameParts(files[k]).value) == analyze(load(files[k])).value
    decreases |files|
  {
    var init := files[..|files| - 1];
    var f := files[|files| - 1];
    var c0 := CompileSpec(init, load, nameParts, analyze).value;
    if k < |init| {
      assert init[k] == files[k];
      CompileFiles(init, load, nameParts, analyze, k);
      var parts := nameParts(files[k]).value;
      if LastWithParts(files, nameParts, k) {
        assert LastWithParts(init, nameParts, k);
      }
      if IsJson(f) {
        NestKeeps(c0.results, nameParts(f).value, analyze(load(f)).value, parts);
      }
    } else {
      NestKeeps(c0.results, nameParts(f).value, analyze(load(f)).value, nameParts(f).value);
    }
  }

  /** Conversely, every triple `main` files comes from some `.json` file. */
  lemma {:induction false} CompileOnlyFiles(files: seq<string>, load: string -> seq<Value>,
      nameParts: string -> Option<Triple>, analyze: seq<Value> -> Result<Analysis, Crash>,
                                            parts: Triple)
    requires CompileSpec(files, load, nameParts, analyze).Success?
    requires Has(CompileSpec(files, load, nameParts, analyze).value.results, parts)
    ensures exists k :: 0 <= k < |files| && IsJson(files[k]) && nameParts(files[k]) == Some(parts)
    decreases |files|
  {
    var init := files[..|files| - 1];
    var f := files[|files| - 1];
    var c0 := CompileSpec(init, load, nameParts, analyze).value;
    if IsJson(f) && nameParts(f) == Some(parts) {
      assert files[|files| - 1] == f;
    } else {
      if IsJson(f) {
        NestKeeps(c0.results, nameParts(f).value, analyze(load(f)).value, parts);
      }
      CompileOnlyFiles(init, load, nameParts, analyze, parts);
      var k :| 0 <= k < |init| && IsJson(init[k]) && nameParts(init[k]) == Some(parts);
      assert files[k] == init[k];
    }
  }

  /** As written, `main` files a run of the model `gpt4o` under `gpt4`; with
      the intended reading it is filed under `gpt4o`. */
  lemma Gpt4oFiledAsGpt4(load: string -> seq<Value>, analyze: seq<Value> -> Result<Analysis, Crash>)
    requires analyze(load("x_y_gpt4o.json")).Success?
    ensures CompileSpec(["x_y_gpt4o.json"], load, FileNamePartsAsWritten, analyze).Success?
    ensures Has(CompileSpec(["x_y_gpt4o.json"], load, FileNamePartsAsWritten, analyze).value.results, ("x", "y", "gpt4"))
    ensures CompileSpec(["x_y_gpt4o.json"], load, FileNameParts, analyze).Success?
    ensures Has(CompileSpec(["x_y_gpt4o.json"], load, FileNameParts, analyze).value.results, ("x", "y", "gpt4o"))
  {
    var files := ["x_y_gpt4o.json"];
    assert files[..0] == [];
    assert IsJson(files[0]) by {
      assert "x_y_gpt4o.json"[9..] == ".json";
    }
    Gpt4oMisread();
  }
}
