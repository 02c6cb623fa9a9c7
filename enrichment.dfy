/**
 * What `ExcelProcessor.process_row` and `ExcelProcessor.process_dataframe` do, as functions of
 * the settings, the table and the script of replies: the values generated, the events in
 * order, the number of requests made and the table that results.
 */
module Enrichment {
  import opened Wrappers
  import opened Service
  import opened Retry
  import opened Frame
  import opened Prompts
  import opened Config

  /** The exceptions that escape a row: a `KeyError` on an input column or on a field's `prompt` key. */
  datatype Error = MissingInput(column: string) | MissingPrompt(column: string)

  datatype FieldRun = FieldRun(outcome: Result<Option<string>, Error>, trace: seq<Event>, served: nat)
  datatype RowRun = RowRun(outcome: Result<seq<Output>, Error>, trace: seq<Event>, served: nat)
  datatype PassRun = PassRun(error: Option<Error>, outputs: seq<seq<Output>>, trace: seq<Event>, served: nat)

  /** The request of an output field for a row: its prompt, and its `max_tokens` and `temperature` or their defaults. */
  function RequestFor(s: Settings, field: FieldConfig, row: map<string, Cell>): (r: Request)
    requires field.prompt.Some? && Present(s.inputColumns, row)
    ensures r.prompt == Prompt(field.prompt.value, s.inputColumns, row)
    ensures r.maxTokens == if field.maxTokens.Some? then field.maxTokens.value else 50
    ensures r.temperature == if field.temperature.Some? then field.temperature.value else 0.7
  {
    Request(Prompt(field.prompt.value, s.inputColumns, row),
            field.maxTokens.GetOr(DefaultMaxTokens), field.temperature.GetOr(DefaultTemperature))
  }

  /**
   * One output field of `process_row` for a row, requests answered from reply number `from` on:
   * its `prompt` key, then its prompt from the input columns (a missing key or column raises
   * before any request), then the retry run and the pacing sleep.
   */
  function RunField(s: Settings, field: OutputColumn, row: map<string, Cell>, script: nat -> Option<string>, from: nat): FieldRun {
    if field.config.prompt.None? then
      FieldRun(Err(MissingPrompt(field.name)), [], from)
    else
      var m := FirstMissing(s.inputColumns, row);
      if m < |s.inputColumns| then
        FieldRun(Err(MissingInput(s.inputColumns[m])), [], from)
      else
        FirstMissingFound(s.inputColumns, row);
        var a := Attempts(RequestFor(s, field.config, row), script, from, s.retryAttempts, s.retryDelay);
        FieldRun(Ok(a.output), a.trace + [Sleep(s.sleepTime)], from + a.calls)
  }

  /**
   * A field raises exactly when its `prompt` key or an input column of the row is missing, and
   * then it has made no request and has not slept.
   */
  lemma FieldFails(s: Settings, field: OutputColumn, row: map<string, Cell>, script: nat -> Option<string>, from: nat)
    ensures var f := RunField(s, field, row, script, from);
      && (f.outcome.Err? <==> field.config.prompt.None? || !Present(s.inputColumns, row))
      && (f.outcome.Err? ==> f.trace == [] && f.served == from)
  {
    FirstMissingFound(s.inputColumns, row);
  }

  /** A field that does not raise stores what its retry run stores: the first truthy completion, never an empty string, or `None`. */
  lemma FieldStores(s: Settings, field: OutputColumn, row: map<string, Cell>, script: nat -> Option<string>, from: nat)
    requires field.config.prompt.Some? && Present(s.inputColumns, row)
    ensures var f := RunField(s, field, row, script, from);
      && f.outcome.Ok?
      && f.outcome.value == Attempts(RequestFor(s, field.config, row), script, from, s.retryAttempts, s.retryDelay).output
      && (f.outcome.value.Some? ==> f.outcome.value.value != "")
  {
    FirstMissingFound(s.inputColumns, row);
    AttemptsOutcome(RequestFor(s, field.config, row), script, from, s.retryAttempts, s.retryDelay);
  }

  /**
   * The events of a field that does not raise: requests for its prompt alternating with
   * `retry_delay` sleeps (one after every failed request), at most `retry_attempts` requests, and
   * exactly one `sleep_time` sleep, last, whatever the outcome.
   */
  lemma FieldShape(s: Settings, field: OutputColumn, row: map<string, Cell>, script: nat -> Option<string>, from: nat)
    requires field.config.prompt.Some? && Present(s.inputColumns, row)
    ensures var f := RunField(s, field, row, script, from);
      var calls := f.served - from;
      var req := RequestFor(s, field.config, row);
      && f.outcome.Ok? && f.served >= from
      && calls <= Max0(s.retryAttempts)
      && |f.trace| == 2 * calls + (if f.outcome.value.Some? then 0 else 1)
      && f.trace[|f.trace| - 1] == Sleep(s.sleepTime)
      && (forall k :: 0 <= k < |f.trace| - 1 ==> f.trace[k] == if k % 2 == 0 then Call(req) else Sleep(s.retryDelay))
      && Calls(f.trace) == calls
  {
    FirstMissingFound(s.inputColumns, row);
    var req := RequestFor(s, field.config, row);
    var a := Attempts(req, script, from, s.retryAttempts, s.retryDelay);
    AttemptsBound(req, script, from, s.retryAttempts, s.retryDelay);
    AttemptsTrace(req, script, from, s.retryAttempts, s.retryDelay);
    AttemptsCalls(req, script, from, s.retryAttempts, s.retryDelay);
    CallsAppend(a.trace, [Sleep(s.sleepTime)]);
    assert [Sleep(s.sleepTime)][..0] == [];
    var f := RunField(s, field, row, script, from);
    assert f.trace == a.trace + [Sleep(s.sleepTime)] && f.served == from + a.calls;
    forall k | 0 <= k < |f.trace| - 1
      ensures f.trace[k] == if k % 2 == 0 then Call(req) else Sleep(s.retryDelay)
    {
      assert f.trace[k] == a.trace[k];
    }
  }

  /**
   * `process_row` over the first `n` output fields, requests answered from reply number `from` on:
   * the fields in configured order, each output recorded under the field's label, until a field
   * raises.
   */
  function RunRow(s: Settings, row: map<string, Cell>, script: nat -> Option<string>, from: nat, n: nat): (r: RowRun)
    requires n <= |s.outputColumns|
    ensures r.served >= from
  {
    if n == 0 then
      RowRun(Ok([]), [], from)
    else
      var p := RunRow(s, row, script, from, n - 1);
      if p.outcome.Err? then p
      else
        var field := s.outputColumns[n - 1];
        var f := RunField(s, field, row, script, p.served);
        match f.outcome
        case Err(e) => RowRun(Err(e), p.trace, p.served)
        case Ok(v) => RowRun(Ok(p.outcome.value + [Output(field.name, v)]), p.trace + f.trace, f.served)
  }

  /** Once a field raises, the rest of the row is skipped: the run stays as it was at the failure. */
  lemma {:induction false} RowStopsAtError(s: Settings, row: map<string, Cell>, script: nat -> Option<string>, from: nat, i: nat, n: nat)
    requires i <= n <= |s.outputColumns| && RunRow(s, row, script, from, i).outcome.Err?
    ensures RunRow(s, row, script, from, n) == RunRow(s, row, script, from, i)
    decreases n
  {
    if n > i {
      RowStopsAtError(s, row, script, from, i, n - 1);
    }
  }

  /**
   * A row fails exactly when one of its fields lacks a prompt, or when there is a field to process
   * and the row lacks an input column.
   */
  lemma {:induction false} RowSucceeds(s: Settings, row: map<string, Cell>, script: nat -> Option<string>, from: nat, n: nat)
    requires n <= |s.outputColumns|
    ensures RunRow(s, row, script, from, n).outcome.Ok?
        <==> (forall i :: 0 <= i < n ==> s.outputColumns[i].config.prompt.Some?) && (n == 0 || Present(s.inputColumns, row))
  {
    if n > 0 {
      var p := RunRow(s, row, script, from, n - 1);
      RowSucceeds(s, row, script, from, n - 1);
      FieldFails(s, s.outputColumns[n - 1], row, script, p.served);
    }
  }

  /** A row that succeeds yields one entry per output field, labelled by the fields in configured order. */
  lemma {:induction false} RowLabels(s: Settings, row: map<string, Cell>, script: nat -> Option<string>, from: nat, n: nat)
    requires n <= |s.outputColumns|
    ensures var r := RunRow(s, row, script, from, n);
      r.outcome.Ok? ==> Names(r.outcome.value) == OutputNames(s.outputColumns[..n])
  {
    var r := RunRow(s, row, script, from, n);
    if n > 0 && r.outcome.Ok? {
      var p := RunRow(s, row, script, from, n - 1);
      var field := s.outputColumns[n - 1];
      RowLabels(s, row, script, from, n - 1);
      assert r.outcome.value == p.outcome.value + [Output(field.name, RunField(s, field, row, script, p.served).outcome.value)];
      assert s.outputColumns[..n][..n - 1] == s.outputColumns[..n - 1];
      assert OutputNames(s.outputColumns[..n]) == OutputNames(s.outputColumns[..n - 1]) + [field.name];
    }
  }

  /** Every value a successful row stores is `None` or a non-empty string. */
  lemma {:induction false} RowValues(s: Settings, row: map<string, Cell>, script: nat -> Option<string>, from: nat, n: nat)
    requires n <= |s.outputColumns|
    ensures var r := RunRow(s, row, script, from, n);
      r.outcome.Ok? ==>
        forall i :: 0 <= i < |r.outcome.value| && r.outcome.value[i].value.Some? ==> r.outcome.value[i].value.value != ""
  {
    var r := RunRow(s, row, script, from, n);
    if n > 0 && r.outcome.Ok? {
      var p := RunRow(s, row, script, from, n - 1);
      var field := s.outputColumns[n - 1];
      var f := RunField(s, field, row, script, p.served);
      RowValues(s, row, script, from, n - 1);
      FieldFails(s, field, row, script, p.served);
      FieldStores(s, field, row, script, p.served);
      assert r.outcome.value == p.outcome.value + [Output(field.name, f.outcome.value)];
    }
  }

  /**
   * The requests of a row are counted by the replies it uses, and there are at most `retry_attempts`
   * of them per output field.
   */
  lemma {:induction false} RowCalls(s: Settings, row: map<string, Cell>, script: nat -> Option<string>, from: nat, n: nat)
    requires n <= |s.outputColumns|
    ensures var r := RunRow(s, row, script, from, n);
      && Calls(r.trace) == r.served - from
      && r.served - from <= n * Max0(s.retryAttempts)
  {
    if n > 0 {
      RowCalls(s, row, script, from, n - 1);
      var p := RunRow(s, row, script, from, n - 1);
      var field := s.outputColumns[n - 1];
      var f := RunField(s, field, row, script, p.served);
      FieldFails(s, field, row, script, p.served);
      if p.outcome.Ok? && f.outcome.Ok? {
        FieldShape(s, field, row, script, p.served);
        CallsAppend(p.trace, f.trace);
        assert n * Max0(s.retryAttempts) == (n - 1) * Max0(s.retryAttempts) + Max0(s.retryAttempts);
      }
    }
  }

  /**
   * With `retry_attempts <= 0` no request is ever made: every output is `None` and the row only
   * sleeps `sleep_time` once per field.
   */
  lemma {:induction false} RowWithoutAttempts(s: Settings, row: map<string, Cell>, script: nat -> Option<string>, from: nat, n: nat)
    requires n <= |s.outputColumns| && s.retryAttempts <= 0
    ensures var r := RunRow(s, row, script, from, n);
      && r.served == from
      && (r.outcome.Ok? ==>
            && r.trace == seq(n, _ => Sleep(s.sleepTime))
            && forall i :: 0 <= i < |r.outcome.value| ==> r.outcome.value[i].value.None?)
  {
    if n > 0 {
      RowWithoutAttempts(s, row, script, from, n - 1);
    }
  }

  /** `self.process_row` as `process_dataframe` sees it: a row and the number of replies used so far give that row's run. */
  type RowRunner = (map<string, Cell>, nat) -> RowRun

  /** `process_row` over every output column, as a row runner. */
  function ProcessRowRun(s: Settings, script: nat -> Option<string>): RowRunner {
    (row: map<string, Cell>, from: nat) => RunRow(s, row, script, from, |s.outputColumns|)
  }

  /** Every output column has a `prompt` key. */
  predicate Prompted(s: Settings) {
    forall i :: 0 <= i < |s.outputColumns| ==> s.outputColumns[i].config.prompt.Some?
  }

  /**
   * What `process_dataframe` relies on from one row's run started at reply `from`: it fails exactly
   * on a missing prompt key or a missing input column, a success has one entry per output column in
   * configured order, and its requests are the replies it used, at most `retry_attempts` per column.
   */
  ghost predicate RowContract(s: Settings, row: map<string, Cell>, from: nat, r: RowRun) {
    && r.served >= from
    && Calls(r.trace) == r.served - from
    && r.served - from <= |s.outputColumns| * Max0(s.retryAttempts)
    && (r.outcome.Ok? <==> Prompted(s) && (|s.outputColumns| == 0 || Present(s.inputColumns, row)))
    && (r.outcome.Ok? ==> Names(r.outcome.value) == OutputNames(s.outputColumns))
  }

  ghost predicate Sound(s: Settings, run: RowRunner) {
    forall row, from {:trigger RowContract(s, row, from, run(row, from))} :: RowContract(s, row, from, run(row, from))
  }

  /** A sound row runner keeps the contract on every row. */
  lemma RunnerKeeps(s: Settings, run: RowRunner, row: map<string, Cell>, from: nat)
    requires Sound(s, run)
    ensures RowContract(s, row, from, run(row, from))
  {
  }

  /** A run of `process_row` over every output column keeps the contract `process_dataframe` relies on. */
  lemma RowKeeps(s: Settings, row: map<string, Cell>, script: nat -> Option<string>, from: nat)
    ensures RowContract(s, row, from, RunRow(s, row, script, from, |s.outputColumns|))
  {
    var n := |s.outputColumns|;
    assert s.outputColumns[..n] == s.outputColumns;
    RowSucceeds(s, row, script, from, n);
    RowLabels(s, row, script, from, n);
    RowCalls(s, row, script, from, n);
  }

  /** `process_row` keeps the contract `process_dataframe` relies on. */
  lemma ProcessRowSound(s: Settings, script: nat -> Option<string>)
    ensures Sound(s, ProcessRowRun(s, script))
  {
    forall row, from
      ensures RowContract(s, row, from, ProcessRowRun(s, script)(row, from))
    {
      RowKeeps(s, row, script, from);
    }
  }

  /**
   * One row of a pass: `row[self.input_columns]` raises on a missing input column before anything
   * is requested for the row; otherwise the row is processed.
   */
  function PassRow(s: Settings, run: RowRunner, row: map<string, Cell>, from: nat): RowRun {
    var m := FirstMissing(s.inputColumns, row);
    if m < |s.inputColumns| then RowRun(Err(MissingInput(s.inputColumns[m])), [], from) else run(row, from)
  }

  /**
   * `process_dataframe` over the first `n` rows of the table, in order, with `run` as
   * `process_row`: each row is read from the table as it was when the iteration started, and a
   * missing input column raises before `process_row` is called. The outputs of the rows processed
   * are listed in row order; they are written back as `WriteRows` says.
   */
  function RunPass(s: Settings, run: RowRunner, original: Table, from: nat, n: nat): (p: PassRun)
    requires n <= |original.rows|
    ensures |p.outputs| <= n && (p.error.None? ==> |p.outputs| == n)
  {
    if n == 0 then
      PassRun(None, [], [], from)
    else
      var p := RunPass(s, run, original, from, n - 1);
      if p.error.Some? then p
      else
        var r := PassRow(s, run, original.rows[n - 1], p.served);
        match r.outcome
        case Err(e) => PassRun(Some(e), p.outputs, p.trace + r.trace, r.served)
        case Ok(outputs) => PassRun(None, p.outputs + [outputs], p.trace + r.trace, r.served)
  }

  /** The table `process_dataframe` leaves: the original one with the outputs of the rows processed written back. */
  function PassTable(s: Settings, run: RowRunner, original: Table, from: nat, n: nat): (t: Table)
    requires n <= |original.rows|
    ensures |t.rows| == |original.rows|
  {
    WriteRows(original, RunPass(s, run, original, from, n).outputs)
  }

  /** Once a row raises, the rest of the table is skipped: the pass stays as it was at the failure. */
  lemma {:induction false} PassStopsAtError(s: Settings, run: RowRunner, original: Table, from: nat, i: nat, n: nat)
    requires i <= n <= |original.rows| && RunPass(s, run, original, from, i).error.Some?
    ensures RunPass(s, run, original, from, n) == RunPass(s, run, original, from, i)
    decreases n
  {
    if n > i {
      PassStopsAtError(s, run, original, from, i, n - 1);
    }
  }

  /** Every processed row has produced one entry per output column, labelled in configured order. */
  lemma {:induction false} PassOutputs(s: Settings, run: RowRunner, original: Table, from: nat, n: nat)
    requires Sound(s, run) && n <= |original.rows|
    ensures Labelled(RunPass(s, run, original, from, n).outputs, OutputNames(s.outputColumns))
  {
    if n > 0 {
      var p := RunPass(s, run, original, from, n);
      var q := RunPass(s, run, original, from, n - 1);
      PassOutputs(s, run, original, from, n - 1);
      var row := original.rows[n - 1];
      RunnerKeeps(s, run, row, q.served);
      if p.outputs != q.outputs {
        var r := run(row, q.served);
        assert p.outputs == q.outputs + [r.outcome.value];
      }
    }
  }

  /** The table a pass leaves is well formed, and it has as many rows as the original, in the same order. */
  lemma PassTableWellFormed(s: Settings, run: RowRunner, original: Table, from: nat, n: nat)
    requires WellFormed(original) && n <= |original.rows|
    ensures WellFormed(PassTable(s, run, original, from, n))
    ensures |PassTable(s, run, original, from, n).rows| == |original.rows|
  {
    WriteRowsWellFormed(original, RunPass(s, run, original, from, n).outputs);
  }

  /**
   * The columns a pass leaves (distinct output labels, as a dictionary has): the original ones,
   * followed, once a row was written back, by the output labels that were not among them.
   */
  lemma PassColumns(s: Settings, run: RowRunner, original: Table, from: nat, n: nat)
    requires Sound(s, run) && n <= |original.rows| && Distinct(OutputNames(s.outputColumns))
    ensures var p := RunPass(s, run, original, from, n);
      PassTable(s, run, original, from, n).columns
        == if p.outputs == [] then original.columns
           else original.columns + NewColumns(original.columns, OutputNames(s.outputColumns))
  {
    PassOutputs(s, run, original, from, n);
    WriteRowsColumns(original, RunPass(s, run, original, from, n).outputs, OutputNames(s.outputColumns));
  }

  /**
   * What a pass leaves in each cell: every row processed holds its own output under each output
   * label (`None` as an empty cell); every other cell of an original column keeps its value; the
   * rows not processed are empty in an appended column.
   */
  lemma PassAt(s: Settings, run: RowRunner, original: Table, from: nat, n: nat, k: nat, d: string)
    requires Sound(s, run) && WellFormed(original) && n <= |original.rows| && k < |original.rows|
    requires var p := RunPass(s, run, original, from, n);
      d in original.columns || (p.outputs != [] && d in OutputNames(s.outputColumns))
    ensures var p := RunPass(s, run, original, from, n);
      var t := PassTable(s, run, original, from, n);
      && Labelled(p.outputs, OutputNames(s.outputColumns))
      && d in t.rows[k]
      && t.rows[k][d] == if k < |p.outputs| && d in OutputNames(s.outputColumns) then CellOf(ValueOf(p.outputs[k], d))
                         else if d in original.columns then original.rows[k][d] else Null
  {
    var p := RunPass(s, run, original, from, n);
    PassOutputs(s, run, original, from, n);
    WriteRowsAt(original, p.outputs, OutputNames(s.outputColumns), k, d);
  }

  /**
   * Each processed row holds, under the label of output column `i`, the value generated for that
   * column (`None` as an empty cell), when the output labels are distinct, as a dictionary has them.
   */
  lemma PassCell(s: Settings, run: RowRunner, original: Table, from: nat, n: nat, k: nat, i: nat)
    requires Sound(s, run) && WellFormed(original) && n <= |original.rows| && Distinct(OutputNames(s.outputColumns))
    requires k < |RunPass(s, run, original, from, n).outputs| && i < |s.outputColumns|
    ensures var p := RunPass(s, run, original, from, n);
      && i < |p.outputs[k]| && p.outputs[k][i].column == s.outputColumns[i].name
      && s.outputColumns[i].name in PassTable(s, run, original, from, n).rows[k]
      && PassTable(s, run, original, from, n).rows[k][s.outputColumns[i].name] == CellOf(p.outputs[k][i].value)
  {
    var p := RunPass(s, run, original, from, n);
    var names := OutputNames(s.outputColumns);
    var d := s.outputColumns[i].name;
    assert names[i] == d;
    PassAt(s, run, original, from, n, k, d);
    assert Names(p.outputs[k]) == names;
    ValueOfEntry(p.outputs[k], i);
  }

  /** Every row of the table has the same labels, so whether the input columns are present does not depend on the row. */
  lemma SameLabelsPresent(t: Table, columns: seq<string>, k: nat)
    requires WellFormed(t) && 0 < |t.rows| && k < |t.rows|
    ensures Present(columns, t.rows[k]) <==> Present(columns, t.rows[0])
  {
    assert t.rows[k].Keys == t.rows[0].Keys;
  }

  /** A pass that got past its first row found every input column in it and a prompt for every output column. */
  lemma {:induction false} PassFirstRowPassed(s: Settings, run: RowRunner, original: Table, from: nat, n: nat)
    requires Sound(s, run) && 0 < n <= |original.rows|
    ensures var p := RunPass(s, run, original, from, n);
      p.error.None? ==> Present(s.inputColumns, original.rows[0]) && Prompted(s)
  {
    var p := RunPass(s, run, original, from, n);
    if p.error.None? {
      if n > 1 {
        PassFirstRowPassed(s, run, original, from, n - 1);
      } else {
        var row := original.rows[0];
        FirstMissingFound(s.inputColumns, row);
        RunnerKeeps(s, run, row, from);
      }
    }
  }

  /**
   * A pass that raises does so on its first row, before anything is written back: no row's
   * outputs were produced and the table is the original one.
   */
  lemma {:induction false} PassFailsBeforeWriting(s: Settings, run: RowRunner, original: Table, from: nat, n: nat)
    requires Sound(s, run) && WellFormed(original) && n <= |original.rows|
    ensures var p := RunPass(s, run, original, from, n);
      p.error.Some? ==> p.outputs == [] && PassTable(s, run, original, from, n) == original
  {
    var p := RunPass(s, run, original, from, n);
    if n > 0 && p.error.Some? {
      var q := RunPass(s, run, original, from, n - 1);
      PassFailsBeforeWriting(s, run, original, from, n - 1);
      if q.error.None? && n > 1 {
        PassFirstRowPassed(s, run, original, from, n - 1);
        var row := original.rows[n - 1];
        SameLabelsPresent(original, s.inputColumns, n - 1);
        FirstMissingFound(s.inputColumns, row);
        RunnerKeeps(s, run, row, q.served);
        assert false;
      }
    }
  }

  /** Arithmetic of the bound on the requests of a pass: one more row adds at most one row's worth. */
  lemma StepBound(n: nat, perRow: nat, before: int, added: int)
    requires n > 0 && before <= (n - 1) * perRow && added <= perRow
    ensures before + added <= n * perRow
  {
    assert n * perRow == (n - 1) * perRow + perRow;
  }

  /** One more row of a pass adds that row's events and replies, unless an earlier row raised. */
  lemma PassStep(s: Settings, run: RowRunner, original: Table, from: nat, n: nat)
    requires 0 < n <= |original.rows|
    ensures var q := RunPass(s, run, original, from, n - 1);
      var p := RunPass(s, run, original, from, n);
      var r := PassRow(s, run, original.rows[n - 1], q.served);
      && (q.error.Some? ==> p == q)
      && (q.error.None? ==> p.trace == q.trace + r.trace && p.served == r.served)
  {
  }

  /**
   * The requests of a pass are counted by the replies it uses: at most `retry_attempts` per output
   * column per row.
   */
  lemma {:induction false} PassCalls(s: Settings, run: RowRunner, original: Table, from: nat, n: nat)
    requires Sound(s, run) && n <= |original.rows|
    ensures var p := RunPass(s, run, original, from, n);
      && p.served >= from
      && Calls(p.trace) == p.served - from
      && p.served - from <= n * (|s.outputColumns| * Max0(s.retryAttempts))
  {
    if n > 0 {
      var q := RunPass(s, run, original, from, n - 1);
      PassCalls(s, run, original, from, n - 1);
      PassStep(s, run, original, from, n);
      var row := original.rows[n - 1];
      var perRow := |s.outputColumns| * Max0(s.retryAttempts);
      if q.error.None? {
        var r := PassRow(s, run, row, q.served);
        if FirstMissing(s.inputColumns, row) == |s.inputColumns| {
          RunnerKeeps(s, run, row, q.served);
        } else {
          assert Calls(r.trace) == 0;
        }
        CallsAppend(q.trace, r.trace);
        StepBound(n, perRow, q.served - from, r.served - q.served);
      } else {
        StepBound(n, perRow, q.served - from, 0);
      }
    }
  }
}
