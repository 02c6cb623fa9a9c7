/**
 * `ExcelProcessor`: the object that enriches the rows of a spreadsheet with generated text.
 * Its methods do what the specifications of the `Enrichment` module say, step by step, against
 * the endpoint and the clock of a `Service.Environment`.
 */
module Processor {
  import opened Wrappers
  import opened Service
  import opened Retry
  import opened Frame
  import opened Prompts
  import opened Config
  import opened Enrichment

  class ExcelProcessor {
    const config: Config
    const openai: Environment
    const inputPath: string
    const outputPath: string
    const sheetName: string
    const inputColumns: seq<string>
    const outputColumns: seq<OutputColumn>
    const sleepTime: real
    const retryAttempts: int
    const retryDelay: real

    /**
     * `ExcelProcessor.__init__`: the paths and columns as configured; the sheet name "Sheet1",
     * 1 second of pacing, 3 attempts and 5 seconds between attempts when the key is absent.
     */
    constructor (config: Config, openai: Environment)
      ensures this.config == config && this.openai == openai
      ensures inputPath == config.excel.inputPath && outputPath == config.excel.outputPath
      ensures sheetName == if config.excel.sheetName.Some? then config.excel.sheetName.value else "Sheet1"
      ensures AsSettings() == SettingsOf(config)
    {
      this.config := config;
      this.openai := openai;
      inputPath := config.excel.inputPath;
      outputPath := config.excel.outputPath;
      sheetName := config.excel.sheetName.GetOr(DefaultSheetName);
      inputColumns := config.columns.input;
      outputColumns := config.columns.output;
      sleepTime := config.processing.sleepTime.GetOr(DefaultSleepTime);
      retryAttempts := config.processing.retryAttempts.GetOr(DefaultRetryAttempts);
      retryDelay := config.processing.retryDelay.GetOr(DefaultRetryDelay);
    }

    /** The attributes the enrichment of rows depends on. */
    function AsSettings(): Settings {
      Settings(inputColumns, outputColumns, sleepTime, retryAttempts, retryDelay)
    }

    /**
     * The prompt of one output column for a row: the template, then one line per input column,
     * in order. Reading an input column the row lacks raises.
     */
    method BuildPrompt(template: string, row: map<string, Cell>) returns (prompt: Result<string, Error>)
      ensures prompt.Ok? <==> Present(inputColumns, row)
      ensures prompt.Ok? ==> Present(inputColumns, row) && prompt.value == Prompt(template, inputColumns, row)
      ensures prompt.Err? ==>
        && FirstMissing(inputColumns, row) < |inputColumns|
        && prompt.error == MissingInput(inputColumns[FirstMissing(inputColumns, row)])
    {
      FirstMissingFound(inputColumns, row);
      var text := template;
      var i := 0;
      while i < |inputColumns|
        invariant 0 <= i <= |inputColumns|
        invariant Present(inputColumns[..i], row)
        invariant text == Prompt(template, inputColumns[..i], row)
      {
        var column := inputColumns[i];
        if column !in row {
          return Err(MissingInput(column));
        }
        assert inputColumns[..i + 1][..i] == inputColumns[..i];
        text := text + Line(column, row[column]);
        i := i + 1;
      }
      assert inputColumns[..i] == inputColumns;
      return Ok(text);
    }

    /**
     * The retry loop of `process_row` for one request: up to `retry_attempts` requests, stopping
     * at the first truthy completion and sleeping `retry_delay` after each falsy one; `None` when
     * the attempts are exhausted.
     */
    method RetryCompletion(prompt: string, maxTokens: int, temperature: real) returns (result: Option<string>)
      modifies openai
      ensures var run := Attempts(Request(prompt, maxTokens, temperature), openai.script, old(openai.served), retryAttempts, retryDelay);
        && result == run.output
        && openai.served == old(openai.served) + run.calls
        && openai.trace == old(openai.trace) + run.trace
    {
      ghost var req := Request(prompt, maxTokens, temperature);
      ghost var whole := Attempts(req, openai.script, openai.served, retryAttempts, retryDelay);
      ghost var start := openai.served;
      ghost var trace0 := openai.trace;
      var attempt := 1;
      while attempt <= retryAttempts
        invariant 1 <= attempt && openai.served == start + attempt - 1
        invariant var rest := Attempts(req, openai.script, openai.served, retryAttempts - attempt + 1, retryDelay);
          && whole.output == rest.output
          && whole.calls == rest.calls + attempt - 1
          && trace0 + whole.trace == openai.trace + rest.trace
        decreases retryAttempts - attempt
      {
        var content := openai.CreateCompletion(prompt, maxTokens, temperature);
        if Truthy(content) {
          return content;
        }
        openai.Sleep(retryDelay);
        attempt := attempt + 1;
      }
      return None;
    }

    /**
     * The body of `process_row`'s loop for output field `i`: its `prompt` key, `max_tokens` and
     * `temperature`, its prompt, the retry loop and the pacing sleep, the value being stored under
     * the field's label. A missing `prompt` key or a missing input column raises before any
     * request. It takes the run over the fields before `i` to the run that includes field `i`.
     */
    method ProcessField(row: map<string, Cell>, ghost start: nat, ghost trace0: seq<Event>, i: nat, generated: seq<Output>)
        returns (outputs: Result<seq<Output>, Error>)
      requires i < |outputColumns|
      requires RunRow(AsSettings(), row, openai.script, start, i).outcome == Ok(generated)
      requires openai.trace == trace0 + RunRow(AsSettings(), row, openai.script, start, i).trace
      requires openai.served == RunRow(AsSettings(), row, openai.script, start, i).served
      modifies openai
      ensures outputs == RunRow(AsSettings(), row, openai.script, start, i + 1).outcome
      ensures openai.trace == trace0 + RunRow(AsSettings(), row, openai.script, start, i + 1).trace
      ensures openai.served == RunRow(AsSettings(), row, openai.script, start, i + 1).served
    {
      var field := outputColumns[i];
      if field.config.prompt.None? {
        return Err(MissingPrompt(field.name));
      }
      var maxTokens := field.config.maxTokens.GetOr(DefaultMaxTokens);
      var temperature := field.config.temperature.GetOr(DefaultTemperature);
      var prompt := BuildPrompt(field.config.prompt.value, row);
      if prompt.Err? {
        return Err(prompt.error);
      }
      FirstMissingFound(inputColumns, row);
      ghost var p := RunRow(AsSettings(), row, openai.script, start, i);
      ghost var a := Attempts(RequestFor(AsSettings(), field.config, row), openai.script, openai.served, retryAttempts, retryDelay);
      var result := RetryCompletion(prompt.value, maxTokens, temperature);
      openai.Sleep(sleepTime);
      TraceRegroup(trace0 + p.trace, a.trace, [Sleep(sleepTime)]);
      TraceRegroup(trace0, p.trace, a.trace + [Sleep(sleepTime)]);
      return Ok(generated + [Output(field.name, result)]);
    }

    /**
     * `process_row`: every output field in configured order; the outputs are labelled by output
     * column. The first field that raises ends the row.
     */
    method ProcessRow(row: map<string, Cell>) returns (outputs: Result<seq<Output>, Error>)
      modifies openai
      ensures outputs == RunRow(AsSettings(), row, openai.script, old(openai.served), |outputColumns|).outcome
      ensures openai.trace == old(openai.trace) + RunRow(AsSettings(), row, openai.script, old(openai.served), |outputColumns|).trace
      ensures openai.served == RunRow(AsSettings(), row, openai.script, old(openai.served), |outputColumns|).served
    {
      ghost var s := AsSettings();
      ghost var start := openai.served;
      ghost var trace0 := openai.trace;
      outputs := Ok([]);
      var i := 0;
      while i < |outputColumns| && outputs.Ok?
        invariant i <= |outputColumns|
        invariant outputs == RunRow(s, row, openai.script, start, i).outcome
        invariant openai.trace == trace0 + RunRow(s, row, openai.script, start, i).trace
        invariant openai.served == RunRow(s, row, openai.script, start, i).served
      {
        outputs := ProcessField(row, start, trace0, i, outputs.value);
        i := i + 1;
      }
      if outputs.Err? {
        RowStopsAtError(s, row, openai.script, start, i, |outputColumns|);
      }
    }

    /** The write-back loop of `process_dataframe` for row `index`: `df.at[index, column] = value` for every output, in order. */
    method WriteBack(df: DataFrame, index: nat, outputs: seq<Output>)
      requires df.Valid() && index < |df.rows|
      modifies df
      ensures df.Valid() && df.Value() == WriteRow(old(df.Value()), index, outputs)
    {
      ghost var before := df.Value();
      var j := 0;
      while j < |outputs|
        invariant j <= |outputs|
        invariant df.Valid() && |df.rows| == |before.rows|
        invariant df.Value() == WriteRow(before, index, outputs[..j])
      {
        assert outputs[..j + 1][..j] == outputs[..j];
        df.SetAt(index, outputs[j].column, CellOf(outputs[j].value));
        j := j + 1;
      }
      assert outputs[..j] == outputs;
    }

    /** What `process_dataframe` does with the first `n` rows of `original`, the first request being reply `from`. */
    ghost function Pass(original: Table, from: nat, n: nat): PassRun
      requires n <= |original.rows|
    {
      RunPass(AsSettings(), ProcessRowRun(AsSettings(), openai.script), original, from, n)
    }

    /**
     * One iteration of `process_dataframe`, on row `index` as it was when the iteration started:
     * the input columns of the row are looked up, the row is processed and, when that succeeds,
     * its outputs are written back into row `index`. It takes the pass over the rows before
     * `index` to the pass that includes row `index`.
     */
    method ProcessAt(df: DataFrame, ghost original: Table, ghost from: nat, ghost trace0: seq<Event>, index: nat, row: map<string, Cell>)
        returns (error: Option<Error>)
      requires index < |original.rows| == |df.rows| && row == original.rows[index]
      requires df.Valid() && Pass(original, from, index).error.None?
      requires df.Value() == WriteRows(original, Pass(original, from, index).outputs)
      requires openai.trace == trace0 + Pass(original, from, index).trace
      requires openai.served == Pass(original, from, index).served
      modifies df, openai
      ensures df.Valid() && |df.rows| == |original.rows|
      ensures error == Pass(original, from, index + 1).error
      ensures df.Value() == WriteRows(original, Pass(original, from, index + 1).outputs)
      ensures openai.trace == trace0 + Pass(original, from, index + 1).trace
      ensures openai.served == Pass(original, from, index + 1).served
    {
      ghost var s := AsSettings();
      ghost var p := Pass(original, from, index);
      var missing := FirstMissing(inputColumns, row);
      if missing < |inputColumns| {
        assert p.trace + [] == p.trace;
        return Some(MissingInput(inputColumns[missing]));
      }
      ghost var r := RunRow(s, row, openai.script, p.served, |outputColumns|);
      assert ProcessRowRun(s, openai.script)(row, p.served) == r;
      var outcome := ProcessRow(row);
      TraceRegroup(trace0, p.trace, r.trace);
      if outcome.Err? {
        return Some(outcome.error);
      }
      WriteBack(df, index, outcome.value);
      WriteRowsNext(original, p.outputs, outcome.value);
      return None;
    }

    /**
     * `process_dataframe`: every row in order, read from the rows as they were when the iteration
     * started; a row lacking an input column raises before anything is requested for it; the
     * outputs of a row are written into that row, one cell per output column, `None` as an
     * empty cell. The table is changed in place, also when a row raises.
     */
    method ProcessDataframe(df: DataFrame) returns (error: Option<Error>)
      requires df.Valid()
      modifies df, openai
      ensures df.Valid()
      ensures error == Pass(old(df.Value()), old(openai.served), old(|df.rows|)).error
      ensures df.Value() == WriteRows(old(df.Value()), Pass(old(df.Value()), old(openai.served), old(|df.rows|)).outputs)
      ensures openai.trace == old(openai.trace) + Pass(old(df.Value()), old(openai.served), old(|df.rows|)).trace
      ensures openai.served == Pass(old(df.Value()), old(openai.served), old(|df.rows|)).served
    {
      ghost var s := AsSettings();
      ghost var script := openai.script;
      ghost var run := ProcessRowRun(s, script);
      ghost var original := df.Value();
      ghost var start := openai.served;
      ghost var trace0 := openai.trace;
      var rows := df.rows;
      var index := 0;
      while index < |rows|
        invariant index <= |rows| == |original.rows| == |df.rows| && rows == original.rows
        invariant df.Valid()
        invariant Pass(original, start, index).error.None?
        invariant df.Value() == WriteRows(original, Pass(original, start, index).outputs)
        invariant openai.trace == trace0 + Pass(original, start, index).trace
        invariant openai.served == Pass(original, start, index).served
      {
        var failure := ProcessAt(df, original, start, trace0, index, rows[index]);
        if failure.Some? {
          PassStopsAtError(s, run, original, start, index + 1, |rows|);
          return failure;
        }
        index := index + 1;
      }
      return None;
    }
  }
}
