/** The configuration `ExcelProcessor` reads, with the defaults it applies to the keys that may be absent. */
module Config {
  import opened Wrappers

  /** `columns.output.<name>`: the prompt template and the generation parameters of one output column. */
  datatype FieldConfig = FieldConfig(prompt: Option<string>, maxTokens: Option<int>, temperature: Option<real>)

  /** One entry of the `columns.output` dictionary, in its order. */
  datatype OutputColumn = OutputColumn(name: string, config: FieldConfig)

  datatype ExcelSection = ExcelSection(inputPath: string, outputPath: string, sheetName: Option<string>)
  datatype ColumnsSection = ColumnsSection(input: seq<string>, output: seq<OutputColumn>)
  datatype ProcessingSection = ProcessingSection(sleepTime: Option<real>, retryAttempts: Option<int>, retryDelay: Option<real>)

  /** The loaded configuration file; a key that may be missing is an option. */
  datatype Config = Config(excel: ExcelSection, columns: ColumnsSection, processing: ProcessingSection)

  const DefaultSheetName: string := "Sheet1"
  const DefaultSleepTime: real := 1.0
  const DefaultRetryAttempts: int := 3
  const DefaultRetryDelay: real := 5.0
  const DefaultMaxTokens: int := 50
  const DefaultTemperature: real := 0.7

  /** What the enrichment of rows depends on, once the defaults are applied. */
  datatype Settings = Settings(
    inputColumns: seq<string>,
    outputColumns: seq<OutputColumn>,
    sleepTime: real,
    retryAttempts: int,
    retryDelay: real)

  /**
   * The settings `ExcelProcessor.__init__` takes from a configuration: the input and output
   * columns as given, and `sleep_time`, `retry_attempts` and `retry_delay` as given or, when the
   * key is absent, 1 second, 3 attempts and 5 seconds.
   */
  function SettingsOf(c: Config): (s: Settings)
    ensures s.inputColumns == c.columns.input && s.outputColumns == c.columns.output
    ensures s.sleepTime == if c.processing.sleepTime.Some? then c.processing.sleepTime.value else 1.0
    ensures s.retryAttempts == if c.processing.retryAttempts.Some? then c.processing.retryAttempts.value else 3
    ensures s.retryDelay == if c.processing.retryDelay.Some? then c.processing.retryDelay.value else 5.0
  {
    Settings(
      c.columns.input,
      c.columns.output,
      c.processing.sleepTime.GetOr(DefaultSleepTime),
      c.processing.retryAttempts.GetOr(DefaultRetryAttempts),
      c.processing.retryDelay.GetOr(DefaultRetryDelay))
  }

  /** The labels of the output columns, in configured order. */
  function OutputNames(outputColumns: seq<OutputColumn>): (names: seq<string>)
    ensures |names| == |outputColumns|
    ensures forall i :: 0 <= i < |outputColumns| ==> names[i] == outputColumns[i].name
  {
    if outputColumns == [] then []
    else OutputNames(outputColumns[..|outputColumns| - 1]) + [outputColumns[|outputColumns| - 1].name]
  }
}
