# Excel enrichment with OpenAI completions, in Dafny

This project models the core of `scripts/process_excel.py`. That script reads a spreadsheet. For
every row and every configured output column, it builds a prompt from the row's input columns. It
asks a chat-completion endpoint for text and writes the generated text back into the row.

What is modelled:

- `ExcelProcessor.__init__` reads the configuration and applies its defaults: sheet `"Sheet1"`,
  1 second of pacing, 3 attempts and 5 seconds between attempts.
- `process_row` handles the output fields in configured order. For each field:
  - The `prompt` key is required; a missing one raises `KeyError`. `max_tokens` defaults to 50 and
    `temperature` to 0.7.
  - The prompt is the template followed by one line `"\n<column>: <value>"` per input column.
  - The retry loop makes up to `retry_attempts` requests. It stops at the first truthy completion
    and sleeps `retry_delay` after every falsy one. When the attempts run out it stores `None`.
  - One `sleep_time` pacing sleep follows, whatever the outcome.
- `process_dataframe` goes through the rows in order:
  - `row[self.input_columns]` raises `KeyError` on a missing input column.
  - The outputs of a row are written back with `df.at[index, column] = value`. A new label becomes
    a new column, and `None` becomes an empty cell.
- `OpenAIClient.create_completion` is an oracle. Each request gets either the stripped content of
  a reply or `None` when the request failed.

Modules, one per file:

- `Wrappers`: `Option` and `Result`.
- `Strings`: Python's `str.strip()`.
- `Service`: the endpoint and the clock. The class `Environment` answers request number `k` with
  `script(k)` and records every request and every sleep, in order, in its `trace`.
- `Config`: the configuration and its defaults.
- `Frame`: the DataFrame.
  - `Table` is its value: the column labels plus one label-to-cell map per row.
  - The class `DataFrame` is the object `df.at` mutates in place.
  - `SetCell`, `WriteRow` and `WriteRows` specify the write-backs.
- `Prompts`: the prompt and the lookup of input columns.
- `Retry`: the specification of the retry loop (`Attempts`).
- `Enrichment`: the specification of `process_row` (`RunRow`) and of `process_dataframe`
  (`RunPass`, `PassTable`), as functions of:
  - the settings;
  - the table;
  - the script of replies;
  - the number of replies already used.
- `Processor`: the class `ExcelProcessor`. Its methods run the loops of the script against an
  `Environment` and a `DataFrame`, and are proved to do what the specification functions say. The
  lemmas of `Retry`, `Enrichment` and `Frame` prove the properties of those functions.

`retry_delay` is slept after every failed attempt, the last one included, before `None` is
stored (`scripts/process_excel.py:172-176`; `Retry.AttemptsTrace`).

## Model

| member | source | states |
|---|---|---|
| Strings.Strip | scripts/process_excel.py:84 | `str.strip()`: the result is empty exactly when the reply is all white space; otherwise it starts and ends with a non-space character, and it is the reply with only white space cut from both ends |
| Service.TruthyIffText | scripts/process_excel.py:84-86 | a completion is truthy (the `if result:` of line 168) exactly when the request succeeded and its content holds a non-space character; the value is then the stripped content |
| Service.Environment.constructor | scripts/process_excel.py:62-89 | `create_completion` returns, for each request, `None` on failure or the stripped content of the reply; no request has been made yet and nothing has happened |
| Service.Environment.CreateCompletion | scripts/process_excel.py:62-89 | one request: the result is the next reply of the script, one more reply is used, and the request is recorded with its prompt, `max_tokens` and `temperature` |
| Service.Environment.Sleep | scripts/process_excel.py:174 | `time.sleep(seconds)`: recorded as an event; no reply is used |
| Config.SettingsOf | scripts/process_excel.py:107-111 | input and output columns as configured; `sleep_time`, `retry_attempts` and `retry_delay` as configured or 1, 3 and 5 when the key is absent |
| Service.Completion | scripts/process_excel.py:84-89 | the value `create_completion` returns for a reply: `None` exactly when the request failed; otherwise the stripped content, empty exactly when the reply is all white space |
| Prompts.Render | scripts/process_excel.py:163 | how the f-string shows a cell: an empty (NaN) cell as `nan`, any other cell as its text (definition, no contract) |
| Prompts.Prompt | scripts/process_excel.py:161-163 | the prompt: the template, then one line per input column in configured order; it starts with the template |
| Prompts.PromptLineAt | scripts/process_excel.py:161-163 | the line `"\n<column>: <value>"` of input column `i` comes right after the template and the lines of the columns before it, so the lines appear in configured order |
| Prompts.FirstMissingFound | scripts/process_excel.py:162-163 | every input column before the first missing one is in the row and that one is not; none is missing exactly when all are present |
| Retry.Attempts | scripts/process_excel.py:166-177 | the retry loop as a function of the replies: a value it stores is always truthy (its requests, sleeps and outcome are stated by the lemmas below) |
| Retry.AttemptsBound | scripts/process_excel.py:166 | at most `retry_attempts` requests are made, none when `retry_attempts <= 0` |
| Retry.AttemptsOutcome | scripts/process_excel.py:166-177 | every request before the last failed; a stored value is the last reply, truthy and non-empty; `None` only after all `retry_attempts` requests failed |
| Retry.AttemptsTrace | scripts/process_excel.py:166-177 | the events alternate a request and a `retry_delay` sleep: every failed request, the last included, is followed by one sleep and a successful one by none |
| Retry.AttemptsCalls | scripts/process_excel.py:166-167 | the number of requests among the events is the number of replies used |
| Retry.FirstSuccessWins | scripts/process_excel.py:166-177 | a value is stored exactly when one of the `retry_attempts` replies is truthy, and then it is the first truthy reply and the requests stop there |
| Retry.BlankReplyRetried | scripts/process_excel.py:166-174 | a reply of white space only is a failed attempt: a `retry_delay` sleep and another request follow it when attempts are left |
| Enrichment.RequestFor | scripts/process_excel.py:156-163 | the request of a field: its prompt, and `max_tokens` and `temperature` as configured or 50 and 0.7 when absent |
| Enrichment.RunField | scripts/process_excel.py:155-180 | one output field: the `prompt` key, the prompt, the retry run and the pacing sleep (definition, no contract of its own; see the `Field*` lemmas) |
| Enrichment.FieldFails | scripts/process_excel.py:156-163 | a field raises exactly when it has no non-null `prompt` or an input column is missing, and then no request is made and nothing sleeps |
| Enrichment.FieldStores | scripts/process_excel.py:165-176 | a field that does not raise stores what its retry run stores, and that value is `None` or a non-empty string |
| Enrichment.FieldShape | scripts/process_excel.py:165-180 | a field that does not raise makes at most `retry_attempts` requests for its prompt, with a `retry_delay` sleep after each failed one, and ends with exactly one `sleep_time` sleep whatever the outcome |
| Enrichment.RunRow | scripts/process_excel.py:144-182 | a row never goes back in the sequence of replies |
| Enrichment.RowStopsAtError | scripts/process_excel.py:155-156 | once a field raises, the rest of the row is skipped: no further request, sleep or output |
| Enrichment.RowSucceeds | scripts/process_excel.py:155-163 | a row succeeds exactly when every output field has a non-null `prompt` and, if there is a field, the row has every input column |
| Enrichment.RowLabels | scripts/process_excel.py:154-176 | a row that succeeds returns one entry per output column, labelled by the output columns in configured order |
| Enrichment.RowValues | scripts/process_excel.py:166-176 | every value a successful row returns is `None` or a non-empty string |
| Enrichment.RowCalls | scripts/process_excel.py:155-180 | the requests of a row are the replies it used, at most `retry_attempts` per output field |
| Enrichment.RowWithoutAttempts | scripts/process_excel.py:166-180 | with `retry_attempts <= 0` no request is made, every output is `None`, and the row only sleeps `sleep_time` once per field |
| Enrichment.RowKeeps | scripts/process_excel.py:144-182 | a run of `process_row` fails exactly on a missing or null `prompt` or input column, returns one entry per output column in order, and uses at most `retry_attempts` replies per column |
| Enrichment.ProcessRowSound | scripts/process_excel.py:144-182 | `process_row` meets that contract for every row and every starting reply |
| Enrichment.PassRow | scripts/process_excel.py:195-196 | one row of `process_dataframe`: a missing input column raises before any request for the row, otherwise the row is processed (definition, no contract) |
| Enrichment.RunPass | scripts/process_excel.py:194-198 | the rows processed are a prefix of the table: all of it when nothing raises |
| Enrichment.PassTable | scripts/process_excel.py:194-198 | the table `process_dataframe` leaves: the original one with the processed rows written back; it has as many rows as the original |
| Enrichment.PassStopsAtError | scripts/process_excel.py:194-196 | once a row raises, the remaining rows are not processed |
| Enrichment.PassOutputs | scripts/process_excel.py:196-198 | every processed row produced one entry per output column, labelled in configured order |
| Enrichment.PassTableWellFormed | scripts/process_excel.py:194-198 | the resulting table has unique labels and a cell under every label in every row, and as many rows as the original |
| Enrichment.PassColumns | scripts/process_excel.py:197-198 | the resulting columns are the original ones, followed, once a row was written, by the output labels that were not columns yet, in configured order |
| Enrichment.PassAt | scripts/process_excel.py:194-198 | every processed row holds its own output under each output label (`None` as an empty cell); every other cell of an original column keeps its value; the other rows are empty in an appended column |
| Enrichment.PassCell | scripts/process_excel.py:196-198 | each processed row holds, under the label of output column `i`, the value generated for that column, `None` as an empty cell |
| Enrichment.PassFirstRowPassed | scripts/process_excel.py:195 | a pass that got past its first row found every input column in it and a prompt for every output column |
| Enrichment.PassFailsBeforeWriting | scripts/process_excel.py:194-198 | a pass that raises does so on its first row, before anything is written: the table is the original one |
| Enrichment.PassCalls | scripts/process_excel.py:194-196 | the requests of a pass are the replies it used, at most `retry_attempts` per output column per row |
| Frame.CellOf | scripts/process_excel.py:198 | the cell a stored value becomes: empty exactly when the value is `None` |
| Frame.ValueOf | scripts/process_excel.py:169-176 | `outputs[c]` for the dictionary of a row's outputs: the value of an entry labelled `c` |
| Frame.ValueOfEntry | scripts/process_excel.py:169-176 | with distinct labels, `outputs[c]` is the value of the one entry labelled `c` |
| Frame.SetCell | scripts/process_excel.py:198 | `df.at[j, c] = v` keeps the number of rows, and appends `c` to the columns when it is a new label |
| Frame.SetCellWellFormed | scripts/process_excel.py:198 | setting a cell keeps the labels unique and gives every row a cell under every label |
| Frame.SetCellAt | scripts/process_excel.py:198 | the cell set holds `v`; every other cell of an existing column is unchanged; the other rows are empty in a new column |
| Frame.WriteRow | scripts/process_excel.py:197-198 | writing a row's outputs keeps the number of rows |
| Frame.WriteRowWellFormed | scripts/process_excel.py:197-198 | writing a row's outputs keeps the table well formed |
| Frame.WriteRowLabels | scripts/process_excel.py:197-198 | after writing a row's outputs, the labels are the old ones and the output labels |
| Frame.WriteRowColumns | scripts/process_excel.py:197-198 | writing a row's outputs appends, in order, the labels that were not columns yet |
| Frame.WriteRowAt | scripts/process_excel.py:197-198 | the written row holds each output's value; every other cell of an existing column is unchanged; the other rows are empty in an appended column |
| Frame.WriteRows | scripts/process_excel.py:194-198 | the write-backs of the rows processed keep the number of rows |
| Frame.WriteRowsWellFormed | scripts/process_excel.py:194-198 | the write-backs keep the table well formed |
| Frame.WriteRowsLabels | scripts/process_excel.py:194-198 | after the write-backs, the labels are the old ones and, once a row was written, the output labels |
| Frame.WriteRowsColumns | scripts/process_excel.py:194-198 | after the write-backs, the columns are the old ones followed by the output labels that were not columns yet |
| Frame.WriteRowsAt | scripts/process_excel.py:194-198 | the cells after the write-backs: row `k` holds the outputs of the `k`-th row processed; other cells of old columns are unchanged; rows not written are empty in an appended column |
| Frame.DataFrame.constructor | scripts/process_excel.py:184 | a DataFrame holding a well-formed table |
| Frame.DataFrame.SetAt | scripts/process_excel.py:198 | `df.at[j, c] = v` in place: the new table is `SetCell` of the old one, still well formed |
| Processor.ExcelProcessor.constructor | scripts/process_excel.py:102-111 | the paths and columns as configured; sheet name `"Sheet1"` when absent; the settings are those `SettingsOf` gives (1, 3 and 5 as defaults) |
| Processor.ExcelProcessor.BuildPrompt | scripts/process_excel.py:161-163 | the loop building the prompt succeeds exactly when every input column is in the row and yields `Prompt`; otherwise it raises on the first missing column |
| Processor.ExcelProcessor.RetryCompletion | scripts/process_excel.py:166-177 | the retry loop returns, requests and sleeps exactly what `Attempts` says for `retry_attempts` and `retry_delay` |
| Processor.ExcelProcessor.ProcessField | scripts/process_excel.py:155-180 | one iteration over output field `i` takes the run of the fields before it to the run including it |
| Processor.ExcelProcessor.ProcessRow | scripts/process_excel.py:144-182 | `process_row` returns, requests and sleeps exactly what `RunRow` says over all output columns |
| Processor.ExcelProcessor.WriteBack | scripts/process_excel.py:197-198 | the write-back loop leaves the table `WriteRow` gives, well formed |
| Processor.ExcelProcessor.ProcessAt | scripts/process_excel.py:194-198 | one iteration over row `index` takes the pass over the rows before it to the pass including it, table included |
| Processor.ExcelProcessor.ProcessDataframe | scripts/process_excel.py:184-200 | `process_dataframe` raises, requests, sleeps and leaves the table exactly as `RunPass` and `WriteRows` say, on the rows as they were when the iteration started |

## Left out

- The endpoint is a script of replies (`Service.Environment`). The model does not cover the API
  key, the model name, the messages sent, the network, or which exceptions a request raises; every
  exception is a failed request.
- `time.sleep` is recorded as an event and nothing waits. Logging is not modelled.
- `load_config`, `load_excel`, `save_excel` and `main` are not part of this model: they are file
  I/O and wiring. `test.py` is not part of this model either.
- Service.Environment.Sleep: records any duration and never raises. Python's `time.sleep` raises
  `ValueError` on a negative duration, so with a negative `sleep_time` the script raises at line 180
  after the first field's requests, and with a negative `retry_delay` at line 174 on the first
  falsy reply, possibly rows later, after earlier rows were written. The model assumes both are
  non-negative; real numbers have no NaN here.
- Enrichment.RowSucceeds, Enrichment.RowKeeps and Enrichment.PassFailsBeforeWriting: "fails
  exactly when" and "raises on its first row" count only the `KeyError` paths. They describe the
  script only for a `sleep_time` and a `retry_delay` that `time.sleep` accepts.
- Config.SettingsOf: a key that is present with a null value is read as absent. The script instead
  gets `None` from `.get` and raises `TypeError` at `time.sleep(None)` or at `range(1, None + 1)`.
- Temperatures and sleep times are real numbers. Python's `int` and `float` for them are not
  distinguished.
- Cells are empty or carry the text an f-string shows for them. An empty cell shows as `nan`.
  Formatting numbers and dates, and changes of column dtype on write-back, are not modelled.
- The table has the default index: the label `index` of `iterrows` is the row's position.
  Custom or duplicate index labels are not modelled.
- The configuration keys read without a default are always present. The `KeyError` at `__init__`
  on a missing one is not modelled. A malformed `retry_attempts` (not an integer) is not modelled.
- `output_columns` is a dictionary in the script and a sequence here. The lemmas about the
  resulting columns and cells (`Enrichment.PassColumns`, `Enrichment.PassCell`,
  `Frame.WriteRowColumns`, `Frame.WriteRowsColumns`, `Frame.ValueOfEntry`) assume distinct labels,
  as a dictionary has them.
- Enrichment.PassRow: the `KeyError` of `row[self.input_columns]` carries the first missing input
  column. pandas reports all of the missing labels.
- Enrichment.RunField, Enrichment.FieldFails, Enrichment.RowSucceeds and Enrichment.RowKeeps: a
  `prompt` key present with a null value is read as absent, so the field raises before any
  request. The script instead raises `TypeError` at line 163 when there are input columns. With no
  input columns it sends up to `retry_attempts` requests with prompt `None`, each of which fails
  inside `create_completion`; it sleeps `retry_delay` after each one and stores `None`.
- Enrichment.RunField: the error of a missing `prompt` key carries the output column's label,
  where the script's `KeyError` carries only the key `'prompt'`.
- Enrichment.RequestFor: a `max_tokens` or `temperature` key present with a null value is read as
  absent, so the request carries 50 or 0.7. The script's `.get` returns `None` instead, and that
  `None` is what `create_completion` sends to the endpoint.
- Processor.ExcelProcessor.constructor: a `sheet_name` key present with a null value is read as
  absent, so the sheet name is `"Sheet1"`. In the script, `self.sheet_name` is `None` then.
- Enrichment.RunRow: its own contract only says that replies are used in order. What a row does is
  stated by the `Row*` lemmas beside it and by `Processor.ExcelProcessor.ProcessRow`.
- Other versions of the script are not part of this model: those with row filters, skipping of
  filled cells, or structured extraction of the reply.
