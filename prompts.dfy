/** The prompt `process_row` sends for one output column, and the lookup of the input columns it reads. */
module Prompts {
  import opened Frame

  /** How an f-string shows a cell: an empty spreadsheet cell is read as NaN and shown as `nan`. */
  function Render(v: Cell): string {
    match v
    case Null => "nan"
    case Text(s) => s
  }

  /** The line added to the prompt for one input column: a line break, the label, a colon and a space, then the value. */
  function Line(column: string, v: Cell): string {
    "\n" + column + ": " + Render(v)
  }

  /** Every input column is a label of the row. */
  predicate Present(columns: seq<string>, row: map<string, Cell>) {
    forall i :: 0 <= i < |columns| ==> columns[i] in row
  }

  /** The prompt for a template: the template, then one line per input column, in the configured order. It starts with the template. */
  function Prompt(template: string, columns: seq<string>, row: map<string, Cell>): (prompt: string)
    requires Present(columns, row)
    ensures template <= prompt
  {
    if columns == [] then template
    else
      var n := |columns| - 1;
      Prompt(template, columns[..n], row) + Line(columns[n], row[columns[n]])
  }

  /**
   * The line of input column `i` follows the template and the lines of the columns before it:
   * the lines appear in the configured order, each right after the previous one.
   */
  lemma {:induction false} PromptLineAt(template: string, columns: seq<string>, row: map<string, Cell>, i: nat)
    requires Present(columns, row) && i < |columns|
    ensures Present(columns[..i], row)
    ensures Prompt(template, columns[..i], row) + Line(columns[i], row[columns[i]]) <= Prompt(template, columns, row)
    decreases |columns|
  {
    var n := |columns| - 1;
    var init := columns[..n];
    assert Present(init, row) by {
      forall k | 0 <= k < n ensures init[k] in row { assert init[k] == columns[k]; }
    }
    if i < n {
      PromptLineAt(template, init, row, i);
      assert init[..i] == columns[..i] && init[i] == columns[i];
    } else {
      assert init == columns[..i];
    }
  }

  /**
   * The position of the first input column the row does not have (what `row[input_col]` raises
   * `KeyError` on), or the number of input columns when the row has them all.
   */
  function FirstMissing(columns: seq<string>, row: map<string, Cell>): (k: nat)
    ensures k <= |columns|
  {
    if columns == [] || columns[0] !in row then 0 else 1 + FirstMissing(columns[1..], row)
  }

  /**
   * The columns before the first missing one are labels of the row and the one found is not;
   * none is missing exactly when every input column is present.
   */
  lemma {:induction false} FirstMissingFound(columns: seq<string>, row: map<string, Cell>)
    ensures var k := FirstMissing(columns, row);
      && (forall i :: 0 <= i < k ==> columns[i] in row)
      && (k < |columns| ==> columns[k] !in row)
      && (k == |columns| <==> Present(columns, row))
  {
    if columns != [] && columns[0] in row {
      var tail := columns[1..];
      FirstMissingFound(tail, row);
      var k := FirstMissing(columns, row);
      forall i | 0 <= i < k
        ensures columns[i] in row
      {
        if i > 0 {
          assert columns[i] == tail[i - 1];
        }
      }
      if k < |columns| {
        assert columns[k] == tail[k - 1];
      }
    }
  }
}
