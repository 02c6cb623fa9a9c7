/**
 * The pandas DataFrame the processor enriches: an ordered list of column labels and one
 * mapping from label to cell per row, in row order.
 */
module Frame {
  import opened Wrappers

  /** A cell: empty (NaN or None) or a value, carried as the text Python shows for it. */
  datatype Cell = Null | Text(shown: string)

  datatype Table = Table(columns: seq<string>, rows: seq<map<string, Cell>>)

  /** One entry of the dictionary `process_row` returns: an output column and its generated value. */
  datatype Output = Output(column: string, value: Option<string>)

  /** No label occurs twice: the last one is not among the others, which are distinct themselves. */
  predicate Distinct(s: seq<string>) {
    s == [] || (Distinct(s[..|s| - 1]) && s[|s| - 1] !in s[..|s| - 1])
  }

  /** Two positions of a list of distinct labels hold different labels. */
  lemma {:induction false} DistinctAt(s: seq<string>, i: nat, j: nat)
    requires Distinct(s) && i < j < |s|
    ensures s[i] != s[j]
    decreases |s|
  {
    var n := |s| - 1;
    if j < n {
      DistinctAt(s[..n], i, j);
    } else {
      assert s[i] == s[..n][i];
    }
  }

  /** Column labels are unique and every row has a cell under exactly those labels. */
  ghost predicate WellFormed(t: Table) {
    && Distinct(t.columns)
    && forall k :: 0 <= k < |t.rows| ==> t.rows[k].Keys == Labels(t.columns)
  }

  ghost function Labels(columns: seq<string>): set<string> {
    set c | c in columns
  }

  /** The cell that the value of an output column becomes: `None` is stored as an empty cell. */
  function CellOf(value: Option<string>): (c: Cell)
    ensures c.Null? <==> value.None?
  {
    match value
    case None => Null
    case Some(s) => Text(s)
  }

  /**
   * `df.at[j, c] = v`: sets one cell. A label that is not yet a column is appended as a new
   * column; the rows keep their number and order.
   */
  function SetCell(t: Table, j: nat, c: string, v: Cell): (r: Table)
    requires j < |t.rows|
    ensures |r.rows| == |t.rows|
    ensures r.columns == if c in t.columns then t.columns else t.columns + [c]
  {
    if c in t.columns then
      Table(t.columns, t.rows[j := t.rows[j][c := v]])
    else
      Table(t.columns + [c], seq(|t.rows|, k requires 0 <= k < |t.rows| => t.rows[k][c := if k == j then v else Null]))
  }

  /** Setting a cell keeps the labels unique and gives every row a cell under every label, the new one included. */
  lemma SetCellWellFormed(t: Table, j: nat, c: string, v: Cell)
    requires WellFormed(t) && j < |t.rows|
    ensures WellFormed(SetCell(t, j, c, v))
  {
    var r := SetCell(t, j, c, v);
    if c !in t.columns {
      assert r.columns[..|r.columns| - 1] == t.columns;
      assert Labels(r.columns) == Labels(t.columns) + {c};
    }
    assert forall k :: 0 <= k < |r.rows| ==> r.rows[k].Keys == t.rows[k].Keys + {c};
  }

  /**
   * What `df.at[j, c] = v` leaves in each cell: `v` in the one it sets, the old value in every
   * other cell of an existing column, and an empty cell in the other rows of a new column.
   */
  lemma SetCellAt(t: Table, j: nat, c: string, v: Cell, k: nat, d: string)
    requires WellFormed(t) && j < |t.rows| && k < |t.rows| && (d in t.columns || d == c)
    ensures var r := SetCell(t, j, c, v);
      && d in r.rows[k]
      && r.rows[k][d] == if k == j && d == c then v else if d in t.columns then t.rows[k][d] else Null
  {
    assert d in Labels(t.columns) <==> d in t.columns;
  }

  /** The labels of a row's outputs, in order. */
  function Names(outputs: seq<Output>): (names: seq<string>)
    ensures |names| == |outputs|
    ensures forall i :: 0 <= i < |outputs| ==> names[i] == outputs[i].column
  {
    if outputs == [] then [] else Names(outputs[..|outputs| - 1]) + [outputs[|outputs| - 1].column]
  }

  /** `outputs[c]` for the dictionary the list of outputs stands for: the value of the last entry labelled `c`. */
  function ValueOf(outputs: seq<Output>, c: string): (v: Option<string>)
    requires c in Names(outputs)
    ensures exists i :: 0 <= i < |outputs| && outputs[i].column == c && outputs[i].value == v
  {
    var last := outputs[|outputs| - 1];
    if last.column == c then last.value else ValueOf(outputs[..|outputs| - 1], c)
  }

  /** With distinct labels, the lookup finds the one entry carrying the label. */
  lemma {:induction false} ValueOfEntry(outputs: seq<Output>, i: nat)
    requires i < |outputs| && Distinct(Names(outputs))
    ensures ValueOf(outputs, outputs[i].column) == outputs[i].value
    decreases |outputs|
  {
    var n := |outputs| - 1;
    if i < n {
      DistinctAt(Names(outputs), i, n);
      assert Names(outputs[..n]) == Names(outputs)[..n];
      ValueOfEntry(outputs[..n], i);
    }
  }

  /** The labels among `names` that are not columns yet, in order: the columns writing them appends. */
  function NewColumns(columns: seq<string>, names: seq<string>): (added: seq<string>)
    ensures forall c :: c in added <==> c in names && c !in columns
  {
    if names == [] then []
    else
      var last := names[|names| - 1];
      NewColumns(columns, names[..|names| - 1]) + if last in columns then [] else [last]
  }

  /** Labels that are all columns already add no column. */
  lemma {:induction false} NoNewColumns(columns: seq<string>, names: seq<string>)
    requires forall c :: c in names ==> c in columns
    ensures NewColumns(columns, names) == []
    decreases |names|
  {
    if names != [] {
      var n := |names| - 1;
      var init := names[..n];
      forall c | c in init
        ensures c in columns
      {
        var i :| 0 <= i < n && init[i] == c;
        assert names[i] == c;
      }
      NoNewColumns(columns, init);
      assert names[n] in names;
    }
  }

  /** The write-back loop of `process_dataframe` for row `j`: one `df.at` assignment per output, in order. */
  function WriteRow(t: Table, j: nat, outputs: seq<Output>): (r: Table)
    requires j < |t.rows|
    ensures |r.rows| == |t.rows|
    decreases |outputs|
  {
    if outputs == [] then t
    else
      var n := |outputs| - 1;
      SetCell(WriteRow(t, j, outputs[..n]), j, outputs[n].column, CellOf(outputs[n].value))
  }

  /** Writing a row's outputs keeps the table well formed. */
  lemma {:induction false} WriteRowWellFormed(t: Table, j: nat, outputs: seq<Output>)
    requires WellFormed(t) && j < |t.rows|
    ensures WellFormed(WriteRow(t, j, outputs))
    decreases |outputs|
  {
    if outputs != [] {
      var n := |outputs| - 1;
      WriteRowWellFormed(t, j, outputs[..n]);
      SetCellWellFormed(WriteRow(t, j, outputs[..n]), j, outputs[n].column, CellOf(outputs[n].value));
    }
  }

  /** After writing a row's outputs, the labels are the old ones and the output labels. */
  lemma {:induction false} WriteRowLabels(t: Table, j: nat, outputs: seq<Output>)
    requires j < |t.rows|
    ensures forall c :: c in WriteRow(t, j, outputs).columns <==> c in t.columns || c in Names(outputs)
    decreases |outputs|
  {
    if outputs != [] {
      var n := |outputs| - 1;
      assert Names(outputs) == Names(outputs[..n]) + [outputs[n].column];
      WriteRowLabels(t, j, outputs[..n]);
    }
  }

  /** Writing a row's outputs (distinct labels, as a dictionary has) appends, in order, the labels that were not columns yet. */
  lemma {:induction false} WriteRowColumns(t: Table, j: nat, outputs: seq<Output>)
    requires j < |t.rows| && Distinct(Names(outputs))
    ensures WriteRow(t, j, outputs).columns == t.columns + NewColumns(t.columns, Names(outputs))
    decreases |outputs|
  {
    if outputs != [] {
      var n := |outputs| - 1;
      var init := outputs[..n];
      var c := outputs[n].column;
      assert Names(init) == Names(outputs)[..n];
      WriteRowColumns(t, j, init);
      var added := NewColumns(t.columns, Names(init));
      assert c !in added;
      assert NewColumns(t.columns, Names(outputs)) == added + if c in t.columns then [] else [c];
    }
  }

  /**
   * What the write-back of row `j` leaves in each cell: row `j` holds the output's value under
   * every output label; every other cell of an existing column is unchanged; and the other
   * rows are empty in an appended column.
   */
  lemma {:induction false} WriteRowAt(t: Table, j: nat, outputs: seq<Output>, k: nat, d: string)
    requires WellFormed(t) && j < |t.rows| && k < |t.rows| && (d in t.columns || d in Names(outputs))
    ensures var r := WriteRow(t, j, outputs);
      && d in r.rows[k]
      && r.rows[k][d] == if k == j && d in Names(outputs) then CellOf(ValueOf(outputs, d))
                         else if d in t.columns then t.rows[k][d] else Null
    decreases |outputs|
  {
    if outputs != [] {
      var n := |outputs| - 1;
      var init := outputs[..n];
      var last := outputs[n];
      assert Names(outputs) == Names(init) + [last.column];
      var p := WriteRow(t, j, init);
      WriteRowWellFormed(t, j, init);
      WriteRowLabels(t, j, init);
      if d in t.columns || d in Names(init) {
        WriteRowAt(t, j, init, k, d);
      }
      SetCellAt(p, j, last.column, CellOf(last.value), k, d);
    }
  }

  /** Every row's outputs carry the labels `names`, in that order. */
  predicate Labelled(outputs: seq<seq<Output>>, names: seq<string>) {
    forall k :: 0 <= k < |outputs| ==> Names(outputs[k]) == names
  }

  /**
   * The write-backs of `process_dataframe` for the rows processed so far, in row order: row `k`
   * receives the outputs of the `k`-th row processed.
   */
  function WriteRows(t: Table, outputs: seq<seq<Output>>): (r: Table)
    requires |outputs| <= |t.rows|
    ensures |r.rows| == |t.rows|
  {
    if outputs == [] then t
    else
      var n := |outputs| - 1;
      WriteRow(WriteRows(t, outputs[..n]), n, outputs[n])
  }

  /** Writing back one more row's outputs writes them into the next row of the table written so far. */
  lemma WriteRowsNext(t: Table, outputs: seq<seq<Output>>, last: seq<Output>)
    requires |outputs| < |t.rows|
    ensures WriteRows(t, outputs + [last]) == WriteRow(WriteRows(t, outputs), |outputs|, last)
  {
    assert (outputs + [last])[..|outputs|] == outputs;
  }

  /** The write-backs keep the table well formed. */
  lemma {:induction false} WriteRowsWellFormed(t: Table, outputs: seq<seq<Output>>)
    requires WellFormed(t) && |outputs| <= |t.rows|
    ensures WellFormed(WriteRows(t, outputs))
  {
    if outputs != [] {
      var n := |outputs| - 1;
      WriteRowsWellFormed(t, outputs[..n]);
      WriteRowWellFormed(WriteRows(t, outputs[..n]), n, outputs[n]);
    }
  }

  /** After the write-backs of rows whose outputs all carry the labels `names`, the labels are the old ones and `names`. */
  lemma {:induction false} WriteRowsLabels(t: Table, outputs: seq<seq<Output>>, names: seq<string>)
    requires |outputs| <= |t.rows|
    requires Labelled(outputs, names)
    ensures forall c :: c in WriteRows(t, outputs).columns <==> c in t.columns || (|outputs| > 0 && c in names)
  {
    if outputs != [] {
      var n := |outputs| - 1;
      WriteRowsLabels(t, outputs[..n], names);
      WriteRowLabels(WriteRows(t, outputs[..n]), n, outputs[n]);
    }
  }

  /**
   * After the write-backs of rows whose outputs all carry the distinct labels `names`, the columns
   * are the old ones followed, once any row was written, by the labels that were not columns yet.
   */
  lemma {:induction false} WriteRowsColumns(t: Table, outputs: seq<seq<Output>>, names: seq<string>)
    requires |outputs| <= |t.rows| && Distinct(names)
    requires Labelled(outputs, names)
    ensures WriteRows(t, outputs).columns == if outputs == [] then t.columns else t.columns + NewColumns(t.columns, names)
  {
    if outputs != [] {
      var n := |outputs| - 1;
      var q := WriteRows(t, outputs[..n]);
      WriteRowsColumns(t, outputs[..n], names);
      WriteRowColumns(q, n, outputs[n]);
      if n > 0 {
        NoNewColumns(q.columns, names);
      }
    }
  }

  /**
   * What the write-backs leave in each cell: a written row holds its own output under each label
   * of `names` (`None` as an empty cell); every other cell of an old column keeps its value; the
   * rows not written yet are empty in an appended column.
   */
  lemma {:induction false} WriteRowsAt(t: Table, outputs: seq<seq<Output>>, names: seq<string>, k: nat, d: string)
    requires WellFormed(t) && |outputs| <= |t.rows| && k < |t.rows|
    requires Labelled(outputs, names)
    requires d in t.columns || (|outputs| > 0 && d in names)
    ensures var r := WriteRows(t, outputs);
      && d in r.rows[k]
      && r.rows[k][d] == if k < |outputs| && d in names then CellOf(ValueOf(outputs[k], d))
                         else if d in t.columns then t.rows[k][d] else Null
  {
    if outputs != [] {
      var n := |outputs| - 1;
      var init := outputs[..n];
      var q := WriteRows(t, init);
      WriteRowsWellFormed(t, init);
      WriteRowsLabels(t, init, names);
      if d in t.columns || (n > 0 && d in names) {
        WriteRowsAt(t, init, names, k, d);
      }
      WriteRowAt(q, n, outputs[n], k, d);
      if k < n {
        assert init[k] == outputs[k];
      }
    }
  }

  /** The DataFrame object the processor mutates in place. */
  class DataFrame {
    var columns: seq<string>
    var rows: seq<map<string, Cell>>

    function Value(): Table
      reads this
    {
      Table(columns, rows)
    }

    ghost predicate Valid()
      reads this
    {
      WellFormed(Value())
    }

    constructor (t: Table)
      requires WellFormed(t)
      ensures Valid() && Value() == t
    {
      columns := t.columns;
      rows := t.rows;
    }

    /** `df.at[j, c] = v`. */
    method SetAt(j: nat, c: string, v: Cell)
      requires Valid() && j < |rows|
      modifies this
      ensures Valid()
      ensures Value() == SetCell(old(Value()), j, c, v)
    {
      var r := SetCell(Value(), j, c, v);
      SetCellWellFormed(Value(), j, c, v);
      columns := r.columns;
      rows := r.rows;
    }
  }
}
