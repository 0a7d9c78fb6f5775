/**
 * A pandas DataFrame reduced to what the matcher uses: an ordered list of
 * distinct column labels and the rows, each a map from label to cell.
 */
module Frames {
  import opened Cells

  type Row = map<string, Cell>

  datatype Table = Table(columns: seq<string>, rows: seq<Row>)

  /** No column label occurs twice. */
  predicate Distinct(cols: seq<string>) {
    forall i, j :: 0 <= i < j < |cols| ==> cols[i] != cols[j]
  }

  /** Every row has exactly the table's columns. */
  predicate WellFormed(t: Table) {
    forall k :: 0 <= k < |t.rows| ==> t.rows[k].Keys == set c | c in t.columns
  }

  /** `df[name]`. */
  function Column(t: Table, name: string): (r: seq<Cell>)
    requires WellFormed(t) && name in t.columns
    ensures |r| == |t.rows| && forall k :: 0 <= k < |r| ==> r[k] == t.rows[k][name]
  {
    seq(|t.rows|, k requires 0 <= k < |t.rows| => t.rows[k][name])
  }

  /** `df[name] = values`: an existing column keeps its place, a new one goes last. */
  function WithColumn(t: Table, name: string, values: seq<Cell>): (r: Table)
    requires WellFormed(t) && |values| == |t.rows|
    ensures WellFormed(r) && |r.rows| == |t.rows| && name in r.columns
    ensures r.columns == if name in t.columns then t.columns else t.columns + [name]
    ensures forall k :: 0 <= k < |r.rows| ==> r.rows[k] == t.rows[k][name := values[k]]
  {
    var cols := if name in t.columns then t.columns else t.columns + [name];
    var r := Table(cols, seq(|t.rows|, k requires 0 <= k < |t.rows| => t.rows[k][name := values[k]]));
    assert forall k :: 0 <= k < |r.rows| ==> r.rows[k].Keys == set c | c in cols;
    r
  }

  /** Assigning a column never duplicates a label. */
  lemma WithColumnDistinct(t: Table, name: string, values: seq<Cell>)
    requires WellFormed(t) && |values| == |t.rows| && Distinct(t.columns)
    ensures Distinct(WithColumn(t, name, values).columns)
  {
  }

  /** `df[name] = value` for a scalar: the value in every row. */
  function Broadcast(t: Table, name: string, value: Cell): (r: Table)
    requires WellFormed(t)
    ensures WellFormed(r) && |r.rows| == |t.rows| && name in r.columns
    ensures r.columns == if name in t.columns then t.columns else t.columns + [name]
    ensures forall k :: 0 <= k < |r.rows| ==> r.rows[k] == t.rows[k][name := value]
  {
    WithColumn(t, name, seq(|t.rows|, _ => value))
  }

  /** The row with only the given columns kept. */
  function Restrict(row: Row, cols: seq<string>): (r: Row)
    ensures forall c :: c in r <==> c in row && c in cols
    ensures forall c :: c in r ==> r[c] == row[c]
  {
    map c | c in row && c in cols :: row[c]
  }

  /** Reading a column back after assigning it gives the assigned values; every other column reads as before. */
  lemma ColumnAfterAssign(t: Table, name: string, values: seq<Cell>, other: string)
    requires WellFormed(t) && |values| == |t.rows|
    requires other in t.columns && other != name
    ensures Column(WithColumn(t, name, values), name) == values
    ensures other in WithColumn(t, name, values).columns
    ensures Column(WithColumn(t, name, values), other) == Column(t, other)
  {
  }

  /**
   * Keeping columns `cols` of a row keeps exactly that row's values there:
   * keeping them twice is keeping them once, keeping every column of the
   * row changes nothing, and keeping columns the row lacks gives nothing.
   */
  lemma RestrictFacts(row: Row, cols: seq<string>, more: seq<string>)
    ensures Restrict(Restrict(row, cols), cols) == Restrict(row, cols)
    ensures (forall c :: c in row ==> c in cols) ==> Restrict(row, cols) == row
    ensures (forall c :: c in cols ==> c !in row) ==> Restrict(row, cols) == map[]
    ensures Restrict(row, cols + more) == Restrict(row, more + cols)
  {
  }

  /**
   * A DataFrame object.  The matcher assigns its columns in place
   * (`df[col] = ...`) and copies it (`df.copy()`).
   */
  class Frame {
    var columns: seq<string>
    var rows: seq<Row>

    function Contents(): Table
      reads this
    {
      Table(columns, rows)
    }

    ghost predicate Valid()
      reads this
    {
      WellFormed(Contents())
    }

    constructor (t: Table)
      requires WellFormed(t)
      ensures Valid() && Contents() == t
    {
      columns := t.columns;
      rows := t.rows;
    }

    /** `df.copy()`: a fresh frame with the same contents. */
    method Copy() returns (f: Frame)
      requires Valid()
      ensures fresh(f) && f.Valid() && f.Contents() == Contents()
    {
      f := new Frame(Contents());
    }

    /** `df[name] = values`. */
    method Assign(name: string, values: seq<Cell>)
      requires Valid() && |values| == |rows|
      modifies this
      ensures Valid() && Contents() == WithColumn(old(Contents()), name, values)
    {
      var t := WithColumn(Contents(), name, values);
      columns := t.columns;
      rows := t.rows;
    }
  }

  /** A strictly increasing sequence of row positions. */
  predicate Increasing(s: seq<nat>) {
    forall a, b :: 0 <= a < b < |s| ==> s[a] < s[b]
  }
}
