/**
 * The slice of a pandas DataFrame the getter relies on: a column list and a
 * sequence of rows, the list-of-lists constructor `DataFrame(rows, columns=...)`
 * with its shape check, and `DataFrame.insert` of a constant column.
 */
module Frame {
  import opened Wrappers

  /**
   * One cell: the text the wire carried, Python's `None` (a JSON null, or the
   * padding pandas puts in short rows), or pandas' `NaN` (a field of an empty
   * Series).
   */
  datatype Cell = Str(text: string) | Null | NaN

  /** A table: column names in order and rows of cells, positionally aligned with them. */
  datatype Table = Table(columns: seq<string>, rows: seq<seq<Cell>>)

  /** Every row has exactly one cell per column. */
  predicate Conforms(t: Table) {
    forall i :: 0 <= i < |t.rows| ==> |t.rows[i]| == |t.columns|
  }

  /** Python `str(value)`: `None` prints as "None" and `NaN` as "nan". */
  function PyStr(c: Cell): (s: string)
    ensures c.Str? ==> s == c.text
    ensures c.Null? ==> s == "None"
    ensures c.NaN? ==> s == "nan"
  {
    match c
    case Str(s) => s
    case Null => "None"
    case NaN => "nan"
  }

  /** A list of wire strings as text cells. */
  function Texts(fields: seq<string>): (cells: seq<Cell>)
    ensures |cells| == |fields|
    ensures forall j :: 0 <= j < |fields| ==> cells[j] == Str(fields[j])
  {
    seq(|fields|, j requires 0 <= j < |fields| => Str(fields[j]))
  }

  /** The widest row of a list of lists (0 for no rows). */
  function MaxWidth(rows: seq<seq<string>>): (w: nat)
    ensures forall i :: 0 <= i < |rows| ==> |rows[i]| <= w
    ensures |rows| == 0 ==> w == 0
    ensures |rows| > 0 ==> exists i :: 0 <= i < |rows| && |rows[i]| == w
    decreases |rows|
  {
    if |rows| == 0 then 0
    else
      var m := MaxWidth(rows[1..]);
      if |rows[0]| >= m then |rows[0]|
      else
        assert exists i :: 0 <= i < |rows[1..]| && |rows[1..][i]| == m;
        m
  }

  /** A row of text cells padded with `None` up to `width`. */
  function Pad(fields: seq<string>, width: nat): (row: seq<Cell>)
    requires |fields| <= width
    ensures |row| == width
    ensures row[..|fields|] == Texts(fields)
    ensures forall j :: |fields| <= j < width ==> row[j] == Null
  {
    Texts(fields) + seq(width - |fields|, _ => Null)
  }

  /**
   * pandas `DataFrame(rows, columns=columns)` for a list of lists: the data is
   * as wide as its widest row, shorter rows are padded with `None`, and
   * construction raises unless that width equals the number of columns. No
   * rows at all is always accepted and gives an empty table.
   */
  function FromRows(columns: seq<string>, rows: seq<seq<string>>): (r: Result<Table>)
    ensures r.Success? <==> |rows| == 0 || MaxWidth(rows) == |columns|
    ensures r.Failure? ==> r.error == ShapeMismatch(|columns|, MaxWidth(rows))
    ensures r.Success? ==>
      && r.value.columns == columns
      && Conforms(r.value)
      && |r.value.rows| == |rows|
      && forall i :: 0 <= i < |rows| ==>
           && r.value.rows[i][..|rows[i]|] == Texts(rows[i])
           && forall j :: |rows[i]| <= j < |columns| ==> r.value.rows[i][j] == Null
  {
    if |rows| == 0 then Success(Table(columns, []))
    else if MaxWidth(rows) != |columns| then Failure(ShapeMismatch(|columns|, MaxWidth(rows)))
    else Success(Table(columns, seq(|rows|, i requires 0 <= i < |rows| => Pad(rows[i], |columns|))))
  }

  /** The table without its column at `pos`. */
  function DropColumn(t: Table, pos: nat): (r: Table)
    requires pos < |t.columns|
    requires Conforms(t)
    ensures |r.columns| == |t.columns| - 1 && |r.rows| == |t.rows|
  {
    Table(t.columns[..pos] + t.columns[pos + 1..],
          seq(|t.rows|, i requires 0 <= i < |t.rows| => t.rows[i][..pos] + t.rows[i][pos + 1..]))
  }

  /**
   * pandas `df.insert(pos, column, value)` with a scalar value: a new column
   * at `pos` holding `value` in every row; raises when a column of that name
   * already exists.
   */
  function InsertColumn(t: Table, pos: nat, column: string, value: Cell): (r: Result<Table>)
    requires pos <= |t.columns|
    requires Conforms(t)
    ensures r.Failure? <==> column in t.columns
    ensures r.Failure? ==> r.error == DuplicateColumn(column)
    ensures r.Success? ==>
      && Conforms(r.value)
      && |r.value.columns| == |t.columns| + 1
      && r.value.columns[pos] == column
      && |r.value.rows| == |t.rows|
      && (forall i :: 0 <= i < |t.rows| ==> r.value.rows[i][pos] == value)
      && DropColumn(r.value, pos) == t
  {
    if column in t.columns then Failure(DuplicateColumn(column))
    else
      var rows := seq(|t.rows|, i requires 0 <= i < |t.rows| => t.rows[i][..pos] + [value] + t.rows[i][pos..]);
      var u := Table(t.columns[..pos] + [column] + t.columns[pos..], rows);
      assert u.columns[..pos] + u.columns[pos + 1..] == t.columns;
      assert forall i :: 0 <= i < |t.rows| ==> u.rows[i][..pos] + u.rows[i][pos + 1..] == t.rows[i];
      Success(u)
  }

  /** Inserting in front prepends the name to the columns and the value to every row. */
  lemma InsertInFront(t: Table, column: string, value: Cell)
    requires Conforms(t) && column !in t.columns
    ensures var r := InsertColumn(t, 0, column, value);
      && r.Success?
      && r.value.columns == [column] + t.columns
      && |r.value.rows| == |t.rows|
      && forall i :: 0 <= i < |t.rows| ==> r.value.rows[i] == [value] + t.rows[i]
  {
    assert t.columns[..0] == [] && t.columns[0..] == t.columns;
    forall i | 0 <= i < |t.rows| ensures t.rows[i][..0] + [value] + t.rows[i][0..] == [value] + t.rows[i] {
      assert t.rows[i][..0] == [] && t.rows[i][0..] == t.rows[i];
    }
  }

  /** Where the new column and the new cells land, spelled out position by position. */
  lemma InsertColumnAt(t: Table, pos: nat, column: string, value: Cell)
    requires pos <= |t.columns| && Conforms(t) && column !in t.columns
    ensures var r := InsertColumn(t, pos, column, value);
      && r.Success?
      && r.value.columns == t.columns[..pos] + [column] + t.columns[pos..]
      && |r.value.rows| == |t.rows|
      && forall i :: 0 <= i < |t.rows| ==> r.value.rows[i] == t.rows[i][..pos] + [value] + t.rows[i][pos..]
  {
  }
}
