/** The small part of a data frame that the play-type script relies on: an
    ordered column index, rows keyed by a row label, cells that may be missing,
    and the reindexing that lays a row out on a given column list with the
    fill value 0. Both the alignment of a single prediction situation and the
    left join of the test encoding onto the training encoding use `Reindex`. */
module Tables {

  type Column = string
  type Index = int

  /** One cell. `Missing` is the frame's NaN; `Dec` stands for a floating-point
      value (win probability, expected points) that the model never computes
      with; `Text` is a string such as a team code or a play type. */
  datatype Cell = Missing | Int(i: int) | Dec(d: real) | Text(s: string)

  /** The value a reindex puts into a column the row lacks. */
  const Fill: Cell := Int(0)

  /** The failures the script can raise on the paths modelled here. */
  datatype Error =
    | ShapeMismatch(expected: nat, given: nat)  // a frame built from a row of the wrong width
    | KeyError(column: Column)                  // a column that is not in the frame

  datatype Result<T> = Ok(value: T) | Err(error: Error)

  /** The cells of one row, by column name. */
  type Record = map<Column, Cell>

  /** A one-row frame: its ordered column index and its single row. */
  datatype Row = Row(columns: seq<Column>, record: Record)

  /** A frame: an ordered column index shared by every row, rows by row label. */
  datatype Frame = Frame(columns: seq<Column>, rows: map<Index, Record>)

  function ColumnSet(cols: seq<Column>): set<Column> {
    set c | c in cols
  }

  /** A row has a cell for exactly the columns of its index. */
  predicate RowWF(r: Row) {
    r.record.Keys == ColumnSet(r.columns)
  }

  /** Every row of a frame has a cell for exactly the frame's columns. */
  predicate FrameWF(f: Frame) {
    forall i :: i in f.rows ==> f.rows[i].Keys == ColumnSet(f.columns)
  }

  /** The cell of `record` in column `c`, NaN when there is none. */
  function CellOf(record: Record, c: Column): Cell {
    if c in record then record[c] else Missing
  }

  /** A record laid out on the column list `target`: each target column the
      record has keeps its cell, each one it lacks holds 0, and every column
      outside `target` is gone. */
  function Reindex(record: Record, target: seq<Column>): (r: Record)
    ensures r.Keys == ColumnSet(target)
    ensures forall c :: c in record && c in r ==> r[c] == record[c]
    ensures forall c :: c !in record && c in r ==> r[c] == Fill
  {
    map c | c in target :: if c in record then record[c] else Fill
  }

  /** A one-row frame put onto the columns `target`, in that order. */
  function AlignRow(row: Row, target: seq<Column>): (r: Row)
    ensures r.columns == target && RowWF(r)
  {
    Row(target, Reindex(row.record, target))
  }

  /** Every row of a frame put onto the columns `target`; no row is added or
      removed. */
  function AlignFrame(f: Frame, target: seq<Column>): (r: Frame)
    ensures r.columns == target && FrameWF(r)
    ensures r.rows.Keys == f.rows.Keys
    ensures forall i :: i in r.rows ==> r.rows[i] == Reindex(f.rows[i], target)
  {
    Frame(target, map i | i in f.rows :: Reindex(f.rows[i], target))
  }

  /** A record that already has exactly the target columns is left as it is. */
  lemma ReindexOnOwnColumns(record: Record, target: seq<Column>)
    requires record.Keys == ColumnSet(target)
    ensures Reindex(record, target) == record
  {
    var r := Reindex(record, target);
    assert r.Keys == record.Keys;
    forall c | c in r
      ensures r[c] == record[c]
    {
    }
  }

  /** Aligning twice onto the same columns is aligning once. */
  lemma AlignRowIdempotent(row: Row, target: seq<Column>)
    ensures AlignRow(AlignRow(row, target), target) == AlignRow(row, target)
  {
    ReindexOnOwnColumns(Reindex(row.record, target), target);
  }

  /** A well-formed row already on the target columns, in the target order,
      is not changed by aligning it. */
  lemma AlignRowOnOwnColumns(row: Row)
    requires RowWF(row)
    ensures AlignRow(row, row.columns) == row
  {
    ReindexOnOwnColumns(row.record, row.columns);
  }

  /** A well-formed frame aligned onto its own columns is unchanged: this is
      why the left join leaves the training encoding as it was. */
  lemma {:induction false} AlignFrameOnOwnColumns(f: Frame)
    requires FrameWF(f)
    ensures AlignFrame(f, f.columns) == f
  {
    var r := AlignFrame(f, f.columns);
    forall i | i in r.rows
      ensures r.rows[i] == f.rows[i]
    {
      ReindexOnOwnColumns(f.rows[i], f.columns);
    }
  }

  /** Aligning a frame twice onto the same columns is aligning it once. */
  lemma AlignFrameIdempotent(f: Frame, target: seq<Column>)
    ensures AlignFrame(AlignFrame(f, target), target) == AlignFrame(f, target)
  {
    AlignFrameOnOwnColumns(AlignFrame(f, target));
  }
}
