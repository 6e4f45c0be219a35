/**
 * The in-memory table the matcher works on, as the CSV reader hands it over:
 * row 0 is the header, every later row a data row, and every cell is either
 * a string or absent (Ruby's nil).
 */
module Tables {

  datatype Option<+T> = None | Some(value: T)

  type Row = seq<Option<string>>
  type Table = seq<Row>

  /** `row[index]` in Ruby: a position past the end of the row reads as nil. */
  function CellAt(row: Row, index: nat): Option<string>
  {
    if index < |row| then row[index] else None
  }

  /** The rows after the header, in table order (none for an empty table). */
  function DataRows(table: Table): seq<Row>
  {
    if |table| == 0 then [] else table[1..]
  }

  /** No element occurs twice. */
  predicate Distinct<T(==)>(s: seq<T>)
  {
    forall i, j :: 0 <= i < j < |s| ==> s[i] != s[j]
  }
}
