/**
  * A sheet table as the Sheets API returns it: rows of cell strings, rows possibly
  * shorter than others. Reading past the end of a row yields JavaScript `undefined`,
  * which, like `""`, is falsy; every other string (whitespace included) is truthy.
  */
module Sheet {

  type Row = seq<string>
  type Table = seq<Row>

  /** `row[i]`, with `undefined` read as the empty string (both are falsy). */
  function Cell(row: Row, i: nat): (c: string)
    ensures i >= |row| ==> c == ""
  {
    if i < |row| then row[i] else ""
  }

  /** `row[i]` is truthy: the cell exists and is not the empty string. */
  predicate Present(row: Row, i: nat)
  {
    i < |row| && row[i] != ""
  }

  /** Some cell among the first `width` is present. */
  predicate AnyPresent(row: Row, width: nat)
  {
    exists j :: 0 <= j < width && Present(row, j)
  }

  /**
    * JavaScript `value || fallback` on strings: one of the two operands, truthy when either is,
    * and the left one whenever it is truthy.
    */
  function Or(value: string, fallback: string): (r: string)
    ensures r == value || r == fallback
    ensures r != "" <==> value != "" || fallback != ""
    ensures value != "" ==> r == value
  {
    if value != "" then value else fallback
  }

  /** A cell, or its fallback text when the cell is absent. */
  function CellOr(row: Row, i: nat, fallback: string): (r: string)
    requires fallback != ""
    ensures r != ""
    ensures Present(row, i) ==> r == row[i]
    ensures !Present(row, i) ==> r == fallback
  {
    Or(Cell(row, i), fallback)
  }
}
