/**
 * The spreadsheet as the extraction pipeline sees it: workbooks, sheets, rows and cells,
 * and the reduction of one cell to a string (`getString`).
 *
 * Spreadsheet parsing, formula evaluation and floating point formatting belong to the
 * spreadsheet library; the model receives their results as data.
 */
module Cells {
  import opened Wrappers

  /** Java's `int`. */
  newtype int32 = x: int | -0x8000_0000 <= x < 0x8000_0000

  const INT_MIN: int := -0x8000_0000
  const INT_MAX: int := 0x7fff_ffff

  /**
   * The text `String.valueOf(double)` gives for a numeric cell ("42.0", "0.5", "NaN").
   * Java's conversion never returns an empty string.
   */
  type DoubleText = s: string | |s| > 0 witness "0.0"

  /** The value a formula evaluator returns for a cell, by cell type. */
  datatype CellValue =
    | Bool(b: bool)
    | Num(text: DoubleText)
    | Str(s: string)
    | Blank
    | Error
    | Formula
    | Unrecognized(cellType: int)

  /**
   * A cell of a row.
   * `evaluated` is what the formula evaluator returns for it (None: it returned null).
   * `stringCellValue` is what `getStringCellValue()` returns for it: the text of a string or
   * blank cell, or None when the call throws because the cell holds another type.
   */
  datatype Cell = Cell(evaluated: Option<CellValue>, stringCellValue: Option<string>)

  /** A row: its cells by zero-based column index; a missing column is a null cell. */
  datatype Row = Row(cells: map<nat, Cell>) {
    function GetCell(col: nat): Option<Cell>
    {
      if col in cells then Some(cells[col]) else None
    }
  }

  /** A sheet: its rows by zero-based row index, and `getLastRowNum()`. */
  datatype Sheet = Sheet(rows: map<int, Row>, lastRowNum: int32) {
    function GetRow(i: int): Option<Row>
    {
      if i in rows then Some(rows[i]) else None
    }
  }

  /** An opened workbook; `getNumberOfSheets()` is `|sheets|`. */
  datatype Workbook = Workbook(sheets: seq<Sheet>)

  /** The cell values that reduce to a non-empty string. */
  predicate HasText(v: CellValue) {
    v.Bool? || v.Num? || (v.Str? && v.s != "")
  }

  /**
   * `getString`: the string a (possibly null) cell contributes as a key or a value.
   * A null cell, a null evaluation, and blank, error, formula and unrecognised types give "".
   */
  function GetString(cell: Option<Cell>): (r: string)
    ensures r != "" <==> cell.Some? && cell.value.evaluated.Some? && HasText(cell.value.evaluated.value)
    ensures cell.Some? && cell.value.evaluated.Some? && cell.value.evaluated.value.Bool? ==>
              r == (if cell.value.evaluated.value.b then "true" else "false")
    ensures cell.Some? && cell.value.evaluated.Some? && cell.value.evaluated.value.Str? ==>
              r == cell.value.evaluated.value.s
    ensures cell.Some? && cell.value.evaluated.Some? && cell.value.evaluated.value.Num? ==>
              r == cell.value.evaluated.value.text
  {
    match cell
    case None => ""
    case Some(c) =>
      match c.evaluated
      case None => ""
      case Some(v) =>
        match v
        case Bool(b) => if b then "true" else "false"
        case Num(text) => text
        case Str(s) => s
        case Formula => ""  // not produced by an evaluator
        case Error => ""
        case Blank => ""
        case Unrecognized(_) => ""
  }

}
