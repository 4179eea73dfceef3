/**
 * A spreadsheet as the parsers hand it to the application: a sequence of
 * rows, each a JavaScript object from column header to cell value.
 */
module SheetData {

  /**
   * One cell value. A number is represented by the text JavaScript prints for
   * it, so that two numbers are equal exactly when their renderings are (as a
   * Set and === compare them; 0 and -0 both print "0", NaN prints "NaN").
   */
  datatype Cell = Undefined | Text(s: string) | Number(text: string) | Boolean(b: bool)

  /** The text a template literal gives for the value (`${v}`), which is also v.toString() when v is defined. */
  function Render(c: Cell): string {
    match c
    case Undefined => "undefined"
    case Text(s) => s
    case Number(t) => t
    case Boolean(b) => if b then "true" else "false"
  }

  /** A row object: its own keys in Object.keys order, and the value under each key. */
  datatype Row = Row(columns: seq<string>, cells: map<string, Cell>)

  /** row[col]; a key the row does not have reads as undefined. */
  function Get(row: Row, col: string): Cell {
    if col in row.cells then row.cells[col] else Undefined
  }
}
