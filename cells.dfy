/** The cells of a client sheet as the spreadsheet reader delivers them, and
    the grid they form: rows of at most `width` cells, short rows read as
    empty. */
module Cells {

  /** One spreadsheet cell: `Blank` is an empty cell (pandas NaN), `Num` a
      numeric cell (Python int or float), `Text` a string cell, and `Other`
      any other value (a date or a time). */
  datatype Cell = Blank | Text(s: string) | Num(x: real) | Other

  /** `fillna('')`: an empty cell reads as the empty string. */
  function FillNa(c: Cell): Cell {
    if c.Blank? then Text("") else c
  }

  /** A client sheet read with `header=None`: zero-based rows of cells and
      the width of the frame. */
  datatype Grid = Grid(width: nat, rows: seq<seq<Cell>>)

  /** Every row lies within the frame, as in the frames pandas builds. */
  predicate WellFormed(g: Grid) {
    forall i :: 0 <= i < |g.rows| ==> |g.rows[i]| <= g.width
  }

  /** Cell `j` of a row; a row the reader delivered shorter than the frame
      is padded with empty cells. */
  function CellAt(row: seq<Cell>, j: nat): Cell {
    if j < |row| then row[j] else Blank
  }
}
