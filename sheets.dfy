/**
 * The worksheet the summary is written to, as the merge functions use it:
 * cells addressed by (row, column) from 1, the fill colour of each cell,
 * the merged ranges, and the sheet's extent. Every access to a cell
 * creates it (empty when it was not there), as the spreadsheet library
 * does, so reading a cell can move the sheet's extent.
 */
module Sheets {
  import opened Tables

  type Coord = (int, int)

  /** A rectangle of cells, corners included. */
  datatype Range = Range(top: int, left: int, bottom: int, right: int)

  predicate ProperRange(g: Range) {
    1 <= g.top <= g.bottom && 1 <= g.left <= g.right
  }

  predicate InRange(g: Range, k: Coord) {
    g.top <= k.0 <= g.bottom && g.left <= k.1 <= g.right
  }

  /** The value a cell holds; an absent cell reads as empty. */
  function Get(cells: map<Coord, Value>, k: Coord): (v: Value)
    ensures k !in cells ==> v == Missing
  {
    if k in cells then cells[k] else Missing
  }

  /** The cells after one is accessed: created empty if it was absent. */
  function Touch(cells: map<Coord, Value>, k: Coord): map<Coord, Value> {
    cells[k := Get(cells, k)]
  }

  /** Accessing a cell creates exactly that cell. */
  lemma TouchKeys(cells: map<Coord, Value>, k: Coord)
    ensures Touch(cells, k).Keys == cells.Keys + {k}
  {
  }

  /** Accessing a cell changes no cell's value. */
  lemma TouchGet(cells: map<Coord, Value>, k: Coord, j: Coord)
    ensures Get(Touch(cells, k), j) == Get(cells, j)
  {
  }

  /** The cells of row `row` from column `left` to column `right`. */
  function RowCells(row: int, left: int, right: int): set<Coord>
    decreases right - left
  {
    if right < left then {} else RowCells(row, left, right - 1) + {(row, right)}
  }

  /** The cells of a range, row by row. */
  function RangeCells(g: Range): set<Coord>
    decreases g.bottom - g.top
  {
    if g.bottom < g.top then {}
    else RangeCells(g.(bottom := g.bottom - 1)) + RowCells(g.bottom, g.left, g.right)
  }

  lemma {:induction false} RowCellsIff(row: int, left: int, right: int, k: Coord)
    ensures k in RowCells(row, left, right) <==> k.0 == row && left <= k.1 <= right
    decreases right - left
  {
    if left <= right {
      RowCellsIff(row, left, right - 1, k);
    }
  }

  lemma {:induction false} RangeCellsIff(g: Range, k: Coord)
    ensures k in RangeCells(g) <==> InRange(g, k)
    decreases g.bottom - g.top
  {
    if g.top <= g.bottom {
      RangeCellsIff(g.(bottom := g.bottom - 1), k);
      RowCellsIff(g.bottom, g.left, g.right, k);
    }
  }

  /**
   * The cells after merging a range: its top-left cell keeps its value and
   * every other cell of the range is replaced by an empty placeholder.
   */
  function MergedCells(cells: map<Coord, Value>, g: Range): (r: map<Coord, Value>)
    ensures r.Keys == cells.Keys + RangeCells(g)
  {
    map k | k in cells.Keys + RangeCells(g) :: if InRange(g, k) && k != (g.top, g.left) then Missing else Get(cells, k)
  }

  /** A merged range: the placeholders, the kept top-left cell, and every other cell as it was. */
  lemma MergedCellsGet(cells: map<Coord, Value>, g: Range, k: Coord)
    requires ProperRange(g)
    ensures InRange(g, k) ==> k in MergedCells(cells, g)
    ensures InRange(g, k) && k != (g.top, g.left) ==> Get(MergedCells(cells, g), k) == Missing
    ensures !(InRange(g, k) && k != (g.top, g.left)) ==> Get(MergedCells(cells, g), k) == Get(cells, k)
    ensures !InRange(g, k) ==> (k in MergedCells(cells, g) <==> k in cells)
  {
    RangeCellsIff(g, k);
  }

  function Max(a: int, b: int): int {
    if a < b then b else a
  }

  class Sheet {
    var cells: map<Coord, Value>
    var fills: map<Coord, string>
    var merged: seq<Range>
    var maxRow: int
    var maxCol: int

    /**
     * The extent is the largest row and column of any cell, and 1 for an
     * empty sheet; every filled cell exists.
     */
    predicate Valid()
      reads this
    {
      && 1 <= maxRow && 1 <= maxCol
      && (forall k :: k in cells ==> 1 <= k.0 <= maxRow && 1 <= k.1 <= maxCol)
      && (maxRow == 1 || exists k :: k in cells && k.0 == maxRow)
      && (maxCol == 1 || exists k :: k in cells && k.1 == maxCol)
      && fills.Keys <= cells.Keys
    }

    constructor ()
      ensures Valid() && cells == map[] && fills == map[] && merged == []
    {
      cells := map[];
      fills := map[];
      merged := [];
      maxRow := 1;
      maxCol := 1;
    }

    /** `ws.cell(row, column).value`: reads a cell, creating it when absent. */
    method Cell(row: int, col: int) returns (v: Value)
      requires Valid() && 1 <= row && 1 <= col
      modifies this
      ensures Valid()
      ensures v == Get(old(cells), (row, col))
      ensures cells == Touch(old(cells), (row, col))
      ensures fills == old(fills) && merged == old(merged)
      ensures maxRow == Max(old(maxRow), row) && maxCol == Max(old(maxCol), col)
    {
      v := Get(cells, (row, col));
      TouchKeys(cells, (row, col));
      cells := Touch(cells, (row, col));
      Grow(row, col);
    }

    /** `ws.cell(row, column, value=v)`: sets a cell's value. */
    method Write(row: int, col: int, v: Value)
      requires Valid() && 1 <= row && 1 <= col
      modifies this
      ensures Valid()
      ensures cells == old(cells)[(row, col) := v]
      ensures fills == old(fills) && merged == old(merged)
      ensures maxRow == Max(old(maxRow), row) && maxCol == Max(old(maxCol), col)
    {
      cells := cells[(row, col) := v];
      Grow(row, col);
    }

    /** `ws.cell(row, column).fill = ...`: colours a cell, creating it when absent. */
    method Fill(row: int, col: int, color: string)
      requires Valid() && 1 <= row && 1 <= col
      modifies this
      ensures Valid()
      ensures cells == Touch(old(cells), (row, col))
      ensures fills == old(fills)[(row, col) := color] && merged == old(merged)
      ensures maxRow == Max(old(maxRow), row) && maxCol == Max(old(maxCol), col)
    {
      TouchKeys(cells, (row, col));
      cells := Touch(cells, (row, col));
      fills := fills[(row, col) := color];
      Grow(row, col);
    }

    /** `ws.merge_cells(...)`: records the range and replaces its covered cells by placeholders. */
    method MergeCells(g: Range)
      requires Valid() && ProperRange(g)
      modifies this
      ensures Valid()
      ensures cells == MergedCells(old(cells), g)
      ensures fills == old(fills) && merged == old(merged) + [g]
      ensures maxRow == Max(old(maxRow), g.bottom) && maxCol == Max(old(maxCol), g.right)
    {
      forall k | k in RangeCells(g)
        ensures g.top <= k.0 <= g.bottom && g.left <= k.1 <= g.right
      {
        RangeCellsIff(g, k);
      }
      RangeCellsIff(g, (g.bottom, g.right));
      cells := MergedCells(cells, g);
      merged := merged + [g];
      Grow(g.bottom, g.right);
    }

    /** Extends the extent to a cell that now exists. */
    method Grow(row: int, col: int)
      requires 1 <= row && 1 <= col && (row, col) in cells
      requires 1 <= maxRow && 1 <= maxCol && fills.Keys <= cells.Keys
      requires forall k :: k in cells ==> 1 <= k.0 <= Max(maxRow, row) && 1 <= k.1 <= Max(maxCol, col)
      requires maxRow == 1 || exists k :: k in cells && k.0 == maxRow
      requires maxCol == 1 || exists k :: k in cells && k.1 == maxCol
      modifies this
      ensures Valid()
      ensures maxRow == Max(old(maxRow), row) && maxCol == Max(old(maxCol), col)
      ensures cells == old(cells) && fills == old(fills) && merged == old(merged)
    {
      maxRow := Max(maxRow, row);
      maxCol := Max(maxCol, col);
    }
  }
}
