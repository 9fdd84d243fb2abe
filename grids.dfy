/** The symbols and the 5 x 4 symbol grid shared by the reels, the win
    evaluation and the analytics. The source keeps each cell as the symbol's
    name string in a `string[5, 4]` indexed `[reel, row]`; here a cell holds a
    `Symbol`, whose `Name()` is that string, and the specification functions
    work on the grid's value, a sequence of reels, each of four rows. */
module Grids {

  /** The 13 symbol kinds; each stands for the name string the source stores. */
  datatype Symbol =
    | Air | Fire | Water | Earth
    | Wild | Scatter | Bonus
    | Dummy1 | Dummy2 | Dummy3 | Dummy4 | Dummy5 | Dummy6
  {
    function Name(): string {
      match this
      case Air => "Air"
      case Fire => "Fire"
      case Water => "Water"
      case Earth => "Earth"
      case Wild => "Wild"
      case Scatter => "Scatter"
      case Bonus => "Bonus"
      case Dummy1 => "Dummy1"
      case Dummy2 => "Dummy2"
      case Dummy3 => "Dummy3"
      case Dummy4 => "Dummy4"
      case Dummy5 => "Dummy5"
      case Dummy6 => "Dummy6"
    }
  }

  /** Distinct symbols have distinct names, so comparing cells by symbol is
      comparing the source's strings. */
  lemma NamesAreDistinct(a: Symbol, b: Symbol)
    ensures a.Name() == b.Name() <==> a == b
  {
  }

  const ReelCount := 5
  const RowCount := 4
  const CellCount := 20

  /** A grid value indexed `g[reel][row]`. */
  type Grid = seq<seq<Symbol>>

  /** A (reel, row) coordinate, the source's `Vector2Int(x = reel, y = row)`. */
  datatype Cell = Cell(reel: int, row: int)

  predicate IsGrid(g: Grid) {
    |g| == ReelCount && forall reel :: 0 <= reel < ReelCount ==> |g[reel]| == RowCount
  }

  predicate InBounds(c: Cell) {
    0 <= c.reel < ReelCount && 0 <= c.row < RowCount
  }

  /** An array of the source's shape `string[5, 4]`. */
  predicate Shaped(a: array2<Symbol>) {
    a.Length0 == ReelCount && a.Length1 == RowCount
  }

  /** The value currently held by a grid array. */
  function Snapshot(a: array2<Symbol>): (g: Grid)
    requires Shaped(a)
    reads a
    ensures IsGrid(g)
    ensures forall reel, row :: 0 <= reel < ReelCount && 0 <= row < RowCount ==> g[reel][row] == a[reel, row]
  {
    seq(ReelCount, reel requires 0 <= reel < ReelCount reads a =>
      seq(RowCount, row requires 0 <= row < RowCount reads a => a[reel, row]))
  }

  /** Two grids agreeing on every cell are equal. */
  lemma GridExtensionality(g: Grid, h: Grid)
    requires IsGrid(g) && IsGrid(h)
    requires forall reel, row :: 0 <= reel < ReelCount && 0 <= row < RowCount ==> g[reel][row] == h[reel][row]
    ensures g == h
  {
    forall reel | 0 <= reel < ReelCount
      ensures g[reel] == h[reel]
    {
      assert forall row :: 0 <= row < RowCount ==> g[reel][row] == h[reel][row];
    }
  }
}
