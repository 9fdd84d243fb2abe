/** The win evaluation of `GameController.CalculateWinnings` and
    `CountSymbolOccurrences`, as functions of the grid's value and the bet. */
module Winnings {
  import opened Grids
  import opened Payouts

  /** A win amount and the ordered list of cells that produced it
      (duplicates kept, as the source's `List<Vector2Int>` does). */
  datatype Outcome = Outcome(win: int, cells: seq<Cell>)

  /** An evaluation either completes or ends in the exception that
      `GetSymbolValue` raises on an out-of-range match count. */
  datatype Evaluation = Ok(outcome: Outcome) | OutOfRange

  const NoWin := Outcome(0, [])

  /** C#'s `/` on `int`: the quotient truncated toward zero. */
  function TruncDiv(a: int, b: int): (q: int)
    requires b > 0
    ensures a >= 0 ==> 0 <= q && q * b <= a < (q + 1) * b
    ensures a < 0 ==> q <= 0 && (q - 1) * b < a <= q * b
  {
    if a >= 0 then a / b else -((-a) / b)
  }

  /** Reel `reel` continues row `row`'s run: it holds the row's starting
      symbol or a Wild. */
  predicate Extends(g: Grid, row: int, reel: int)
    requires IsGrid(g) && 0 <= row < RowCount && 0 <= reel < ReelCount
  {
    g[reel][row] == g[0][row] || g[reel][row] == Wild
  }

  /** The number of consecutive reels from `reel` on that extend the run. */
  function RunFrom(g: Grid, row: int, reel: int): (n: nat)
    requires IsGrid(g) && 0 <= row < RowCount && 1 <= reel <= ReelCount
    ensures n <= ReelCount - reel
    decreases ReelCount - reel
  {
    if reel == ReelCount then 0
    else if Extends(g, row, reel) then 1 + RunFrom(g, row, reel + 1)
    else 0
  }

  /** The length of row `row`'s left-anchored run, reel 0 included. */
  function RunLength(g: Grid, row: int): (k: int)
    requires IsGrid(g) && 0 <= row < RowCount
    ensures 1 <= k <= ReelCount
  {
    1 + RunFrom(g, row, 1)
  }

  /** Cells (0, row), ..., (k - 1, row). */
  function RunCells(row: int, k: nat): (cells: seq<Cell>)
    ensures |cells| == k
    ensures forall i :: 0 <= i < k ==> cells[i] == Cell(i, row)
  {
    seq(k, i => Cell(i, row))
  }

  /** A row takes part in line wins: it does not start with a Scatter and
      its run reaches three reels. */
  predicate LinePays(g: Grid, row: int)
    requires IsGrid(g) && 0 <= row < RowCount
  {
    g[0][row] != Scatter && RunLength(g, row) >= 3
  }

  /** The contribution of one row. */
  function RowEvaluation(g: Grid, row: int, bet: int): Evaluation
    requires IsGrid(g) && 0 <= row < RowCount
  {
    if !LinePays(g, row) then Ok(NoWin)
    else
      var k := RunLength(g, row);
      match GetSymbolValue(g[0][row].Name(), k)
      case IndexOutOfRange => OutOfRange
      case Pays(m) => Ok(Outcome(TruncDiv(m * bet, 10), RunCells(row, k)))
  }

  /** Sequential composition: the first exception wins, otherwise wins add
      up and cell lists are concatenated in order. */
  function Then(a: Evaluation, b: Evaluation): Evaluation {
    match a
    case OutOfRange => OutOfRange
    case Ok(x) =>
      match b
      case OutOfRange => OutOfRange
      case Ok(y) => Ok(Outcome(x.win + y.win, x.cells + y.cells))
  }

  /** Rows 0 .. n - 1 evaluated in order. */
  function Rows(g: Grid, bet: int, n: int): Evaluation
    requires IsGrid(g) && 0 <= n <= RowCount
  {
    if n == 0 then Ok(NoWin) else Then(Rows(g, bet, n - 1), RowEvaluation(g, n - 1, bet))
  }

  /** The cells of reel `reel` among its first `rows` rows that hold
      `target`, top row first. */
  function ReelHolding(g: Grid, target: Symbol, reel: int, rows: int): seq<Cell>
    requires IsGrid(g) && 0 <= reel < ReelCount && 0 <= rows <= RowCount
  {
    if rows == 0 then []
    else ReelHolding(g, target, reel, rows - 1) + (if g[reel][rows - 1] == target then [Cell(reel, rows - 1)] else [])
  }

  /** The cells of the first `reels` reels holding `target`, in the order of
      a reel-major scan (reel outer, row inner). */
  function CellsHolding(g: Grid, target: Symbol, reels: int): seq<Cell>
    requires IsGrid(g) && 0 <= reels <= ReelCount
  {
    if reels == 0 then []
    else CellsHolding(g, target, reels - 1) + ReelHolding(g, target, reels - 1, RowCount)
  }

  /** How many cells of the grid hold `target`. */
  function Occurrences(g: Grid, target: Symbol): nat
    requires IsGrid(g)
  {
    |CellsHolding(g, target, ReelCount)|
  }

  /** The grid-wide Scatter contribution. */
  function ScatterEvaluation(g: Grid, bet: int): Evaluation
    requires IsGrid(g)
  {
    var scatterCount := Occurrences(g, Scatter);
    if scatterCount < 3 then Ok(NoWin)
    else
      match GetSymbolValue(Scatter.Name(), scatterCount)
      case IndexOutOfRange => OutOfRange
      case Pays(m) => Ok(Outcome(TruncDiv(m * bet, 10), CellsHolding(g, Scatter, ReelCount)))
  }

  /** `CalculateWinnings`: the four rows in order, then the Scatter rule. */
  function Evaluate(g: Grid, bet: int): Evaluation
    requires IsGrid(g)
  {
    Then(Rows(g, bet, RowCount), ScatterEvaluation(g, bet))
  }

  // ---------------------------------------------------------------------
  // Runs

  lemma {:induction false} RunFromStopsAtFirstMismatch(g: Grid, row: int, reel: int)
    requires IsGrid(g) && 0 <= row < RowCount && 1 <= reel <= ReelCount
    ensures forall j :: reel <= j < reel + RunFrom(g, row, reel) ==> Extends(g, row, j)
    ensures reel + RunFrom(g, row, reel) < ReelCount ==> !Extends(g, row, reel + RunFrom(g, row, reel))
    decreases ReelCount - reel
  {
    if reel < ReelCount && Extends(g, row, reel) {
      RunFromStopsAtFirstMismatch(g, row, reel + 1);
    }
  }

  /** The run is the longest prefix from reel 0 whose cells hold the
      starting symbol or a Wild: every reel before it extends the run and
      the reel right after it, if any, does not. */
  lemma RunLengthIsLongestPrefix(g: Grid, row: int)
    requires IsGrid(g) && 0 <= row < RowCount
    ensures forall j :: 1 <= j < RunLength(g, row) ==> Extends(g, row, j)
    ensures RunLength(g, row) < ReelCount ==> !Extends(g, row, RunLength(g, row))
  {
    RunFromStopsAtFirstMismatch(g, row, 1);
  }

  /** Those two facts determine the run length. */
  lemma RunLengthUnique(g: Grid, row: int, k: int)
    requires IsGrid(g) && 0 <= row < RowCount && 1 <= k <= ReelCount
    requires forall j :: 1 <= j < k ==> Extends(g, row, j)
    requires k < ReelCount ==> !Extends(g, row, k)
    ensures k == RunLength(g, row)
  {
    RunLengthIsLongestPrefix(g, row);
  }

  /** A row that starts with a Wild is extended by Wilds only. */
  lemma WildStartExtendsOnlyWithWilds(g: Grid, row: int)
    requires IsGrid(g) && 0 <= row < RowCount
    requires g[0][row] == Wild
    ensures forall j :: 0 <= j < RunLength(g, row) ==> g[j][row] == Wild
  {
    RunLengthIsLongestPrefix(g, row);
    assert forall j :: 1 <= j < RunLength(g, row) ==> Extends(g, row, j);
  }

  /** A row whose first cell is a Scatter contributes neither win nor cells. */
  lemma ScatterStartedRowContributesNothing(g: Grid, row: int, bet: int)
    requires IsGrid(g) && 0 <= row < RowCount
    requires g[0][row] == Scatter
    ensures RowEvaluation(g, row, bet) == Ok(NoWin)
  {
  }

  // ---------------------------------------------------------------------
  // The scan for a symbol

  /** The position of a cell in the reel-major scan. */
  function ScanIndex(c: Cell): int {
    c.reel * RowCount + c.row
  }

  /** One reel's list holds exactly the reel's cells above row `rows` that
      hold the target, top to bottom. */
  lemma {:induction false} ReelHoldingExactly(g: Grid, target: Symbol, reel: int, rows: int)
    requires IsGrid(g) && 0 <= reel < ReelCount && 0 <= rows <= RowCount
    ensures forall c :: c in ReelHolding(g, target, reel, rows) <==>
      c.reel == reel && 0 <= c.row < rows && g[reel][c.row] == target
    ensures forall i, j :: 0 <= i < j < |ReelHolding(g, target, reel, rows)| ==>
      ReelHolding(g, target, reel, rows)[i].row < ReelHolding(g, target, reel, rows)[j].row
  {
    if rows > 0 {
      ReelHoldingExactly(g, target, reel, rows - 1);
    }
  }

  /** The scan lists exactly the cells of the first `reels` reels holding the
      target, in strictly increasing scan position, so no cell twice. */
  lemma {:induction false} CellsHoldingExactly(g: Grid, target: Symbol, reels: int)
    requires IsGrid(g) && 0 <= reels <= ReelCount
    ensures forall c :: c in CellsHolding(g, target, reels) <==>
      InBounds(c) && c.reel < reels && g[c.reel][c.row] == target
    ensures forall i, j :: 0 <= i < j < |CellsHolding(g, target, reels)| ==>
      ScanIndex(CellsHolding(g, target, reels)[i]) < ScanIndex(CellsHolding(g, target, reels)[j])
  {
    if reels > 0 {
      CellsHoldingExactly(g, target, reels - 1);
      ReelHoldingExactly(g, target, reels - 1, RowCount);
      var before := CellsHolding(g, target, reels - 1);
      var here := ReelHolding(g, target, reels - 1, RowCount);
      assert forall i :: 0 <= i < |before| ==> before[i] in before;
      assert forall j :: 0 <= j < |here| ==> here[j] in here;
    }
  }

  /** One row step of the scan: the list grows by cell (reel, row) exactly
      when it holds the target. */
  lemma ReelHoldingStep(g: Grid, target: Symbol, reel: int, row: int)
    requires IsGrid(g) && 0 <= reel < ReelCount && 0 <= row < RowCount
    ensures ReelHolding(g, target, reel, row + 1)
      == ReelHolding(g, target, reel, row) + (if g[reel][row] == target then [Cell(reel, row)] else [])
  {
  }

  // ---------------------------------------------------------------------
  // The evaluation

  /** Membership in a run's cells. */
  lemma RunCellsMembership(row: int, k: nat, c: Cell)
    ensures c in RunCells(row, k) <==> c.row == row && 0 <= c.reel < k
  {
    if c.row == row && 0 <= c.reel < k {
      assert RunCells(row, k)[c.reel] == c;
    }
  }

  /** Adding row `n`'s contribution to the first `n` rows' result. */
  lemma RowsStep(g: Grid, bet: int, n: int, sofar: Outcome, here: Outcome)
    requires IsGrid(g) && 0 <= n < RowCount
    requires Rows(g, bet, n) == Ok(sofar) && RowEvaluation(g, n, bet) == Ok(here)
    ensures Rows(g, bet, n + 1) == Ok(Outcome(sofar.win + here.win, sofar.cells + here.cells))
  {
  }

  /** The first `n` rows raise exactly when one of them pays on a full
      five-reel run: the table has no entry at index 5. */
  lemma {:induction false} RowsFaultExactly(g: Grid, bet: int, n: int)
    requires IsGrid(g) && 0 <= n <= RowCount
    ensures Rows(g, bet, n).OutOfRange? <==>
      exists row :: 0 <= row < n && LinePays(g, row) && RunLength(g, row) == ReelCount
  {
    if n > 0 {
      RowsFaultExactly(g, bet, n - 1);
      TableIsDesignShiftedByOne(g[0][n - 1], RunLength(g, n - 1));
    }
  }

  /** A non-negative multiplier times a non-negative bet, scaled by 1/10, is non-negative. */
  lemma ScaledWinNonNegative(m: nat, bet: int)
    requires bet >= 0
    ensures TruncDiv(m * bet, 10) >= 0
  {
    assert m * bet >= 0;
  }

  /** For a non-negative bet the rows' win is non-negative. */
  lemma {:induction false} RowsWinNonNegative(g: Grid, bet: int, n: int)
    requires IsGrid(g) && 0 <= n <= RowCount && bet >= 0
    ensures Rows(g, bet, n).Ok? ==> Rows(g, bet, n).outcome.win >= 0
  {
    if n > 0 {
      RowsWinNonNegative(g, bet, n - 1);
      var row := n - 1;
      if LinePays(g, row) {
        var v := GetSymbolValue(g[0][row].Name(), RunLength(g, row));
        if v.Pays? {
          ScaledWinNonNegative(v.multiplier, bet);
        }
      }
    }
  }

  /** The rows' cells are exactly the run cells of the paying rows. */
  lemma {:induction false} RowsCellsExactly(g: Grid, bet: int, n: int)
    requires IsGrid(g) && 0 <= n <= RowCount
    ensures Rows(g, bet, n).Ok? ==> forall c :: c in Rows(g, bet, n).outcome.cells <==>
      0 <= c.row < n && LinePays(g, c.row) && 0 <= c.reel < RunLength(g, c.row)
  {
    if n > 0 {
      RowsCellsExactly(g, bet, n - 1);
      var row := n - 1;
      var here := RowEvaluation(g, row, bet);
      if here.Ok? && LinePays(g, row) {
        forall c
          ensures c in here.outcome.cells <==> c.row == row && 0 <= c.reel < RunLength(g, row)
        {
          RunCellsMembership(row, RunLength(g, row), c);
        }
      }
    }
  }

  /** The rows' cell list is empty exactly when no row pays. */
  lemma RowsCellsEmptyExactly(g: Grid, bet: int, n: int)
    requires IsGrid(g) && 0 <= n <= RowCount
    ensures Rows(g, bet, n).Ok? ==>
      (Rows(g, bet, n).outcome.cells == [] <==> forall row :: 0 <= row < n ==> !LinePays(g, row))
  {
    RowsCellsExactly(g, bet, n);
    if Rows(g, bet, n).Ok? && Rows(g, bet, n).outcome.cells != [] {
      assert Rows(g, bet, n).outcome.cells[0] in Rows(g, bet, n).outcome.cells;
    }
    if Rows(g, bet, n).Ok? && exists row :: 0 <= row < n && LinePays(g, row) {
      var row :| 0 <= row < n && LinePays(g, row);
      assert Cell(0, row) in Rows(g, bet, n).outcome.cells;
    }
  }

  /** The Scatter rule on its own. */
  lemma ScatterFacts(g: Grid, bet: int)
    requires IsGrid(g)
    ensures ScatterEvaluation(g, bet).OutOfRange? <==> Occurrences(g, Scatter) >= 5
    ensures ScatterEvaluation(g, bet).Ok? && bet >= 0 ==> ScatterEvaluation(g, bet).outcome.win >= 0
    ensures ScatterEvaluation(g, bet).Ok? ==>
      (ScatterEvaluation(g, bet).outcome.cells == [] <==> Occurrences(g, Scatter) < 3)
    ensures ScatterEvaluation(g, bet).Ok? ==> forall c :: c in ScatterEvaluation(g, bet).outcome.cells <==>
      Occurrences(g, Scatter) >= 3 && InBounds(c) && g[c.reel][c.row] == Scatter
  {
    TableIsDesignShiftedByOne(Scatter, Occurrences(g, Scatter));
    CellsHoldingExactly(g, Scatter, ReelCount);
    var v := GetSymbolValue(Scatter.Name(), Occurrences(g, Scatter));
    if v.Pays? && bet >= 0 {
      ScaledWinNonNegative(v.multiplier, bet);
    }
  }

  /** With a non-negative bet the total win is never negative. */
  lemma EvaluateWinNonNegative(g: Grid, bet: int)
    requires IsGrid(g) && bet >= 0
    ensures Evaluate(g, bet).Ok? ==> Evaluate(g, bet).outcome.win >= 0
  {
    RowsWinNonNegative(g, bet, RowCount);
    ScatterFacts(g, bet);
  }

  /** The evaluation raises exactly when a row pays on all five reels or
      five or more Scatters are on the grid. */
  lemma EvaluateFaultsExactly(g: Grid, bet: int)
    requires IsGrid(g)
    ensures Evaluate(g, bet).OutOfRange? <==>
      (exists row :: 0 <= row < RowCount && LinePays(g, row) && RunLength(g, row) == ReelCount)
      || Occurrences(g, Scatter) >= 5
  {
    RowsFaultExactly(g, bet, RowCount);
    ScatterFacts(g, bet);
  }

  /** The cell list is empty exactly when no row pays and fewer than three
      Scatters show, and then the win is zero too. */
  lemma NoWinExactly(g: Grid, bet: int)
    requires IsGrid(g)
    ensures Evaluate(g, bet).Ok? ==>
      (Evaluate(g, bet).outcome.cells == [] <==>
        (forall row :: 0 <= row < RowCount ==> !LinePays(g, row)) && Occurrences(g, Scatter) < 3)
    ensures (forall row :: 0 <= row < RowCount ==> !LinePays(g, row)) && Occurrences(g, Scatter) < 3
      ==> Evaluate(g, bet) == Ok(NoWin)
  {
    RowsCellsEmptyExactly(g, bet, RowCount);
    ScatterFacts(g, bet);
    if (forall row :: 0 <= row < RowCount ==> !LinePays(g, row)) && Occurrences(g, Scatter) < 3 {
      assert Rows(g, bet, 1) == Ok(NoWin);
      assert Rows(g, bet, 2) == Ok(NoWin);
      assert Rows(g, bet, 3) == Ok(NoWin);
      assert Rows(g, bet, 4) == Ok(NoWin);
    }
  }

  /** A cell is reported exactly when it lies on a paying row's run or, with
      three or more Scatters on the grid, holds a Scatter. */
  lemma WinningCellsExactly(g: Grid, bet: int, c: Cell)
    requires IsGrid(g)
    requires Evaluate(g, bet).Ok?
    ensures c in Evaluate(g, bet).outcome.cells <==>
      InBounds(c) &&
      ((LinePays(g, c.row) && c.reel < RunLength(g, c.row))
       || (Occurrences(g, Scatter) >= 3 && g[c.reel][c.row] == Scatter))
  {
    RowsCellsExactly(g, bet, RowCount);
    ScatterFacts(g, bet);
  }

  /** The position of a cell when rows are read top to bottom, each left to
      right: the order in which the row loop appends run cells. */
  function LineIndex(c: Cell): int {
    c.row * ReelCount + c.reel
  }

  /** The cell is on the grid and holds `s`. */
  predicate HoldsAt(g: Grid, c: Cell, s: Symbol)
    requires IsGrid(g)
  {
    InBounds(c) && g[c.reel][c.row] == s
  }

  /** No cell on a paying row's run holds a Scatter: the first does not, and
      every later one repeats it or is a Wild. */
  lemma RunCellsAreNoScatters(g: Grid, row: int, reel: int)
    requires IsGrid(g) && 0 <= row < RowCount && LinePays(g, row)
    requires 0 <= reel < RunLength(g, row)
    ensures g[reel][row] != Scatter
  {
    RunLengthIsLongestPrefix(g, row);
    if reel > 0 {
      assert Extends(g, row, reel);
    }
  }

  /** The rows' cells lie on the first `n` rows, are no Scatters, and come
      in strictly increasing line position. */
  lemma {:induction false} RowsCellsOrdered(g: Grid, bet: int, n: int)
    requires IsGrid(g) && 0 <= n <= RowCount
    ensures Rows(g, bet, n).Ok? ==> forall i :: 0 <= i < |Rows(g, bet, n).outcome.cells| ==>
      var c := Rows(g, bet, n).outcome.cells[i]; InBounds(c) && c.row < n && !HoldsAt(g, c, Scatter)
    ensures Rows(g, bet, n).Ok? ==> forall i, j :: 0 <= i < j < |Rows(g, bet, n).outcome.cells| ==>
      LineIndex(Rows(g, bet, n).outcome.cells[i]) < LineIndex(Rows(g, bet, n).outcome.cells[j])
  {
    if n > 0 {
      RowsCellsOrdered(g, bet, n - 1);
      var row := n - 1;
      var here := RowEvaluation(g, row, bet);
      if here.Ok? && LinePays(g, row) {
        var cells := here.outcome.cells;
        assert cells == RunCells(row, RunLength(g, row));
        forall i | 0 <= i < |cells|
          ensures !HoldsAt(g, cells[i], Scatter)
        {
          RunCellsAreNoScatters(g, row, i);
        }
      }
    }
  }

  /** The reported cells come once each, in the order the source appends
      them: the run cells of the paying rows, row by row and left to right,
      then the Scatter cells in reel-major order. */
  lemma WinningCellsOrder(g: Grid, bet: int)
    requires IsGrid(g)
    requires Evaluate(g, bet).Ok?
    ensures var cells := Evaluate(g, bet).outcome.cells;
      forall i :: 0 <= i < |cells| ==> InBounds(cells[i])
    ensures var cells := Evaluate(g, bet).outcome.cells;
      forall i, j :: 0 <= i < j < |cells| ==> cells[i] != cells[j]
    ensures var cells := Evaluate(g, bet).outcome.cells;
      forall i, j :: 0 <= i < j < |cells| ==>
        (HoldsAt(g, cells[i], Scatter) ==> HoldsAt(g, cells[j], Scatter))
    ensures var cells := Evaluate(g, bet).outcome.cells;
      forall i, j :: 0 <= i < j < |cells| ==>
        (!HoldsAt(g, cells[j], Scatter) ==> LineIndex(cells[i]) < LineIndex(cells[j]))
    ensures var cells := Evaluate(g, bet).outcome.cells;
      forall i, j :: 0 <= i < j < |cells| ==>
        (HoldsAt(g, cells[i], Scatter) ==> ScanIndex(cells[i]) < ScanIndex(cells[j]))
  {
    RowsCellsOrdered(g, bet, RowCount);
    ScatterFacts(g, bet);
    if Occurrences(g, Scatter) >= 3 {
      CellsHoldingExactly(g, Scatter, ReelCount);
    }
    var a := Rows(g, bet, RowCount).outcome.cells;
    var b := ScatterEvaluation(g, bet).outcome.cells;
    var cells := Evaluate(g, bet).outcome.cells;
    assert cells == a + b;
    assert forall j :: 0 <= j < |b| ==> b[j] in b;
    assert forall j :: 0 <= j < |b| ==> HoldsAt(g, b[j], Scatter);
  }

  // ---------------------------------------------------------------------
  // Two rows whose intended score differs from the code's

  /** A row reading Fire Fire Fire Water ... at bet 10 has a run of three
      and pays the table's entry at index 3, 30, where `DesignedMultiplier`
      gives 15 for three Fires; its cells are reels 0 to 2 of the row. */
  lemma ThreeFiresPayIndexThree(g: Grid, row: int)
    requires IsGrid(g) && 0 <= row < RowCount
    requires g[0][row] == Fire && g[1][row] == Fire && g[2][row] == Fire && g[3][row] == Water
    ensures RunLength(g, row) == 3
    ensures RowEvaluation(g, row, 10) == Ok(Outcome(30, [Cell(0, row), Cell(1, row), Cell(2, row)]))
    ensures DesignedMultiplier(Fire, 3) == 15
  {
    RunLengthUnique(g, row, 3);
    TableIsDesignShiftedByOne(Fire, 3);
    assert RunCells(row, 3) == [Cell(0, row), Cell(1, row), Cell(2, row)];
  }

  /** A row reading Wild Fire ... has a run of one: the Wild is the
      starting symbol, so the Fire after it does not extend the run, and the
      row pays nothing, where the intended rule counts the Fires. */
  lemma WildFirstRowPaysNothing(g: Grid, row: int, bet: int)
    requires IsGrid(g) && 0 <= row < RowCount
    requires g[0][row] == Wild && g[1][row] == Fire
    ensures RunLength(g, row) == 1
    ensures RowEvaluation(g, row, bet) == Ok(NoWin)
  {
    RunLengthUnique(g, row, 1);
  }
}
