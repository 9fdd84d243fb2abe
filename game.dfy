/** GameController: the round state in fields, the spin sequence, the grid
    scan loops and the bet buttons. */
module Game {
  import opened Grids
  import opened Reels
  import opened Payouts
  import opened Winnings
  import opened Rounds

  /** The 20 draws of one grid fill. */
  predicate DrawSet(draws: seq<real>) {
    |draws| == CellCount
  }

  predicate DrawSets(draws: seq<seq<real>>) {
    forall i :: 0 <= i < |draws| ==> DrawSet(draws[i])
  }

  /** The grids the reels would show for successive draw sets. */
  function Layouts(draws: seq<seq<real>>, spriteCount: nat): (grids: seq<Grid>)
    requires DrawSets(draws)
    ensures |grids| == |draws| && AllGrids(grids)
    ensures forall i :: 0 <= i < |draws| ==> grids[i] == Layout(draws[i], spriteCount)
  {
    seq(|draws|, i requires 0 <= i < |draws| => Layout(draws[i], spriteCount))
  }

  class GameController {
    var PlayerCredits: int
    var CurrentBet: int
    var LastWinAmount: int
    var spinningInProgress: bool
    var spinsCompleted: int
    var lifetimeWinnings: int
    /** The reel controller wired in the scene. */
    const ReelManager: ReelController

    function Round(): RoundState
      reads this
    {
      RoundState(PlayerCredits, CurrentBet, LastWinAmount, spinningInProgress, spinsCompleted, lifetimeWinnings)
    }

    ghost predicate Valid()
      reads this
    {
      ReelManager.Valid()
    }

    /** The round state and the grid on the reels. */
    function State(): Machine
      requires Valid()
      reads this, ReelManager.currentSymbols
    {
      Machine(Round(), Snapshot(ReelManager.currentSymbols))
    }

    /** The field initialisers, with the scene's reel controller. */
    constructor (reels: ReelController)
      requires reels.Valid()
      ensures Valid() && ReelManager == reels
      ensures Round() == Initial
    {
      PlayerCredits := 1000;
      CurrentBet := 10;
      LastWinAmount := 0;
      spinningInProgress := false;
      spinsCompleted := 0;
      lifetimeWinnings := 0;
      ReelManager := reels;
    }

    /** Starts the spin sequence when no spin is running and the credits
        cover the bet; the sequence's grid fills take their draws from
        `draws` and, for the bonus rounds, from `freeDraws`. */
    method HandleSpinRequest(draws: seq<real>, freeDraws: seq<seq<real>>)
      requires Valid() && DrawSet(draws) && DrawSets(freeDraws) && |freeDraws| == FreeSpinRounds
      modifies this, ReelManager.currentSymbols
      ensures Valid()
      ensures State() == Spin(old(State()), Layout(draws, ReelManager.spriteCount),
                              Layouts(freeDraws, ReelManager.spriteCount)).machine
    {
      if !spinningInProgress && PlayerCredits >= CurrentBet {
        var completed := ExecuteSpinSequence(draws, freeDraws);
      }
    }

    /** The spin sequence; `completed` is false when a pay-table lookup
        raised and the rest of the sequence did not run. */
    method ExecuteSpinSequence(draws: seq<real>, freeDraws: seq<seq<real>>) returns (completed: bool)
      requires Valid() && DrawSet(draws) && DrawSets(freeDraws) && |freeDraws| == FreeSpinRounds
      requires CanSpin(Round())
      modifies this, ReelManager.currentSymbols
      ensures Valid()
      ensures var run := Spin(old(State()), Layout(draws, ReelManager.spriteCount),
                              Layouts(freeDraws, ReelManager.spriteCount));
        State() == run.machine && (completed <==> run.Finished?)
    {
      ghost var before := State();
      ghost var g := Layout(draws, ReelManager.spriteCount);
      ghost var freeGrids := Layouts(freeDraws, ReelManager.spriteCount);
      spinningInProgress := true;
      PlayerCredits := PlayerCredits - CurrentBet;
      LastWinAmount := 0;
      spinsCompleted := spinsCompleted + 1;
      assert Round() == Started(before.round);

      ReelManager.GenerateNewSymbolLayout(draws);
      var currentSymbols := ReelManager.GetVisibleSymbols();
      assert Snapshot(currentSymbols) == g;

      var evaluation := CalculateWinnings(currentSymbols);
      if evaluation.OutOfRange? {
        return false;
      }
      CreditWin(evaluation.outcome);

      var scatterCount := CountSymbolOccurrences(Scatter, currentSymbols);
      if scatterCount >= 3 {
        completed := RunFreeSpinsRound(freeDraws);
        if !completed {
          return;
        }
      }
      spinningInProgress := false;
      completed := true;
    }

    /** The free-spins bonus: three rounds, each a grid fill, an evaluation
        at the current bet and a credit, with no bet taken. */
    method RunFreeSpinsRound(freeDraws: seq<seq<real>>) returns (completed: bool)
      requires Valid() && DrawSets(freeDraws) && |freeDraws| == FreeSpinRounds
      modifies this, ReelManager.currentSymbols
      ensures Valid()
      ensures var run := FreeSpins(old(State()), Layouts(freeDraws, ReelManager.spriteCount));
        State() == run.machine && (completed <==> run.Finished?)
    {
      ghost var freeGrids := Layouts(freeDraws, ReelManager.spriteCount);
      ghost var goal := FreeSpins(State(), freeGrids);
      for spin := 0 to FreeSpinRounds
        invariant Valid()
        invariant FreeSpins(State(), freeGrids[spin..]) == goal
      {
        ghost var before := State();
        ghost var rest := freeGrids[spin..];
        assert rest[0] == freeGrids[spin] && rest[1..] == freeGrids[spin + 1..];
        FreeSpinsStep(before, rest);
        ReelManager.GenerateNewSymbolLayout(freeDraws[spin]);
        var freeSpinSymbols := ReelManager.GetVisibleSymbols();
        assert Snapshot(freeSpinSymbols) == rest[0];
        var evaluation := CalculateWinnings(freeSpinSymbols);
        if evaluation.OutOfRange? {
          assert State() == Machine(before.round, rest[0]);
          return false;
        }
        CreditWin(evaluation.outcome);
      }
      assert freeGrids[FreeSpinRounds..] == [];
      completed := true;
    }

    /** Crediting an evaluated grid, as the main spin and each free round do:
        the win becomes `LastWinAmount` and is added to `PlayerCredits`, and to
        `lifetimeWinnings` when some cell won. */
    method CreditWin(outcome: Outcome)
      modifies this
      ensures Round() == Credited(old(Round()), outcome)
    {
      var winAmount := outcome.win;
      if |outcome.cells| > 0 {
        lifetimeWinnings := lifetimeWinnings + winAmount;
      }
      PlayerCredits := PlayerCredits + winAmount;
      LastWinAmount := winAmount;
    }

    /** The grid evaluation, row by row and then the Scatter rule;
        `OutOfRange` stands for the exception a lookup raises. */
    method CalculateWinnings(symbolGrid: array2<Symbol>) returns (result: Evaluation)
      requires Shaped(symbolGrid)
      ensures result == Evaluate(Snapshot(symbolGrid), CurrentBet)
    {
      var rows := RowWinnings(symbolGrid);
      if rows.OutOfRange? {
        return OutOfRange;
      }
      var totalWin := rows.outcome.win;
      var winningCells := rows.outcome.cells;

      var scatterCount := CountSymbolOccurrences(Scatter, symbolGrid);
      if scatterCount >= 3 {
        var scatterPayout := GetSymbolValue(Scatter.Name(), scatterCount);
        if scatterPayout.IndexOutOfRange? {
          return OutOfRange;
        }
        totalWin := totalWin + TruncDiv(scatterPayout.multiplier * CurrentBet, 10);
        var scatterCells := CollectScatterCells(symbolGrid);
        winningCells := winningCells + scatterCells;
      }
      result := Ok(Outcome(totalWin, winningCells));
    }

    /** The row loop of `CalculateWinnings`: rows 0 to 3 in order, a row
        starting with a Scatter skipped, a run of three or more paid at
        `GetSymbolValue(start, run) * CurrentBet / 10` and its cells appended. */
    method RowWinnings(symbolGrid: array2<Symbol>) returns (result: Evaluation)
      requires Shaped(symbolGrid)
      ensures result == Rows(Snapshot(symbolGrid), CurrentBet, RowCount)
    {
      ghost var g := Snapshot(symbolGrid);
      var totalWin := 0;
      var winningCells: seq<Cell> := [];

      var rowIndex := 0;
      while rowIndex < RowCount
        invariant 0 <= rowIndex <= RowCount
        invariant Rows(g, CurrentBet, rowIndex) == Ok(Outcome(totalWin, winningCells))
      {
        ghost var sofar := Outcome(totalWin, winningCells);
        var startingSymbol := symbolGrid[0, rowIndex];
        assert startingSymbol == g[0][rowIndex];
        if startingSymbol == Scatter {
          RowsStep(g, CurrentBet, rowIndex, sofar, NoWin);
          assert winningCells + [] == winningCells;
          rowIndex := rowIndex + 1;
          continue;
        }

        var consecutiveMatches, rowWinningCells := ScanRun(symbolGrid, rowIndex);

        if consecutiveMatches >= 3 {
          var symbolPayout := GetSymbolValue(startingSymbol.Name(), consecutiveMatches);
          if symbolPayout.IndexOutOfRange? {
            RowsFaultExactly(g, CurrentBet, rowIndex + 1);
            RowsFaultExactly(g, CurrentBet, RowCount);
            return OutOfRange;
          }
          ghost var here := Outcome(TruncDiv(symbolPayout.multiplier * CurrentBet, 10), rowWinningCells);
          assert RowEvaluation(g, rowIndex, CurrentBet) == Ok(here);
          RowsStep(g, CurrentBet, rowIndex, sofar, here);
          totalWin := totalWin + TruncDiv(symbolPayout.multiplier * CurrentBet, 10);
          winningCells := winningCells + rowWinningCells;
        } else {
          RowsStep(g, CurrentBet, rowIndex, sofar, NoWin);
          assert winningCells + [] == winningCells;
        }
        rowIndex := rowIndex + 1;
      }

      result := Ok(Outcome(totalWin, winningCells));
    }

    /** The Scatter pass of `CalculateWinnings`: every Scatter cell, reel by
        reel and top to bottom. */
    method CollectScatterCells(symbolGrid: array2<Symbol>) returns (cells: seq<Cell>)
      requires Shaped(symbolGrid)
      ensures cells == CellsHolding(Snapshot(symbolGrid), Scatter, ReelCount)
    {
      ghost var g := Snapshot(symbolGrid);
      cells := [];
      for reelIndex := 0 to ReelCount
        invariant cells == CellsHolding(g, Scatter, reelIndex)
      {
        for rowIndex := 0 to RowCount
          invariant cells == CellsHolding(g, Scatter, reelIndex) + ReelHolding(g, Scatter, reelIndex, rowIndex)
        {
          ReelHoldingStep(g, Scatter, reelIndex, rowIndex);
          var cell := symbolGrid[reelIndex, rowIndex];
          assert cell == g[reelIndex][rowIndex];
          if cell == Scatter {
            cells := cells + [Cell(reelIndex, rowIndex)];
          }
        }
      }
    }

    /** The inner loop of `CalculateWinnings` for one row: the run from reel
        0 and its cells, stopping at the first reel that holds neither the
        starting symbol nor a Wild. */
    method ScanRun(symbolGrid: array2<Symbol>, rowIndex: int) returns (consecutiveMatches: int, rowWinningCells: seq<Cell>)
      requires Shaped(symbolGrid) && 0 <= rowIndex < RowCount
      ensures consecutiveMatches == RunLength(Snapshot(symbolGrid), rowIndex)
      ensures rowWinningCells == RunCells(rowIndex, consecutiveMatches)
    {
      ghost var g := Snapshot(symbolGrid);
      var startingSymbol := symbolGrid[0, rowIndex];
      assert startingSymbol == g[0][rowIndex];
      consecutiveMatches := 1;
      rowWinningCells := [Cell(0, rowIndex)];
      var reelIndex := 1;
      while reelIndex < ReelCount
        invariant 1 <= reelIndex <= ReelCount && consecutiveMatches == reelIndex
        invariant forall j :: 1 <= j < reelIndex ==> Extends(g, rowIndex, j)
        invariant rowWinningCells == RunCells(rowIndex, reelIndex)
      {
        var cell := symbolGrid[reelIndex, rowIndex];
        assert cell == g[reelIndex][rowIndex];
        if cell == startingSymbol || cell == Wild {
          consecutiveMatches := consecutiveMatches + 1;
          rowWinningCells := rowWinningCells + [Cell(reelIndex, rowIndex)];
        } else {
          break;
        }
        reelIndex := reelIndex + 1;
      }
      RunLengthUnique(g, rowIndex, consecutiveMatches);
    }

    /** The number of cells holding `targetSymbol`, scanned reel by reel. */
    method CountSymbolOccurrences(targetSymbol: Symbol, symbolGrid: array2<Symbol>) returns (occurrenceCount: int)
      requires Shaped(symbolGrid)
      ensures occurrenceCount == Occurrences(Snapshot(symbolGrid), targetSymbol)
    {
      ghost var g := Snapshot(symbolGrid);
      occurrenceCount := 0;
      for reelIndex := 0 to ReelCount
        invariant occurrenceCount == |CellsHolding(g, targetSymbol, reelIndex)|
      {
        for rowIndex := 0 to RowCount
          invariant occurrenceCount == |CellsHolding(g, targetSymbol, reelIndex)| + |ReelHolding(g, targetSymbol, reelIndex, rowIndex)|
        {
          ReelHoldingStep(g, targetSymbol, reelIndex, rowIndex);
          var cell := symbolGrid[reelIndex, rowIndex];
          assert cell == g[reelIndex][rowIndex];
          if cell == targetSymbol {
            occurrenceCount := occurrenceCount + 1;
          }
        }
      }
    }

    /** The increase button: ten more, up to 100. */
    method IncreaseBetAmount()
      modifies this`CurrentBet
      ensures Round() == old(Round()).(bet := IncreasedBet(old(CurrentBet)))
    {
      if CurrentBet < 100 {
        CurrentBet := CurrentBet + 10;
      }
    }

    /** The decrease button: ten less, down to 10. */
    method DecreaseBetAmount()
      modifies this`CurrentBet
      ensures Round() == old(Round()).(bet := DecreasedBet(old(CurrentBet)))
    {
      if CurrentBet > 10 {
        CurrentBet := CurrentBet - 10;
      }
    }

    /** The guard of `CalculateCurrentRTP`: the RTP figure is computed, from
        `lifetimeWinnings` over `spinsCompleted * CurrentBet`, only once a
        spin has started. */
    method CalculateCurrentRTP() returns (denominator: Option<int>)
      ensures denominator == RtpDenominator(Round())
      ensures denominator.Some? <==> spinsCompleted > 0
    {
      if spinsCompleted > 0 {
        denominator := Some(spinsCompleted * CurrentBet);
      } else {
        denominator := None;
      }
    }
  }
}
