/** The round state of `GameController` and the state machine its spin
    sequence, free-spins bonus and bet buttons drive, as functions of the
    state and the drawn grids. */
module Rounds {
  import opened Grids
  import opened Winnings

  datatype Option<T> = None | Some(value: T)

  /** `PlayerCredits`, `CurrentBet`, `LastWinAmount`, `spinningInProgress`,
      `spinsCompleted` and `lifetimeWinnings`. */
  datatype RoundState = RoundState(
    credits: int,
    bet: int,
    lastWin: int,
    spinning: bool,
    spinsCompleted: int,
    lifetimeWinnings: int)

  /** The round state together with the grid the reels show. */
  datatype Machine = Machine(round: RoundState, reels: Grid)

  /** A spin sequence either runs to its end or stops at the exception raised
      by the pay-table lookup, leaving the state it had reached. */
  datatype Run = Finished(machine: Machine) | Aborted(machine: Machine)

  /** The field initialisers. */
  const Initial := RoundState(1000, 10, 0, false, 0, 0)

  const MinBet := 10
  const MaxBet := 100
  const BetStep := 10
  const FreeSpinRounds := 3

  /** The guard of `HandleSpinRequest`. */
  predicate CanSpin(s: RoundState) {
    !s.spinning && s.credits >= s.bet
  }

  /** The start of `ExecuteSpinSequence`: the flag is raised, the bet taken,
      the last win cleared and the spin counted. */
  function Started(s: RoundState): (t: RoundState)
    ensures t.spinning && t.bet == s.bet && t.lastWin == 0
    ensures t.credits == s.credits - s.bet && t.spinsCompleted == s.spinsCompleted + 1
    ensures t.lifetimeWinnings == s.lifetimeWinnings
  {
    s.(spinning := true, credits := s.credits - s.bet, lastWin := 0, spinsCompleted := s.spinsCompleted + 1)
  }

  /** The part of a win added to `lifetimeWinnings`: all of it when some cell
      won, nothing otherwise. */
  function Counted(o: Outcome): int {
    if |o.cells| > 0 then o.win else 0
  }

  /** Crediting one evaluated grid, in the main spin and in each free round:
      the win becomes the last win and is added to the credits, and to the
      lifetime total when the cell list is non-empty. */
  function Credited(s: RoundState, o: Outcome): (t: RoundState)
    ensures t.credits == s.credits + o.win && t.lastWin == o.win
    ensures t.lifetimeWinnings == s.lifetimeWinnings + Counted(o)
    ensures t.bet == s.bet && t.spinning == s.spinning && t.spinsCompleted == s.spinsCompleted
  {
    s.(lastWin := o.win, credits := s.credits + o.win, lifetimeWinnings := s.lifetimeWinnings + Counted(o))
  }

  predicate AllGrids(grids: seq<Grid>) {
    forall i :: 0 <= i < |grids| ==> IsGrid(grids[i])
  }

  /** `RunFreeSpinsRound` over the grids drawn for its rounds: each round
      shows its grid, evaluates it at the current bet and credits the
      result; no bet is taken, no spin is counted and Scatters on a free
      grid do not start another bonus. */
  function FreeSpins(m: Machine, grids: seq<Grid>): Run
    requires AllGrids(grids)
    decreases |grids|
  {
    if |grids| == 0 then Finished(m)
    else
      var shown := m.(reels := grids[0]);
      match Evaluate(grids[0], m.round.bet)
      case OutOfRange => Aborted(shown)
      case Ok(o) => FreeSpins(shown.(round := Credited(m.round, o)), grids[1..])
  }

  /** `HandleSpinRequest` followed by `ExecuteSpinSequence`, given the grid
      the main spin draws and the grids the free rounds would draw. */
  function Spin(m: Machine, g: Grid, freeGrids: seq<Grid>): Run
    requires IsGrid(g) && AllGrids(freeGrids)
  {
    if !CanSpin(m.round) then Finished(m)
    else
      var started := Machine(Started(m.round), g);
      match Evaluate(g, started.round.bet)
      case OutOfRange => Aborted(started)
      case Ok(o) =>
        var credited := started.(round := Credited(started.round, o));
        if Occurrences(g, Scatter) < 3 then
          Finished(credited.(round := credited.round.(spinning := false)))
        else
          match FreeSpins(credited, freeGrids)
          case Aborted(after) => Aborted(after)
          case Finished(after) => Finished(after.(round := after.round.(spinning := false)))
  }

  // ---------------------------------------------------------------------
  // Sums over the free rounds

  /** The wins of the rounds, an aborted round counting 0. */
  function WinSum(grids: seq<Grid>, bet: int): int
    requires AllGrids(grids)
    decreases |grids|
  {
    if |grids| == 0 then 0
    else
      var e := Evaluate(grids[0], bet);
      (if e.Ok? then e.outcome.win else 0) + WinSum(grids[1..], bet)
  }

  /** The lifetime-counted parts of the rounds' wins. */
  function CountedSum(grids: seq<Grid>, bet: int): int
    requires AllGrids(grids)
    decreases |grids|
  {
    if |grids| == 0 then 0
    else
      var e := Evaluate(grids[0], bet);
      (if e.Ok? then Counted(e.outcome) else 0) + CountedSum(grids[1..], bet)
  }

  predicate AllEvaluate(grids: seq<Grid>, bet: int)
    requires AllGrids(grids)
  {
    forall i :: 0 <= i < |grids| ==> Evaluate(grids[i], bet).Ok?
  }

  // ---------------------------------------------------------------------
  // Bets

  /** `IncreaseBetAmount`'s effect on the bet. */
  function IncreasedBet(bet: int): int {
    if bet < MaxBet then bet + BetStep else bet
  }

  /** `DecreaseBetAmount`'s effect on the bet. */
  function DecreasedBet(bet: int): int {
    if bet > MinBet then bet - BetStep else bet
  }

  /** A bet the buttons can reach from the initial 10. */
  predicate ValidBet(bet: int) {
    MinBet <= bet <= MaxBet && bet % BetStep == 0
  }

  /** The bet after `n` presses of the increase button. */
  function RepeatIncrease(bet: int, n: nat): int
    decreases n
  {
    if n == 0 then bet else RepeatIncrease(IncreasedBet(bet), n - 1)
  }

  /** What the state keeps between calls: credits, wins and counters are
      never negative and the bet is one the buttons can reach. */
  predicate Sane(s: RoundState) {
    s.credits >= 0 && ValidBet(s.bet) && s.lastWin >= 0 && s.spinsCompleted >= 0 && s.lifetimeWinnings >= 0
  }

  /** The denominator of the RTP figure `CalculateCurrentRTP` logs,
      `spinsCompleted * CurrentBet`, present only when its guard
      `spinsCompleted > 0` holds. */
  function RtpDenominator(s: RoundState): (d: Option<int>)
    ensures d.Some? <==> s.spinsCompleted > 0
    ensures Sane(s) && d.Some? ==> d.value >= s.spinsCompleted * MinBet > 0
  {
    if s.spinsCompleted > 0 then Some(s.spinsCompleted * s.bet) else None
  }

  // ---------------------------------------------------------------------
  // Lemmas: bets

  /** Each button keeps a reachable bet reachable, and the two undo each
      other away from the limits. */
  lemma BetStepsStayValid(bet: int)
    requires ValidBet(bet)
    ensures ValidBet(IncreasedBet(bet)) && ValidBet(DecreasedBet(bet))
    ensures bet == MaxBet <==> IncreasedBet(bet) == bet
    ensures bet == MinBet <==> DecreasedBet(bet) == bet
    ensures bet < MaxBet ==> DecreasedBet(IncreasedBet(bet)) == bet
    ensures bet > MinBet ==> IncreasedBet(DecreasedBet(bet)) == bet
  {
  }

  /** From 10, n presses of the increase button give 10 + 10n, capped at 100. */
  lemma {:induction false} RepeatIncreaseFromMin(n: nat)
    ensures RepeatIncrease(MinBet, n) == if n < 9 then MinBet + BetStep * n else MaxBet
  {
    RepeatIncreaseFrom(MinBet, n);
  }

  lemma {:induction false} RepeatIncreaseFrom(bet: int, n: nat)
    requires ValidBet(bet)
    ensures RepeatIncrease(bet, n) == if bet + BetStep * n <= MaxBet then bet + BetStep * n else MaxBet
    decreases n
  {
    if n > 0 {
      RepeatIncreaseFrom(IncreasedBet(bet), n - 1);
    }
  }

  // ---------------------------------------------------------------------
  // Lemmas: the free-spins bonus

  /** The bonus never takes a bet, counts a spin or touches the flag; it
      aborts exactly when one of its grids raises; when it finishes it has
      credited every round's win, shows the last grid and the last win is
      the last round's. */
  lemma {:induction false} FreeSpinsAccounting(m: Machine, grids: seq<Grid>)
    requires AllGrids(grids)
    ensures var r := FreeSpins(m, grids).machine.round;
      r.bet == m.round.bet && r.spinsCompleted == m.round.spinsCompleted && r.spinning == m.round.spinning
    ensures FreeSpins(m, grids).Finished? <==> AllEvaluate(grids, m.round.bet)
    ensures FreeSpins(m, grids).Finished? ==>
      var r := FreeSpins(m, grids).machine.round;
      r.credits == m.round.credits + WinSum(grids, m.round.bet)
      && r.lifetimeWinnings == m.round.lifetimeWinnings + CountedSum(grids, m.round.bet)
      && (|grids| > 0 ==> FreeSpins(m, grids).machine.reels == grids[|grids| - 1]
                          && r.lastWin == Evaluate(grids[|grids| - 1], m.round.bet).outcome.win)
      && (|grids| == 0 ==> FreeSpins(m, grids).machine == m)
    decreases |grids|
  {
    if |grids| > 0 {
      var shown := m.(reels := grids[0]);
      var e := Evaluate(grids[0], m.round.bet);
      if e.Ok? {
        var next := shown.(round := Credited(m.round, e.outcome));
        var rest := grids[1..];
        FreeSpinsAccounting(next, rest);
        assert forall i :: 1 <= i < |grids| ==> grids[i] == rest[i - 1];
        if AllEvaluate(rest, m.round.bet) {
          assert AllEvaluate(grids, m.round.bet);
        }
      }
    }
  }

  /** One free round: the first grid is shown, then either its exception
      ends the bonus or its result is credited and the bonus goes on. */
  lemma FreeSpinsStep(m: Machine, grids: seq<Grid>)
    requires AllGrids(grids) && |grids| > 0
    ensures Evaluate(grids[0], m.round.bet).OutOfRange? ==>
      FreeSpins(m, grids) == Aborted(Machine(m.round, grids[0]))
    ensures Evaluate(grids[0], m.round.bet).Ok? ==>
      FreeSpins(m, grids) == FreeSpins(Machine(Credited(m.round, Evaluate(grids[0], m.round.bet).outcome), grids[0]), grids[1..])
  {
  }

  /** With a non-negative bet, credits, lifetime winnings and the last win
      never decrease below zero through the bonus. */
  lemma {:induction false} FreeSpinsKeepSane(m: Machine, grids: seq<Grid>)
    requires AllGrids(grids) && Sane(m.round)
    ensures Sane(FreeSpins(m, grids).machine.round)
    ensures FreeSpins(m, grids).machine.round.credits >= m.round.credits
    decreases |grids|
  {
    if |grids| > 0 {
      var shown := m.(reels := grids[0]);
      var e := Evaluate(grids[0], m.round.bet);
      EvaluateWinNonNegative(grids[0], m.round.bet);
      if e.Ok? {
        FreeSpinsKeepSane(shown.(round := Credited(m.round, e.outcome)), grids[1..]);
      }
    }
  }

  // ---------------------------------------------------------------------
  // Lemmas: the spin sequence

  /** A request while a spin is in progress, or with fewer credits than the
      bet, changes nothing; in particular a sequence stopped by an exception
      leaves the flag raised and every later request is ignored. */
  lemma SpinIgnored(m: Machine, g: Grid, freeGrids: seq<Grid>)
    requires IsGrid(g) && AllGrids(freeGrids)
    ensures !CanSpin(m.round) <==> Spin(m, g, freeGrids) == Finished(m) && m.round.spinsCompleted == Spin(m, g, freeGrids).machine.round.spinsCompleted
    ensures Spin(m, g, freeGrids).Aborted? ==> Spin(m, g, freeGrids).machine.round.spinning
  {
    if CanSpin(m.round) {
      var started := Machine(Started(m.round), g);
      var e := Evaluate(g, started.round.bet);
      if e.Ok? && Occurrences(g, Scatter) >= 3 {
        FreeSpinsAccounting(started.(round := Credited(started.round, e.outcome)), freeGrids);
      }
    }
  }

  /** A spin that runs counts exactly one spin, whatever the bonus does, and
      keeps the bet. */
  lemma SpinCountsOnce(m: Machine, g: Grid, freeGrids: seq<Grid>)
    requires IsGrid(g) && AllGrids(freeGrids)
    requires CanSpin(m.round)
    ensures Spin(m, g, freeGrids).machine.round.spinsCompleted == m.round.spinsCompleted + 1
    ensures Spin(m, g, freeGrids).machine.round.bet == m.round.bet
  {
    var started := Machine(Started(m.round), g);
    var e := Evaluate(g, started.round.bet);
    if e.Ok? && Occurrences(g, Scatter) >= 3 {
      FreeSpinsAccounting(started.(round := Credited(started.round, e.outcome)), freeGrids);
    }
  }

  /** A spin without the bonus: the grid is shown, the credits become
      credits - bet + win, the last win is the win, the lifetime total grows
      by the win only when some cell won, and the flag drops. */
  lemma SpinPlainAccounting(m: Machine, g: Grid, freeGrids: seq<Grid>)
    requires IsGrid(g) && AllGrids(freeGrids)
    requires CanSpin(m.round)
    requires Evaluate(g, m.round.bet).Ok? && Occurrences(g, Scatter) < 3
    ensures var o := Evaluate(g, m.round.bet).outcome;
      Spin(m, g, freeGrids) == Finished(Machine(
        m.round.(credits := m.round.credits - m.round.bet + o.win,
                 lastWin := o.win,
                 spinsCompleted := m.round.spinsCompleted + 1,
                 lifetimeWinnings := m.round.lifetimeWinnings + (if |o.cells| > 0 then o.win else 0)),
        g))
  {
  }

  /** A spin showing three or more Scatters runs the bonus over the next
      grids: the credits also gain every free round's win, the reels end on
      the last free grid and the flag drops; an exception in any free round
      stops the sequence with the flag still raised. */
  lemma SpinWithBonus(m: Machine, g: Grid, freeGrids: seq<Grid>)
    requires IsGrid(g) && AllGrids(freeGrids) && |freeGrids| == FreeSpinRounds
    requires CanSpin(m.round)
    requires Evaluate(g, m.round.bet).Ok? && Occurrences(g, Scatter) >= 3
    ensures Spin(m, g, freeGrids).Finished? <==> AllEvaluate(freeGrids, m.round.bet)
    ensures Spin(m, g, freeGrids).Finished? ==>
      var o := Evaluate(g, m.round.bet).outcome;
      var r := Spin(m, g, freeGrids).machine.round;
      r.credits == m.round.credits - m.round.bet + o.win + WinSum(freeGrids, m.round.bet)
      && r.lifetimeWinnings == m.round.lifetimeWinnings + Counted(o) + CountedSum(freeGrids, m.round.bet)
      && r.lastWin == Evaluate(freeGrids[FreeSpinRounds - 1], m.round.bet).outcome.win
      && !r.spinning
      && Spin(m, g, freeGrids).machine.reels == freeGrids[FreeSpinRounds - 1]
  {
    var started := Machine(Started(m.round), g);
    var o := Evaluate(g, m.round.bet).outcome;
    FreeSpinsAccounting(started.(round := Credited(started.round, o)), freeGrids);
  }

  /** The sequence stops with an exception exactly when the main grid raises
      or it shows three or more Scatters and a free grid raises. */
  lemma SpinAbortsExactly(m: Machine, g: Grid, freeGrids: seq<Grid>)
    requires IsGrid(g) && AllGrids(freeGrids)
    requires CanSpin(m.round)
    ensures Spin(m, g, freeGrids).Aborted? <==>
      Evaluate(g, m.round.bet).OutOfRange?
      || (Occurrences(g, Scatter) >= 3 && !AllEvaluate(freeGrids, m.round.bet))
  {
    var started := Machine(Started(m.round), g);
    var e := Evaluate(g, started.round.bet);
    if e.Ok? && Occurrences(g, Scatter) >= 3 {
      FreeSpinsAccounting(started.(round := Credited(started.round, e.outcome)), freeGrids);
    }
  }

  /** The field initialisers give a state within the invariant, before any
      spin, so no RTP figure yet. */
  lemma InitialIsSane()
    ensures Sane(Initial) && RtpDenominator(Initial).None?
  {
  }

  /** The state invariant survives every spin and every bet button, and
      once a spin has run the RTP denominator exists and is positive. */
  lemma SpinKeepsSane(m: Machine, g: Grid, freeGrids: seq<Grid>)
    requires IsGrid(g) && AllGrids(freeGrids)
    requires Sane(m.round)
    ensures Sane(Spin(m, g, freeGrids).machine.round)
    ensures CanSpin(m.round) ==> RtpDenominator(Spin(m, g, freeGrids).machine.round).Some?
    ensures Sane(m.round.(bet := IncreasedBet(m.round.bet))) && Sane(m.round.(bet := DecreasedBet(m.round.bet)))
  {
    BetStepsStayValid(m.round.bet);
    if CanSpin(m.round) {
      var started := Machine(Started(m.round), g);
      var e := Evaluate(g, started.round.bet);
      EvaluateWinNonNegative(g, started.round.bet);
      SpinCountsOnce(m, g, freeGrids);
      if e.Ok? && Occurrences(g, Scatter) >= 3 {
        FreeSpinsKeepSane(started.(round := Credited(started.round, e.outcome)), freeGrids);
      }
    }
  }
}
