# Slot machine outcome engine

A Dafny model of the game logic of a Unity 5-reel, 4-row slot machine, with the Unity plumbing removed:

- **ReelController: the grid.**
  - The weighted symbol ladder (`GetWeightedRandomSymbol`) takes one uniform draw to one of 13 symbol names.
  - The in-place fill of the `string[5, 4]` grid (`GenerateNewSymbolLayout`) falls back to `SymbolNames[0]` when a drawn name has no installed sprite.
  - `GetVisibleSymbols` hands out the same grid array.
- **GameController: the winnings and the round state.**
  - The win evaluation (`CalculateWinnings`) is made of left-anchored row runs with Wild substitution, and a grid-wide Scatter rule. It gives an integer win and an ordered list of winning cells.
  - The pay table lookup is `GetSymbolValue`, and the Scatter count is `CountSymbolOccurrences`.
  - The spin sequence is a state machine over the six round fields: the guard, taking the bet, crediting, and a three-round free-spins bonus.
  - The bet buttons and the guard of the RTP computation are also included.
- **AnalyticsManager: the logged strings.**
  - The JSON-like event strings (`SendAnalyticsEvent`, `FormatSymbolsAsJson`) and the row-major grid dump of `RecordSpinOutcome`.
  - The newest-first display log, cut to six lines.

## How the model is organised

| module | file | contents |
|---|---|---|
| `Grids` | grids.dfy | the `Symbol` datatype, which stands for the name strings; the grid value `seq<seq<Symbol>>`; `Snapshot` of an `array2` |
| `Reels` | reels.dfy | the ladder, the sprite fallback, the class `ReelController` with its `array2` grid |
| `Payouts` | payouts.dfy | `GetSymbolValue` and the game's intended pay table |
| `Winnings` | winnings.dfy | the evaluation as functions of the grid value and the bet, with its lemmas |
| `Rounds` | rounds.dfy | the round state, the spin and free-spin state machine, bets and the RTP guard, as functions |
| `Game` | game.dfy | the class `GameController`, whose fields and loop methods are proved against `Winnings` and `Rounds` |
| `Text` | text.dfy | .NET `Split` and `Join` on one character and `int.ToString`, with their round trips |
| `Analytics` | analytics.dfy | the class `AnalyticsManager` and the string functions it is proved against |

Randomness is an input. A fill takes 20 draws, each a `real`, in the order the loops consume them: reel by reel, top row first, so cell `(reel, row)` uses draw `reel * 4 + row`.

A spin takes its draws and the three free rounds' draws as parameters. Each coroutine becomes a synchronous method, and its waits and animations are dropped.

An exception the pay-table lookup raises is an outcome value:
- `IndexOutOfRange` in `Payouts`;
- `OutOfRange` in `Winnings`;
- `Aborted` in `Rounds`.

### Where the code differs from the intended pay rules

The intended multipliers, by symbol class and 3, 4 or 5 matches, are written down as `Payouts.DesignedMultiplier`: Wild 50/100/200, Scatter 5/10/25, Bonus 10/25/50, the four elements 15/30/75, the dummies 5/15/30. The intended line rule also lets a Wild on reel 0 take the value of the symbol that follows it.

The model follows the code in each of these points.

- **The pay table is read at the match count itself.** The code reads `payoutValues[symbol][matchCount]` (GameController.cs:183). A run of three therefore pays the entry at index 3: three Fires at bet 10 pay 30, where `DesignedMultiplier` gives 15 for three. A run of four pays the intended five-match value.
  - A full five-reel run indexes past the end of the five-entry row and raises `IndexOutOfRangeException`. So does a grid with five or more Scatters.
  - The exception ends the spin coroutine before `spinningInProgress` is cleared, so every later spin request is ignored.
  - `TableIsDesignShiftedByOne`, `ThreeFiresPayIndexThree`, `EvaluateFaultsExactly`, `SpinAbortsExactly` and `SpinIgnored` state these effects.
- **A Wild on reel 0 is the row's starting symbol.** Only further Wilds extend its run, so `Wild Fire Fire …` pays nothing. The intended rule counts such a row as Fires. See `WildStartExtendsOnlyWithWilds` and `WildFirstRowPaysNothing`.
- **Free rounds are evaluated with the full rule set.** This includes the Scatter rule, so a free grid with five Scatters also raises. Scatters on a free grid never start another bonus.

Unity's `Random.Range(0f, 100f)` can also return 100. The ladder gives `Dummy6` for every draw of 75 or more, so it needs no precondition. `LadderMatchesBands` states the bands on [0, 100).

## Model

| member | source | states |
|---|---|---|
| Grids.NamesAreDistinct | Assets/Scripts/ReelController.cs:16-21 | two symbols have equal name strings exactly when they are the same symbol, so comparing cells by symbol is comparing the source's strings |
| Reels.IndexOfFindsFirst | Assets/Scripts/ReelController.cs:71 | `Array.IndexOf` answers -1 exactly when the name is absent; otherwise it answers the first position holding the name |
| Reels.LadderYieldsSymbolName | Assets/Scripts/ReelController.cs:88-105 | the ladder is exhaustive: every draw yields a name of `SymbolNames` |
| Reels.BandsPartitionDraws | Assets/Scripts/ReelController.cs:92-104 | the reference bands tile [0, 100) without gap or overlap and name each of the 13 symbols |
| Reels.LadderMatchesBands | Assets/Scripts/ReelController.cs:92-104 | a draw in [0, 100) yields a band's name exactly when it lies in that band's half-open interval (Wild [0, 0.5), Scatter [0.5, 2), …, Dummy6 [75, 100)) |
| Reels.SymbolNamesDistinct | Assets/Scripts/ReelController.cs:16-21 | the symbol table has 13 pairwise distinct names |
| Reels.CellSymbolIsSymbolName | Assets/Scripts/ReelController.cs:70-83 | a written cell is in `SymbolNames` and is either the drawn name or `SymbolNames[0]` |
| Reels.FallbackExactly | Assets/Scripts/ReelController.cs:71-83 | a cell keeps the drawn name exactly when the name has a sprite index below `Symbols.Length` or is itself "Air"; with a sprite for every name, no cell falls back |
| Reels.ReelController.Start | Assets/Scripts/ReelController.cs:14-30 | start-up allocates the grid and fills it as `GenerateNewSymbolLayout` does |
| Reels.ReelController.GenerateNewSymbolLayout | Assets/Scripts/ReelController.cs:64-86 | every one of the 20 cells holds the ladder's name for its own draw, or the fallback; the loop invariant covers the reels before the current one and the rows before the current one |
| Reels.ReelController.GetVisibleSymbols | Assets/Scripts/ReelController.cs:107-110 | returns the controller's grid array itself, not a copy |
| Payouts.GetSymbolValue | Assets/Scripts/GameController.cs:164-184 | an unknown name pays 0; for a known name the lookup raises exactly when the count is outside the row's index range |
| Payouts.TableIsDesignShiftedByOne | Assets/Scripts/GameController.cs:166-183 | every symbol has a five-entry row; a count of k in 2..4 pays `DesignedMultiplier` for k + 1 matches, and a count of 5 raises |
| Payouts.TableKeysAreSymbolNames | Assets/Scripts/GameController.cs:166-181 | the table's keys are exactly the 13 symbol names |
| Winnings.TruncDiv | Assets/Scripts/GameController.cs:137 | C# integer division by a positive divisor: truncation toward zero: for a non-negative numerator the floor quotient, for a negative one the unique `q <= 0` with `(q - 1) * b < a <= q * b` |
| Winnings.RunLengthIsLongestPrefix | Assets/Scripts/GameController.cs:118-132 | every reel inside the run holds the starting symbol or a Wild, and the first reel after it does not |
| Winnings.RunLengthUnique | Assets/Scripts/GameController.cs:121-131 | those two facts determine the run length |
| Winnings.WildStartExtendsOnlyWithWilds | Assets/Scripts/GameController.cs:115-123 | a row starting with a Wild has a run made only of Wilds |
| Winnings.ScatterStartedRowContributesNothing | Assets/Scripts/GameController.cs:115-116 | a row whose reel-0 cell is a Scatter adds no win and no cells |
| Winnings.CellsHoldingExactly | Assets/Scripts/GameController.cs:149-158 | the reel-major scan lists exactly the in-bounds cells holding the target, in strictly increasing scan order, so no cell appears twice |
| Winnings.RowsFaultExactly | Assets/Scripts/GameController.cs:134-137 | the row pass raises exactly when some paying row's run covers all five reels |
| Winnings.RowsWinNonNegative | Assets/Scripts/GameController.cs:134-139 | with a non-negative bet the rows' win is non-negative |
| Winnings.RowsCellsExactly | Assets/Scripts/GameController.cs:113-140 | the row pass reports exactly the run cells of the rows that pay |
| Winnings.RowsCellsEmptyExactly | Assets/Scripts/GameController.cs:113-140 | the row pass's cell list is empty exactly when no row pays |
| Winnings.ScatterFacts | Assets/Scripts/GameController.cs:142-159 | the Scatter rule raises exactly at five or more Scatters; it adds cells exactly when three or more show, and they are exactly the Scatter cells; its win is non-negative |
| Winnings.EvaluateWinNonNegative | Assets/Scripts/GameController.cs:107-162 | with a non-negative bet the total win is never negative |
| Winnings.EvaluateFaultsExactly | Assets/Scripts/GameController.cs:107-162 | the evaluation raises exactly when a paying row covers all five reels or five or more Scatters show |
| Winnings.NoWinExactly | Assets/Scripts/GameController.cs:107-162 | the cell list is empty exactly when no row pays and fewer than three Scatters show; then the whole result is a zero win with no cells |
| Winnings.WinningCellsExactly | Assets/Scripts/GameController.cs:107-162 | a cell is reported exactly when it lies on a paying row's run or, with three or more Scatters showing, holds a Scatter |
| Winnings.RunCellsAreNoScatters | Assets/Scripts/GameController.cs:115-132 | no cell on a paying row's run holds a Scatter |
| Winnings.RowsCellsOrdered | Assets/Scripts/GameController.cs:113-140 | the row loop's cells are on the grid, hold no Scatter, and come row by row, left to right, each once |
| Winnings.WinningCellsOrder | Assets/Scripts/GameController.cs:107-162 | each reported cell appears once; the run cells come first, row by row and left to right, then the Scatter cells in reel-major order |
| Winnings.ThreeFiresPayIndexThree | Assets/Scripts/GameController.cs:134-137 | Fire Fire Fire Water at bet 10 has a run of 3 and pays 30 with cells (0..2, row), where `DesignedMultiplier` gives 15 |
| Winnings.WildFirstRowPaysNothing | Assets/Scripts/GameController.cs:115-134 | Wild Fire … has a run of 1 and pays nothing |
| Rounds.Started | Assets/Scripts/GameController.cs:56-66 | a spin raises the flag, takes the bet from the credits, clears the last win and counts one spin; the bet and lifetime total are unchanged |
| Rounds.Credited | Assets/Scripts/GameController.cs:76-85 | crediting sets the last win, adds the win to the credits, and adds it to the lifetime total only when some cell won |
| Rounds.RtpDenominator | Assets/Scripts/GameController.cs:249-256 | the RTP is computed exactly when `spinsCompleted > 0`, and then, in a sane state (which every reachable state is, by `InitialIsSane` and `SpinKeepsSane`), its denominator is at least `spinsCompleted * 10 > 0` |
| Rounds.BetStepsStayValid | Assets/Scripts/GameController.cs:223-247 | each button keeps the bet a multiple of 10 in [10, 100]; increase is a no-op exactly at 100 and decrease exactly at 10; away from the limits the two undo each other |
| Rounds.RepeatIncreaseFromMin | Assets/Scripts/GameController.cs:223-234 | from 10, n presses give 10 + 10n, capped at 100 |
| Rounds.RepeatIncreaseFrom | Assets/Scripts/GameController.cs:223-234 | from any valid bet, n presses add 10n, capped at 100 |
| Rounds.FreeSpinsAccounting | Assets/Scripts/GameController.cs:186-211 | the bonus keeps the bet, the spin count and the flag; it completes exactly when no free grid raises; the credits gain every round's win and the lifetime total every counted win; the last grid and last win stay shown |
| Rounds.FreeSpinsKeepSane | Assets/Scripts/GameController.cs:186-211 | the bonus never lowers the credits and keeps the state invariant |
| Rounds.SpinIgnored | Assets/Scripts/GameController.cs:48-52 | a request while spinning or with credits below the bet changes nothing, and only such requests do so; a sequence cut by the exception leaves the flag raised |
| Rounds.SpinCountsOnce | Assets/Scripts/GameController.cs:54-66 | a spin that runs counts exactly one spin, whatever the bonus does, and keeps the bet |
| Rounds.SpinPlainAccounting | Assets/Scripts/GameController.cs:54-105 | a spin without the bonus ends with credits − bet + win, last win = win, one more spin, lifetime growing by the win only when cells won, the flag cleared and the new grid shown |
| Rounds.SpinWithBonus | Assets/Scripts/GameController.cs:93-101 | three or more Scatters run exactly three free rounds; the spin completes exactly when none raises, and then credits and lifetime add every free win, the last free grid shows, and the flag is cleared |
| Rounds.SpinAbortsExactly | Assets/Scripts/GameController.cs:54-105 | a spin stops on the exception exactly when its grid raises, or when it starts the bonus and a free grid raises |
| Rounds.InitialIsSane | Assets/Scripts/GameController.cs:8-24 | the field initialisers satisfy the state invariant, and with no spin completed there is no RTP denominator |
| Rounds.SpinKeepsSane | Assets/Scripts/GameController.cs:54-105 | every spin and every bet button keep credits, wins and counters non-negative and the bet valid; after a spin the RTP denominator exists |
| Game.GameController.constructor | Assets/Scripts/GameController.cs:8-24 | the field initialisers: 1000 credits, bet 10, no win, not spinning, no spins, no lifetime winnings |
| Game.GameController.HandleSpinRequest | Assets/Scripts/GameController.cs:48-52 | the new round state and grid are those of `Rounds.Spin` for the grids the draws produce |
| Game.GameController.ExecuteSpinSequence | Assets/Scripts/GameController.cs:54-105 | the fields and the grid end as `Rounds.Spin` says, and the result tells whether the sequence ran to its end |
| Game.GameController.RunFreeSpinsRound | Assets/Scripts/GameController.cs:186-211 | the three-round loop ends in the state `Rounds.FreeSpins` gives, or stops at the first round that raises |
| Game.GameController.CreditWin | Assets/Scripts/GameController.cs:78-85 | the fields become `Rounds.Credited` of the old state and the outcome |
| Game.GameController.CalculateWinnings | Assets/Scripts/GameController.cs:107-162 | the loop computation equals `Winnings.Evaluate` on the grid's value at the current bet |
| Game.GameController.RowWinnings | Assets/Scripts/GameController.cs:113-140 | the row loop, with its skip of Scatter-started rows, equals `Winnings.Rows` over the four rows |
| Game.GameController.CollectScatterCells | Assets/Scripts/GameController.cs:149-158 | the nested loop appends the Scatter cells in reel-major order, as `Winnings.CellsHolding` lists them |
| Game.GameController.ScanRun | Assets/Scripts/GameController.cs:118-132 | the inner loop with its `break` yields the run length and exactly cells (0..k-1, row) |
| Game.GameController.CountSymbolOccurrences | Assets/Scripts/GameController.cs:213-221 | the count is the number of cells holding the target |
| Game.GameController.IncreaseBetAmount | Assets/Scripts/GameController.cs:223-234 | only the bet changes, by +10 below 100 |
| Game.GameController.DecreaseBetAmount | Assets/Scripts/GameController.cs:236-247 | only the bet changes, by -10 above 10 |
| Game.GameController.CalculateCurrentRTP | Assets/Scripts/GameController.cs:249-256 | the RTP denominator is produced exactly when a spin has been counted |
| Text.SplitAroundSeparator | Assets/Scripts/AnalyticsManager.cs:109 | `Split` of `a + sep + b` is the split of `a` followed by the split of `b` |
| Text.SplitWithoutSeparator | Assets/Scripts/AnalyticsManager.cs:109 | a string without the separator splits into itself alone |
| Text.SplitPiecesAreClean | Assets/Scripts/AnalyticsManager.cs:109 | no piece of a split contains the separator |
| Text.JoinSplit | Assets/Scripts/AnalyticsManager.cs:109-112 | joining the pieces of a split restores the string |
| Text.SplitJoin | Assets/Scripts/AnalyticsManager.cs:109-112 | splitting a join of separator-free pieces restores the pieces |
| Text.JoinPrefix | Assets/Scripts/AnalyticsManager.cs:112 | joining the first k pieces gives a prefix of the whole join |
| Text.JoinSnoc | Assets/Scripts/AnalyticsManager.cs:94-96 | appending a piece appends the separator and the piece |
| Text.JoinCountsSeparators | Assets/Scripts/AnalyticsManager.cs:94-96 | a join of n separator-free pieces holds exactly n - 1 separators |
| Text.IntToString | Assets/Scripts/AnalyticsManager.cs:32 | `int.ToString()`: a leading minus exactly for a negative value, followed by at least one decimal digit, with no leading zero unless the value is 0 |
| Text.NatToString | Assets/Scripts/AnalyticsManager.cs:32 | the decimal digits of a natural number, at least one, with no leading zero unless it is 0 |
| Text.IntToStringRoundTrip | Assets/Scripts/AnalyticsManager.cs:32 | the decimal form reads back as the same integer, so distinct bets and wins log differently |
| Analytics.FieldsIgnoreUnpaired | Assets/Scripts/AnalyticsManager.cs:74-83 | a trailing unpaired item adds nothing to the event |
| Analytics.FieldsOnePair | Assets/Scripts/AnalyticsManager.cs:76-81 | each complete pair appends exactly `,"name":value`, the value unquoted |
| Analytics.EventJsonShape | Assets/Scripts/AnalyticsManager.cs:72-86 | an event starts with `{"event":"type"` and ends with `}`; without a complete pair it is exactly `{"event":"type"}` |
| Analytics.JsonArrayCommas | Assets/Scripts/AnalyticsManager.cs:90-101 | no items give `[]`; n items without commas give exactly n - 1 commas |
| Analytics.RowMajorIndex | Assets/Scripts/AnalyticsManager.cs:37-44 | entry `row * 5 + reel` of the flattened list names cell (reel, row) |
| Analytics.PushEntryBounded | Assets/Scripts/AnalyticsManager.cs:107-113 | after an update the log has at most six lines |
| Analytics.PushEntryNewestFirst | Assets/Scripts/AnalyticsManager.cs:107-113 | the new log is a prefix of `data + "\n" + log`; for a one-line entry its lines are the entry's and then the old log's, cut to six |
| Analytics.LoggedDetached | Assets/Scripts/AnalyticsManager.cs:105 | without a display the log is unchanged, and the six-line bound holds either way |
| Analytics.AnalyticsManager.constructor | Assets/Scripts/AnalyticsManager.cs:9-10 | the log starts empty, within the bound |
| Analytics.AnalyticsManager.UpdateAnalyticsDisplay | Assets/Scripts/AnalyticsManager.cs:103-117 | the log becomes the entry pushed in front and cut to six lines, and the display shows it; without a display nothing changes; the bound is kept |
| Analytics.AnalyticsManager.ClearAnalyticsDisplay | Assets/Scripts/AnalyticsManager.cs:119-126 | the log, and the display when attached, become empty |
| Analytics.AnalyticsManager.SendAnalyticsEvent | Assets/Scripts/AnalyticsManager.cs:70-87 | the loop stepping two items at a time logs exactly the event string of the type and the complete pairs |
| Analytics.AnalyticsManager.FormatSymbolsAsJson | Assets/Scripts/AnalyticsManager.cs:89-101 | the loop yields the quoted names joined by commas in brackets |
| Analytics.AnalyticsManager.FlattenRowMajor | Assets/Scripts/AnalyticsManager.cs:37-44 | the nested loop lists the 20 names row by row, entry i being cell (i % 5, i / 5) |
| Analytics.AnalyticsManager.RecordGameStart | Assets/Scripts/AnalyticsManager.cs:25-28 | logs the `game_start` event without fields, and the display shows the new log when one is attached, staying untouched otherwise |
| Analytics.AnalyticsManager.RecordSpinInitiated | Assets/Scripts/AnalyticsManager.cs:30-33 | logs `spin_start` with the bet in decimal, and the display shows the new log when one is attached, staying untouched otherwise |
| Analytics.AnalyticsManager.RecordSpinOutcome | Assets/Scripts/AnalyticsManager.cs:35-49 | logs `spin_result` with the win in decimal and the row-major grid as a JSON array, and the display shows the new log when one is attached, staying untouched otherwise |
| Analytics.AnalyticsManager.RecordBonusActivation | Assets/Scripts/AnalyticsManager.cs:51-54 | logs `bonus_triggered` with the bonus name, and the display shows the new log when one is attached, staying untouched otherwise |
| Analytics.AnalyticsManager.RecordBonusCompletion | Assets/Scripts/AnalyticsManager.cs:56-59 | logs `bonus_complete` with the bonus name, and the display shows the new log when one is attached, staying untouched otherwise |
| Analytics.AnalyticsManager.RecordBetChange | Assets/Scripts/AnalyticsManager.cs:61-64 | logs `bet_changed` with the new bet in decimal, and the display shows the new log when one is attached, staying untouched otherwise |
| Analytics.AnalyticsManager.RecordSessionConclusion | Assets/Scripts/AnalyticsManager.cs:66-69 | logs the `session_end` event without fields, and the display shows the new log when one is attached, staying untouched otherwise |

## Left out

- **Int32 arithmetic.** Credits, wins and counters are unbounded integers, so 32-bit overflow of `PlayerCredits`, `lifetimeWinnings` or `spinsCompleted * CurrentBet` is not modelled. The bet is bounded by the buttons, and `TruncDiv` models C#'s truncating `/`.
- **Sprites and display objects.**
  - `Symbols` is reduced to its length `spriteCount`. Start-up requires `spriteCount > 0`, because the fallback assigns `Symbols[0]`, which would throw on an empty array.
  - Sprite assignment and the `symbolDisplays` images are left out.
  - The start-up length check only logs, so it is left out.
  - The grid starts with "Air" in every cell before the first fill; the source's cells start as `null` before `Start` fills them.
- **Randomness, coroutines, animation and UI.** `Random.Range`, `WaitForSeconds`, `PlaySpinAnimation`, `HighlightWinningSymbols`, `InitializeReelComponents`, UI updates and button toggling are left out. Draws are inputs, and each coroutine runs synchronously.
  - Because the coroutines run synchronously, bet presses that land while a spin is in progress, between its steps, are not modelled.
- **Framework wiring.** The static events, the `AnalyticsManager.Instance` singleton (`Awake`, `DontDestroyOnLoad`), the event subscriptions and `OnApplicationQuit` are left out.
  - For the same reason, the calls from `GameController` into the analytics are not made in the model. The `Record*` methods are modelled on their own.
- **The RTP figure.** The floating-point RTP value and its `Debug.Log` are out. Only the guard and the integer denominator are kept. `ExecuteSpinSequence` does not call `CalculateCurrentRTP`, because the call only logs.
- **`TMP_Text`.** It is reduced to a flag, `displayAttached`, and a `displayText` string.
- **An attached display.** The flag is a constant, so a display attached or detached at run time is not modelled.
- **How `CalculateWinnings` is split.** Its row loop is `RowWinnings` and the run loop inside it is `ScanRun`. The final Scatter loop is `CollectScatterCells`, and the crediting shared by the main spin and the free rounds is `CreditWin`. Each is proved on its own, and the composition follows the source's order.
- Reels.ReelController.GenerateNewSymbolLayout: states the grid after the fill, not that each cell is written exactly once. The loops visit each cell once, but the number of stores is not part of the contract.
- **String identity.** Grid cells hold the `Symbol` datatype rather than strings; `Grids.NamesAreDistinct` ties symbol equality to name equality. A `null` or foreign string in a grid cell cannot be represented.
