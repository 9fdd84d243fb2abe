/** ReelController: the weighted symbol ladder and the in-place grid fill. */
module Reels {
  import opened Grids

  /** The symbol table the controller installs at start-up, in sprite order
      (the source's `SymbolNames`, each entry standing for its name). */
  const SymbolNames: seq<Symbol> := [
    Air, Fire, Water, Earth,
    Wild, Scatter, Bonus,
    Dummy1, Dummy2, Dummy3, Dummy4, Dummy5, Dummy6
  ]

  /** The ladder that classifies one uniform draw in [0, 100) as a symbol name. */
  function WeightedRandomSymbol(randomValue: real): Symbol
  {
    if randomValue < 0.5 then Wild
    else if randomValue < 2.0 then Scatter
    else if randomValue < 4.0 then Bonus
    else if randomValue < 8.0 then Air
    else if randomValue < 12.0 then Fire
    else if randomValue < 16.0 then Water
    else if randomValue < 20.0 then Earth
    else if randomValue < 30.0 then Dummy1
    else if randomValue < 40.0 then Dummy2
    else if randomValue < 50.0 then Dummy3
    else if randomValue < 60.0 then Dummy4
    else if randomValue < 75.0 then Dummy5
    else Dummy6
  }

  /** The probability band of each symbol, as (name, lower, upper): a draw in
      [lower, upper) yields the name. This is the reference the ladder is
      checked against; the widths are the per-symbol odds in percent. */
  const Bands: seq<(Symbol, real, real)> := [
    (Wild, 0.0, 0.5), (Scatter, 0.5, 2.0), (Bonus, 2.0, 4.0),
    (Air, 4.0, 8.0), (Fire, 8.0, 12.0), (Water, 12.0, 16.0),
    (Earth, 16.0, 20.0), (Dummy1, 20.0, 30.0), (Dummy2, 30.0, 40.0),
    (Dummy3, 40.0, 50.0), (Dummy4, 50.0, 60.0), (Dummy5, 60.0, 75.0),
    (Dummy6, 75.0, 100.0)
  ]

  /** Index of the first occurrence of `name`, or -1: `System.Array.IndexOf`. */
  function IndexOf(names: seq<Symbol>, name: Symbol): int
  {
    IndexFrom(names, name, 0)
  }

  /** The search from position `from` on. */
  function IndexFrom(names: seq<Symbol>, name: Symbol, from: nat): int
    requires from <= |names|
    decreases |names| - from
  {
    if from == |names| then -1
    else if names[from] == name then from
    else IndexFrom(names, name, from + 1)
  }

  /** The search finds the first occurrence and answers -1 exactly when the name is absent. */
  lemma {:induction false} IndexFromFindsFirst(names: seq<Symbol>, name: Symbol, from: nat)
    requires from <= |names|
    ensures IndexFrom(names, name, from) == -1 || from <= IndexFrom(names, name, from) < |names|
    ensures IndexFrom(names, name, from) == -1 <==> name !in names[from..]
    ensures 0 <= IndexFrom(names, name, from) ==>
      names[IndexFrom(names, name, from)] == name && forall j :: from <= j < IndexFrom(names, name, from) ==> names[j] != name
    decreases |names| - from
  {
    if from < |names| && names[from] != name {
      IndexFromFindsFirst(names, name, from + 1);
      assert names[from..] == [names[from]] + names[from + 1..];
    }
  }

  /** `IndexOf` finds the first occurrence and answers -1 exactly when the name is absent. */
  lemma IndexOfFindsFirst(names: seq<Symbol>, name: Symbol)
    ensures -1 <= IndexOf(names, name) < |names|
    ensures IndexOf(names, name) == -1 <==> name !in names
    ensures 0 <= IndexOf(names, name) ==>
      names[IndexOf(names, name)] == name && forall j :: 0 <= j < IndexOf(names, name) ==> names[j] != name
  {
    IndexFromFindsFirst(names, name, 0);
    assert names[0..] == names;
  }

  /** The fill's test that a name has an installed sprite: its index in
      `SymbolNames` is found and is below `Symbols.Length`. */
  predicate HasSprite(name: Symbol, spriteCount: nat) {
    var symbolIndex := IndexOf(SymbolNames, name);
    0 <= symbolIndex < spriteCount
  }

  /** The name written to one cell for one draw, given how many sprites are
      installed: the drawn name when it has a sprite, else `SymbolNames[0]`. */
  function CellSymbol(randomValue: real, spriteCount: nat): Symbol
  {
    var drawn := WeightedRandomSymbol(randomValue);
    if HasSprite(drawn, spriteCount) then drawn else SymbolNames[0]
  }

  /** The grid written for 20 draws taken in the fill's loop order: reel by
      reel, top row first, so cell (reel, row) uses draw `reel * 4 + row`. */
  function Layout(draws: seq<real>, spriteCount: nat): (g: Grid)
    requires |draws| == CellCount
    ensures IsGrid(g)
  {
    seq(ReelCount, reel requires 0 <= reel < ReelCount =>
      seq(RowCount, row requires 0 <= row < RowCount => CellSymbol(draws[reel * 4 + row], spriteCount)))
  }

  /** Cell (reel, row) of the layout comes from draw `reel * 4 + row`. */
  lemma LayoutCell(draws: seq<real>, spriteCount: nat, reel: int, row: int)
    requires |draws| == CellCount && 0 <= reel < ReelCount && 0 <= row < RowCount
    ensures Layout(draws, spriteCount)[reel][row] == CellSymbol(draws[reel * 4 + row], spriteCount)
  {
  }

  /** The ladder is exhaustive: every draw yields one of the 13 names. */
  lemma LadderYieldsSymbolName(randomValue: real)
    ensures WeightedRandomSymbol(randomValue) in SymbolNames
  {
  }

  /** Every cell the fill writes holds a name of the symbol table, either the
      drawn one or the fallback. */
  lemma CellSymbolIsSymbolName(randomValue: real, spriteCount: nat)
    ensures CellSymbol(randomValue, spriteCount) in SymbolNames
    ensures CellSymbol(randomValue, spriteCount) in {WeightedRandomSymbol(randomValue), SymbolNames[0]}
  {
    LadderYieldsSymbolName(randomValue);
  }

  /** The symbol table holds 13 distinct names. */
  lemma SymbolNamesDistinct()
    ensures |SymbolNames| == 13
    ensures forall i, j :: 0 <= i < j < |SymbolNames| ==> SymbolNames[i] != SymbolNames[j]
  {
  }

  /** The bands tile [0, 100) without gap or overlap and name every symbol once. */
  lemma BandsPartitionDraws()
    ensures |Bands| == |SymbolNames|
    ensures Bands[0].1 == 0.0 && Bands[|Bands| - 1].2 == 100.0
    ensures forall i :: 0 <= i < |Bands| - 1 ==> Bands[i].2 == Bands[i + 1].1
    ensures forall i :: 0 <= i < |Bands| ==> Bands[i].1 < Bands[i].2 && Bands[i].0 in SymbolNames
    ensures forall n :: n in SymbolNames ==> exists i :: 0 <= i < |Bands| && Bands[i].0 == n
  {
    assert Bands[3].0 == SymbolNames[0];
    assert Bands[4].0 == SymbolNames[1];
    assert Bands[5].0 == SymbolNames[2];
    assert Bands[6].0 == SymbolNames[3];
    assert Bands[0].0 == SymbolNames[4];
    assert Bands[1].0 == SymbolNames[5];
    assert Bands[2].0 == SymbolNames[6];
    assert Bands[7].0 == SymbolNames[7];
    assert Bands[8].0 == SymbolNames[8];
    assert Bands[9].0 == SymbolNames[9];
    assert Bands[10].0 == SymbolNames[10];
    assert Bands[11].0 == SymbolNames[11];
    assert Bands[12].0 == SymbolNames[12];
  }

  /** Every draw in [0, 100) yields exactly the name of the band it falls in. */
  lemma LadderMatchesBands(randomValue: real, i: nat)
    requires 0.0 <= randomValue < 100.0
    requires i < |Bands|
    ensures WeightedRandomSymbol(randomValue) == Bands[i].0 <==> Bands[i].1 <= randomValue < Bands[i].2
  {
    var name := WeightedRandomSymbol(randomValue);
    if i == 0 { assert name == Wild <==> randomValue < 0.5; }
    else if i == 1 { assert name == Scatter <==> 0.5 <= randomValue < 2.0; }
    else if i == 2 { assert name == Bonus <==> 2.0 <= randomValue < 4.0; }
    else if i == 3 { assert name == Air <==> 4.0 <= randomValue < 8.0; }
    else if i == 4 { assert name == Fire <==> 8.0 <= randomValue < 12.0; }
    else if i == 5 { assert name == Water <==> 12.0 <= randomValue < 16.0; }
    else if i == 6 { assert name == Earth <==> 16.0 <= randomValue < 20.0; }
    else if i == 7 { assert name == Dummy1 <==> 20.0 <= randomValue < 30.0; }
    else if i == 8 { assert name == Dummy2 <==> 30.0 <= randomValue < 40.0; }
    else if i == 9 { assert name == Dummy3 <==> 40.0 <= randomValue < 50.0; }
    else if i == 10 { assert name == Dummy4 <==> 50.0 <= randomValue < 60.0; }
    else if i == 11 { assert name == Dummy5 <==> 60.0 <= randomValue < 75.0; }
    else { assert name == Dummy6 <==> 75.0 <= randomValue; }
  }

  /** A cell falls back to "Air" exactly when the drawn name has no sprite;
      with a sprite for every name no cell falls back. */
  lemma FallbackExactly(randomValue: real, spriteCount: nat)
    ensures CellSymbol(randomValue, spriteCount) == WeightedRandomSymbol(randomValue)
      <==> HasSprite(WeightedRandomSymbol(randomValue), spriteCount) || WeightedRandomSymbol(randomValue) == SymbolNames[0]
    ensures |SymbolNames| <= spriteCount ==> CellSymbol(randomValue, spriteCount) == WeightedRandomSymbol(randomValue)
  {
    IndexOfFindsFirst(SymbolNames, WeightedRandomSymbol(randomValue));
  }

  /** The reel controller: a 5 x 4 grid of names, filled in place. */
  class ReelController {
    /** `Symbols.Length`, the number of installed sprites. */
    const spriteCount: nat
    /** `currentSymbols`, allocated once and rewritten cell by cell. */
    const currentSymbols: array2<Symbol>

    predicate Valid() {
      Shaped(currentSymbols) && spriteCount > 0
    }

    /** `Start`: installs the symbol table and fills the first grid. */
    constructor Start(spriteCount: nat, draws: seq<real>)
      requires spriteCount > 0
      requires |draws| == CellCount
      ensures Valid() && fresh(currentSymbols)
      ensures this.spriteCount == spriteCount
      ensures Snapshot(currentSymbols) == Layout(draws, spriteCount)
    {
      this.spriteCount := spriteCount;
      currentSymbols := new Symbol[ReelCount, RowCount]((reel, row) => Air);
      new;
      GenerateNewSymbolLayout(draws);
    }

    /** Writes each of the 20 cells once, reel by reel, from one draw each. */
    method GenerateNewSymbolLayout(draws: seq<real>)
      requires Valid()
      requires |draws| == CellCount
      modifies currentSymbols
      ensures Snapshot(currentSymbols) == Layout(draws, spriteCount)
    {
      ghost var layout := Layout(draws, spriteCount);
      for reel := 0 to ReelCount
        invariant forall r, w :: 0 <= r < reel && 0 <= w < RowCount ==> currentSymbols[r, w] == layout[r][w]
      {
        for row := 0 to RowCount
          invariant forall r, w :: 0 <= r <= reel && 0 <= w < RowCount && (r < reel || w < row) ==>
            currentSymbols[r, w] == layout[r][w]
        {
          var symbolName := WeightedRandomSymbol(draws[reel * 4 + row]);
          var symbolIndex := IndexOf(SymbolNames, symbolName);
          if 0 <= symbolIndex < spriteCount {
            currentSymbols[reel, row] := symbolName;
          } else {
            currentSymbols[reel, row] := SymbolNames[0];
          }
          LayoutCell(draws, spriteCount, reel, row);
          assert currentSymbols[reel, row] == CellSymbol(draws[reel * 4 + row], spriteCount) == layout[reel][row];
        }
      }
      GridExtensionality(Snapshot(currentSymbols), layout);
    }

    /** Hands out the grid array itself, not a copy. */
    method GetVisibleSymbols() returns (grid: array2<Symbol>)
      ensures grid == currentSymbols
    {
      grid := currentSymbols;
    }
  }
}
