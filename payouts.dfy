/** GameController's pay table, `GetSymbolValue`. */
module Payouts {
  import opened Grids

  /** The outcome of a table lookup: a multiplier, or the
      `IndexOutOfRangeException` the source raises when it indexes the
      5-entry row of a known symbol outside [0, 4]. */
  datatype Lookup = Pays(multiplier: nat) | IndexOutOfRange

  /** The source's `payoutValues` dictionary, keyed by symbol name. */
  const PayoutValues: map<string, seq<nat>> := map[
    "Wild" := [0, 0, 50, 100, 200],
    "Scatter" := [0, 0, 5, 10, 25],
    "Bonus" := [0, 0, 10, 25, 50],
    "Air" := [0, 0, 15, 30, 75],
    "Fire" := [0, 0, 15, 30, 75],
    "Water" := [0, 0, 15, 30, 75],
    "Earth" := [0, 0, 15, 30, 75],
    "Dummy1" := [0, 0, 5, 15, 30],
    "Dummy2" := [0, 0, 5, 15, 30],
    "Dummy3" := [0, 0, 5, 15, 30],
    "Dummy4" := [0, 0, 5, 15, 30],
    "Dummy5" := [0, 0, 5, 15, 30],
    "Dummy6" := [0, 0, 5, 15, 30]
  ]

  /** The multiplier for `matchCount` matches of `symbolType`: the table row
      is indexed by the match count itself; an unknown name pays 0. */
  function GetSymbolValue(symbolType: string, matchCount: int): (v: Lookup)
    ensures symbolType !in PayoutValues ==> v == Pays(0)
    ensures symbolType in PayoutValues ==> (v.IndexOutOfRange? <==> !(0 <= matchCount < |PayoutValues[symbolType]|))
  {
    if symbolType in PayoutValues then
      var row := PayoutValues[symbolType];
      if 0 <= matchCount < |row| then Pays(row[matchCount]) else IndexOutOfRange
    else Pays(0)
  }

  /** The intended multipliers, by symbol class and number of matches
      (3, 4 or 5); any other count pays nothing. The table the code reads is
      compared against these. */
  function DesignedMultiplier(symbol: Symbol, matches: int): nat {
    var byCount := match symbol
      case Wild => [50, 100, 200]
      case Scatter => [5, 10, 25]
      case Bonus => [10, 25, 50]
      case Air | Fire | Water | Earth => [15, 30, 75]
      case Dummy1 | Dummy2 | Dummy3 | Dummy4 | Dummy5 | Dummy6 => [5, 15, 30];
    if 3 <= matches <= 5 then byCount[matches - 3] else 0
  }

  /** Every symbol has a row of five entries, so no lookup on a grid symbol
      falls into the unknown-name branch; the rows are the intended multipliers
      shifted by one place: a count of k pays the intended value for k + 1
      matches, and a count of 5 is out of range. */
  lemma TableIsDesignShiftedByOne(symbol: Symbol, matchCount: int)
    ensures symbol.Name() in PayoutValues && |PayoutValues[symbol.Name()]| == 5
    ensures 2 <= matchCount <= 4 ==> GetSymbolValue(symbol.Name(), matchCount) == Pays(DesignedMultiplier(symbol, matchCount + 1))
    ensures matchCount == 5 ==> GetSymbolValue(symbol.Name(), matchCount) == IndexOutOfRange
  {
  }

  /** The table's keys are exactly the names of the 13 symbols. */
  lemma TableKeysAreSymbolNames()
    ensures forall name :: name in PayoutValues <==> exists s: Symbol :: s.Name() == name
  {
    forall name | name in PayoutValues
      ensures exists s: Symbol :: s.Name() == name
    {
      if name == "Wild" { assert Wild.Name() == name; }
      else if name == "Scatter" { assert Scatter.Name() == name; }
      else if name == "Bonus" { assert Bonus.Name() == name; }
      else if name == "Air" { assert Air.Name() == name; }
      else if name == "Fire" { assert Fire.Name() == name; }
      else if name == "Water" { assert Water.Name() == name; }
      else if name == "Earth" { assert Earth.Name() == name; }
      else if name == "Dummy1" { assert Dummy1.Name() == name; }
      else if name == "Dummy2" { assert Dummy2.Name() == name; }
      else if name == "Dummy3" { assert Dummy3.Name() == name; }
      else if name == "Dummy4" { assert Dummy4.Name() == name; }
      else if name == "Dummy5" { assert Dummy5.Name() == name; }
      else { assert Dummy6.Name() == name; }
    }
  }
}
