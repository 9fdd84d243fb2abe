/** AnalyticsManager: the event strings it builds, the row-major grid dump
    and the newest-first display log of at most six lines. */
module Analytics {
  import opened Grids
  import opened Text

  const MaxDisplayLines := 6
  const NewLine := '\n'

  // ---------------------------------------------------------------------
  // Event strings

  /** One field of an event: `,"name":value`, the value unquoted. */
  function Field(name: string, value: string): string {
    ",\"" + name + "\":" + value
  }

  /** The fields of the first `pairs` pair positions (items 0 and 1, 2
      and 3, ...), in order; a position with a name but no value adds
      nothing. */
  function PairFields(data: seq<string>, pairs: nat): string
    decreases pairs
  {
    if pairs == 0 then ""
    else if 2 * pairs - 1 < |data| then PairFields(data, pairs - 1) + Field(data[2 * pairs - 2], data[2 * pairs - 1])
    else PairFields(data, pairs - 1)
  }

  /** The fields of all the pairs of an event; an unpaired last item is
      dropped. */
  function Fields(data: seq<string>): string {
    PairFields(data, |data|)
  }

  /** The opening of every event string. */
  function EventHead(eventType: string): string {
    "{\"event\":\"" + eventType + "\""
  }

  /** The string `SendAnalyticsEvent` builds. */
  function EventJson(eventType: string, data: seq<string>): string {
    EventHead(eventType) + Fields(data) + "}"
  }

  /** Each item in double quotes. */
  function Quoted(items: seq<string>): (q: seq<string>)
    ensures |q| == |items| && forall i :: 0 <= i < |items| ==> q[i] == "\"" + items[i] + "\""
  {
    seq(|items|, i requires 0 <= i < |items| => "\"" + items[i] + "\"")
  }

  /** The array `FormatSymbolsAsJson` builds: the quoted items separated by
      commas, in brackets. */
  function JsonArray(items: seq<string>): string {
    "[" + Join(Quoted(items), ',') + "]"
  }

  /** The grid in row-major order, as `RecordSpinOutcome` lists it: entry i
      is the name at reel i % 5, row i / 5. */
  function RowMajor(g: Grid): (names: seq<string>)
    requires IsGrid(g)
    ensures |names| == CellCount
  {
    seq(CellCount, i requires 0 <= i < CellCount => g[i % ReelCount][i / ReelCount].Name())
  }

  // ---------------------------------------------------------------------
  // The display log

  /** `UpdateAnalyticsDisplay` with a display attached: the entry goes in
      front, and the log is cut to its first six lines when longer. */
  function PushEntry(log: string, data: string): string {
    var grown := data + [NewLine] + log;
    var lines := Split(grown, NewLine);
    if |lines| > MaxDisplayLines then Join(lines[..MaxDisplayLines], NewLine) else grown
  }

  /** The log after an update: unchanged when no display is attached. */
  function Logged(attached: bool, log: string, data: string): string {
    if attached then PushEntry(log, data) else log
  }

  // ---------------------------------------------------------------------
  // Lemmas: event strings

  /** The fields of the first pairs do not depend on what follows them. */
  lemma {:induction false} PairFieldsStable(a: seq<string>, b: seq<string>, pairs: nat)
    requires 2 * pairs <= |a|
    ensures PairFields(a + b, pairs) == PairFields(a, pairs)
    decreases pairs
  {
    if pairs > 0 {
      PairFieldsStable(a, b, pairs - 1);
      assert (a + b)[2 * pairs - 2] == a[2 * pairs - 2] && (a + b)[2 * pairs - 1] == a[2 * pairs - 1];
    }
  }

  /** Once the pair positions cover the data, further ones add nothing. */
  lemma {:induction false} PairFieldsSettled(data: seq<string>, covered: nat, pairs: nat)
    requires covered <= pairs && |data| <= 2 * covered + 1
    ensures PairFields(data, pairs) == PairFields(data, covered)
    decreases pairs
  {
    if pairs > covered {
      PairFieldsSettled(data, covered, pairs - 1);
    }
  }

  lemma EvenHalves(n: int)
    requires n % 2 == 0
    ensures n == 2 * (n / 2)
  {
  }

  /** A trailing unpaired item adds nothing. */
  lemma FieldsIgnoreUnpaired(data: seq<string>, extra: string)
    requires |data| % 2 == 0
    ensures Fields(data + [extra]) == Fields(data)
  {
    EvenHalves(|data|);
    var pairs := |data| / 2;
    var whole := data + [extra];
    PairFieldsSettled(whole, pairs, |whole|);
    PairFieldsStable(data, [extra], pairs);
    PairFieldsSettled(data, pairs, |data|);
  }

  /** One more pair appends exactly `,"name":value`. */
  lemma FieldsOnePair(data: seq<string>, name: string, value: string)
    requires |data| % 2 == 0
    ensures Fields(data + [name, value]) == Fields(data) + Field(name, value)
  {
    EvenHalves(|data|);
    var pairs := |data| / 2;
    var whole := data + [name, value];
    PairFieldsSettled(whole, pairs + 1, |whole|);
    assert whole[2 * pairs] == name && whole[2 * pairs + 1] == value;
    PairFieldsStable(data, [name, value], pairs);
    PairFieldsSettled(data, pairs, |data|);
  }

  /** An event string starts with `{"event":"` and the type and ends with `}`;
      without extra data it is exactly `{"event":"type"}`. */
  lemma EventJsonShape(eventType: string, data: seq<string>)
    ensures "{\"event\":\"" + eventType + "\"" <= EventJson(eventType, data)
    ensures EventJson(eventType, data)[|EventJson(eventType, data)| - 1] == '}'
    ensures |data| < 2 ==> EventJson(eventType, data) == "{\"event\":\"" + eventType + "\"}"
  {
    if |data| < 2 {
      PairFieldsSettled(data, 0, |data|);
      assert EventHead(eventType) + "" == EventHead(eventType);
    }
  }

  /** Quoting adds no comma. */
  lemma QuotedClean(items: seq<string>)
    requires forall i :: 0 <= i < |items| ==> ',' !in items[i]
    ensures Clean(Quoted(items), ',')
  {
    var q := Quoted(items);
    forall i | 0 <= i < |q|
      ensures ',' !in q[i]
    {
      assert q[i] == "\"" + items[i] + "\"";
      assert multiset(q[i]) == multiset("\"") + multiset(items[i]) + multiset("\"");
    }
  }

  /** The array is `[]` for no items; otherwise, for items without commas,
      it holds exactly one comma fewer than items. */
  lemma JsonArrayCommas(items: seq<string>)
    requires forall i :: 0 <= i < |items| ==> ',' !in items[i]
    ensures |items| == 0 ==> JsonArray(items) == "[]"
    ensures multiset(JsonArray(items))[','] == if |items| == 0 then 0 else |items| - 1
  {
    QuotedClean(items);
    var joined := Join(Quoted(items), ',');
    JoinCountsSeparators(Quoted(items), ',');
    assert multiset("[" + joined + "]") == multiset("[") + multiset(joined) + multiset("]");
    if |items| == 0 {
      assert "[" + joined == "[";
    }
  }

  /** One step of building the array: after the opening bracket and the
      first `i` items, each followed by a comma, comes item `i`. */
  lemma JsonArrayStep(quoted: seq<string>, i: nat, built: string)
    requires i < |quoted|
    requires i == 0 ==> built == "["
    requires 0 < i ==> built == "[" + Join(quoted[..i], ',') + ","
    ensures built + quoted[i] == "[" + Join(quoted[..i + 1], ',')
  {
    JoinSnoc(quoted[..i], ',', quoted[i]);
    assert quoted[..i + 1] == quoted[..i] + [quoted[i]];
  }

  /** Row-major entry i names cell (i % 5, i / 5), so entry row * 5 + reel
      names cell (reel, row). */
  lemma RowMajorIndex(g: Grid, reel: int, row: int)
    requires IsGrid(g) && 0 <= reel < ReelCount && 0 <= row < RowCount
    ensures 0 <= row * 5 + reel < CellCount
    ensures RowMajor(g)[row * 5 + reel] == g[reel][row].Name()
  {
    var i := row * 5 + reel;
    assert i % ReelCount == reel && i / ReelCount == row;
  }

  /** A list of 20 names holding the name of cell (reel, row) at
      `row * 5 + reel` is the row-major list. */
  lemma RowMajorByCells(g: Grid, names: seq<string>)
    requires IsGrid(g) && |names| == CellCount
    requires forall w, r :: 0 <= w < RowCount && 0 <= r < ReelCount ==> names[w * 5 + r] == g[r][w].Name()
    ensures names == RowMajor(g)
  {
    forall i | 0 <= i < CellCount
      ensures names[i] == RowMajor(g)[i]
    {
      var w, r := i / ReelCount, i % ReelCount;
      assert i == w * 5 + r;
    }
  }

  // ---------------------------------------------------------------------
  // Lemmas: the display log

  /** After an update the log has at most six lines. */
  lemma PushEntryBounded(log: string, data: string)
    ensures |Split(PushEntry(log, data), NewLine)| <= MaxDisplayLines
  {
    var grown := data + [NewLine] + log;
    var lines := Split(grown, NewLine);
    if |lines| > MaxDisplayLines {
      SplitPiecesAreClean(grown, NewLine);
      assert Clean(lines[..MaxDisplayLines], NewLine);
      SplitJoin(lines[..MaxDisplayLines], NewLine);
    } else {
      assert lines == Split(PushEntry(log, data), NewLine);
    }
  }

  /** The update puts the entry first and keeps the newest lines: the new
      log is a prefix of `data + "\n" + log`, and for an entry without a
      line break its lines are the entry's followed by the old log's, cut to
      six. */
  lemma PushEntryNewestFirst(log: string, data: string)
    ensures PushEntry(log, data) <= data + [NewLine] + log
    ensures NewLine !in data ==>
      var lines := [data] + Split(log, NewLine);
      Split(PushEntry(log, data), NewLine) == if |lines| > MaxDisplayLines then lines[..MaxDisplayLines] else lines
  {
    var grown := data + [NewLine] + log;
    var lines := Split(grown, NewLine);
    JoinSplit(grown, NewLine);
    if |lines| > MaxDisplayLines {
      JoinPrefix(lines, NewLine, MaxDisplayLines);
      SplitPiecesAreClean(grown, NewLine);
      assert Clean(lines[..MaxDisplayLines], NewLine);
      SplitJoin(lines[..MaxDisplayLines], NewLine);
    }
    if NewLine !in data {
      SplitAroundSeparator(data, NewLine, log);
      SplitWithoutSeparator(data, NewLine);
    }
  }

  /** With the display detached the log never changes. */
  lemma LoggedDetached(log: string, data: string)
    ensures Logged(false, log, data) == log
    ensures |Split(log, NewLine)| <= MaxDisplayLines ==> |Split(Logged(true, log, data), NewLine)| <= MaxDisplayLines
    ensures |Split(log, NewLine)| <= MaxDisplayLines ==> |Split(Logged(false, log, data), NewLine)| <= MaxDisplayLines
  {
    PushEntryBounded(log, data);
  }

  // ---------------------------------------------------------------------
  // The manager

  class AnalyticsManager {
    /** `analyticsLog`, newest entry first. */
    var analyticsLog: string
    /** Whether `analyticsDisplayText` is set. */
    const displayAttached: bool
    /** `analyticsDisplayText.text`. */
    var displayText: string

    /** The log never holds more than six lines. */
    predicate Valid()
      reads this
    {
      |Split(analyticsLog, NewLine)| <= MaxDisplayLines
    }

    constructor (displayAttached: bool, displayText: string)
      ensures Valid()
      ensures analyticsLog == "" && this.displayAttached == displayAttached && this.displayText == displayText
    {
      analyticsLog := "";
      this.displayAttached := displayAttached;
      this.displayText := displayText;
    }

    /** Prepends an entry and trims the log to six lines, then shows it. */
    method UpdateAnalyticsDisplay(analyticsData: string)
      requires Valid()
      modifies this
      ensures Valid()
      ensures analyticsLog == Logged(displayAttached, old(analyticsLog), analyticsData)
      ensures displayText == if displayAttached then analyticsLog else old(displayText)
    {
      if displayAttached {
        PushEntryBounded(analyticsLog, analyticsData);
        analyticsLog := analyticsData + [NewLine] + analyticsLog;
        var lines := Split(analyticsLog, NewLine);
        if |lines| > MaxDisplayLines {
          analyticsLog := Join(lines[..MaxDisplayLines], NewLine);
        }
        displayText := analyticsLog;
      }
    }

    /** Empties the log and the display. */
    method ClearAnalyticsDisplay()
      modifies this
      ensures Valid()
      ensures analyticsLog == ""
      ensures displayText == if displayAttached then "" else old(displayText)
    {
      analyticsLog := "";
      if displayAttached {
        displayText := "";
      }
    }

    /** Builds the event string, the head, one field per complete pair
        stepping two items at a time, and the brace, and logs it. */
    method SendAnalyticsEvent(eventType: string, additionalData: seq<string>)
      requires Valid()
      modifies this
      ensures Valid()
      ensures analyticsLog == Logged(displayAttached, old(analyticsLog), EventJson(eventType, additionalData))
      ensures displayText == if displayAttached then analyticsLog else old(displayText)
    {
      var jsonOutput := EventHead(eventType);
      var i := 0;
      ghost var pairs := 0;
      while i < |additionalData|
        invariant i == 2 * pairs && i <= |additionalData| + 1
        invariant jsonOutput == EventHead(eventType) + PairFields(additionalData, pairs)
      {
        if i + 1 < |additionalData| {
          var fieldName := additionalData[i];
          var fieldValue := additionalData[i + 1];
          jsonOutput := jsonOutput + Field(fieldName, fieldValue);
        }
        i := i + 2;
        pairs := pairs + 1;
      }
      PairFieldsSettled(additionalData, pairs, |additionalData|);
      jsonOutput := jsonOutput + "}";
      UpdateAnalyticsDisplay(jsonOutput);
    }

    /** The quoted names, comma-separated, in brackets. */
    method FormatSymbolsAsJson(symbols: seq<string>) returns (jsonArray: string)
      ensures jsonArray == JsonArray(symbols)
    {
      ghost var quoted := Quoted(symbols);
      jsonArray := "[";
      for i := 0 to |symbols|
        invariant i == 0 ==> jsonArray == "["
        invariant 0 < i < |symbols| ==> jsonArray == "[" + Join(quoted[..i], ',') + ","
        invariant 0 < i == |symbols| ==> jsonArray == "[" + Join(quoted, ',')
      {
        var item := "\"" + symbols[i] + "\"";
        JsonArrayStep(quoted, i, jsonArray);
        jsonArray := jsonArray + item;
        if i < |symbols| - 1 {
          jsonArray := jsonArray + ",";
        } else {
          assert quoted[..i + 1] == quoted;
        }
      }
      if |symbols| == 0 {
        assert Join(quoted, ',') == "";
      }
      jsonArray := jsonArray + "]";
    }

    /** The grid's names row by row, left to right. */
    method FlattenRowMajor(symbolLayout: array2<Symbol>) returns (allSymbols: seq<string>)
      requires Shaped(symbolLayout)
      ensures allSymbols == RowMajor(Snapshot(symbolLayout))
    {
      ghost var g: Grid := Snapshot(symbolLayout);
      allSymbols := [];
      for row := 0 to RowCount
        invariant |allSymbols| == row * 5
        invariant forall w, r :: 0 <= w < row && 0 <= r < ReelCount ==> allSymbols[w * 5 + r] == g[r][w].Name()
      {
        for reel := 0 to ReelCount
          invariant |allSymbols| == row * 5 + reel
          invariant forall w, r :: 0 <= w <= row && 0 <= r < ReelCount && (w < row || r < reel) ==>
            allSymbols[w * 5 + r] == g[r][w].Name()
        {
          var cell := symbolLayout[reel, row];
          assert cell == g[reel][row];
          allSymbols := allSymbols + [cell.Name()];
        }
      }
      RowMajorByCells(g, allSymbols);
    }

    method RecordGameStart()
      requires Valid()
      modifies this
      ensures Valid()
      ensures analyticsLog == Logged(displayAttached, old(analyticsLog), EventJson("game_start", []))
      ensures displayText == if displayAttached then analyticsLog else old(displayText)
    {
      SendAnalyticsEvent("game_start", []);
    }

    method RecordSpinInitiated(betPlaced: int)
      requires Valid()
      modifies this
      ensures Valid()
      ensures analyticsLog == Logged(displayAttached, old(analyticsLog), EventJson("spin_start", ["bet", IntToString(betPlaced)]))
      ensures displayText == if displayAttached then analyticsLog else old(displayText)
    {
      SendAnalyticsEvent("spin_start", ["bet", IntToString(betPlaced)]);
    }

    /** Logs the win and the grid, flattened row-major, as a JSON array. */
    method RecordSpinOutcome(amountWon: int, symbolLayout: array2<Symbol>, betPlaced: int)
      requires Valid() && Shaped(symbolLayout)
      modifies this
      ensures Valid()
      ensures analyticsLog == Logged(displayAttached, old(analyticsLog),
        EventJson("spin_result", ["win", IntToString(amountWon), "symbols", JsonArray(RowMajor(Snapshot(symbolLayout)))]))
      ensures displayText == if displayAttached then analyticsLog else old(displayText)
    {
      var allSymbols := FlattenRowMajor(symbolLayout);
      var symbolsJson := FormatSymbolsAsJson(allSymbols);
      SendAnalyticsEvent("spin_result", ["win", IntToString(amountWon), "symbols", symbolsJson]);
    }

    method RecordBonusActivation(bonusName: string)
      requires Valid()
      modifies this
      ensures Valid()
      ensures analyticsLog == Logged(displayAttached, old(analyticsLog), EventJson("bonus_triggered", ["bonus_type", bonusName]))
      ensures displayText == if displayAttached then analyticsLog else old(displayText)
    {
      SendAnalyticsEvent("bonus_triggered", ["bonus_type", bonusName]);
    }

    method RecordBonusCompletion(bonusName: string)
      requires Valid()
      modifies this
      ensures Valid()
      ensures analyticsLog == Logged(displayAttached, old(analyticsLog), EventJson("bonus_complete", ["bonus_type", bonusName]))
      ensures displayText == if displayAttached then analyticsLog else old(displayText)
    {
      SendAnalyticsEvent("bonus_complete", ["bonus_type", bonusName]);
    }

    method RecordBetChange(updatedBet: int)
      requires Valid()
      modifies this
      ensures Valid()
      ensures analyticsLog == Logged(displayAttached, old(analyticsLog), EventJson("bet_changed", ["new_bet", IntToString(updatedBet)]))
      ensures displayText == if displayAttached then analyticsLog else old(displayText)
    {
      SendAnalyticsEvent("bet_changed", ["new_bet", IntToString(updatedBet)]);
    }

    method RecordSessionConclusion()
      requires Valid()
      modifies this
      ensures Valid()
      ensures analyticsLog == Logged(displayAttached, old(analyticsLog), EventJson("session_end", []))
      ensures displayText == if displayAttached then analyticsLog else old(displayText)
    {
      SendAnalyticsEvent("session_end", []);
    }
  }
}
