/** The strategy editor (src/components/StrategyBuilder.tsx): a list of saved strategies and
    one working copy, the selection, that the editor's fields change. Parameter values are
    exact reals; `parseFloat`, `alert` and the rendering are left out. */
module StrategyBuilder {
  import opened Wrappers

  datatype StrategyType = TrendFollowing | MeanReversion | Arbitrage | Momentum

  datatype Status = Draft | Testing | Live

  datatype Strategy = Strategy(
    id: string, name: string, description: string, strategyType: StrategyType,
    parameters: map<string, real>, code: string, status: Status)

  function Ids(ss: seq<Strategy>): set<string>
  {
    set i | 0 <= i < |ss| :: ss[i].id
  }

  predicate DistinctIds(ss: seq<Strategy>)
  {
    forall i, j :: 0 <= i < j < |ss| ==> ss[i].id != ss[j].id
  }

  /** The list update both setters run: every entry with the working copy's id becomes the
      working copy, every other entry stays, and length, order and ids are kept. */
  function ReplaceById(ss: seq<Strategy>, t: Strategy): (r: seq<Strategy>)
    ensures |r| == |ss|
    ensures forall i :: 0 <= i < |ss| ==> r[i].id == ss[i].id
    ensures forall i :: 0 <= i < |ss| && ss[i].id != t.id ==> r[i] == ss[i]
    ensures forall i :: 0 <= i < |ss| && ss[i].id == t.id ==> r[i] == t
    ensures Ids(r) == Ids(ss)
  {
    var r := seq(|ss|, i requires 0 <= i < |ss| => if ss[i].id == t.id then t else ss[i]);
    SameIds(ss, r);
    r
  }

  lemma SameIds(ss: seq<Strategy>, r: seq<Strategy>)
    requires |r| == |ss| && forall i :: 0 <= i < |ss| ==> r[i].id == ss[i].id
    ensures Ids(r) == Ids(ss)
  {
    forall x | x in Ids(ss) ensures x in Ids(r) {
      var i :| 0 <= i < |ss| && ss[i].id == x;
      assert r[i].id == x;
    }
  }

  /** Saving the same copy twice is the same as saving it once. */
  lemma SaveIdempotent(ss: seq<Strategy>, t: Strategy)
    ensures ReplaceById(ReplaceById(ss, t), t) == ReplaceById(ss, t)
  {
  }

  /** Of two saves under one id, the later one wins. */
  lemma LaterSaveWins(ss: seq<Strategy>, a: Strategy, b: Strategy)
    requires a.id == b.id
    ensures ReplaceById(ReplaceById(ss, a), b) == ReplaceById(ss, b)
  {
  }

  /** A copy whose id is not in the list saves nowhere. */
  lemma SaveUnknownId(ss: seq<Strategy>, t: Strategy)
    requires t.id !in Ids(ss)
    ensures ReplaceById(ss, t) == ss
  {
    var r := ReplaceById(ss, t);
    forall i | 0 <= i < |ss| ensures r[i] == ss[i] {
      assert ss[i].id in Ids(ss);
    }
  }

  /** After a save the list holds the copy under its id. */
  lemma SavedCopyIsListed(ss: seq<Strategy>, t: Strategy)
    requires t.id in Ids(ss)
    ensures t in ReplaceById(ss, t)
  {
    var i :| 0 <= i < |ss| && ss[i].id == t.id;
    assert ReplaceById(ss, t)[i] == t;
  }

  /** `{ ...s, parameters: { ...s.parameters, [key]: value } }`: `key` now holds `value`, every
      other key keeps its presence and value, and every other field is kept. */
  function SetParameter(s: Strategy, key: string, value: real): (r: Strategy)
    ensures key in r.parameters && r.parameters[key] == value
    ensures forall k :: k != key ==> (k in r.parameters <==> k in s.parameters)
    ensures forall k :: k != key && k in s.parameters ==> r.parameters[k] == s.parameters[k]
    ensures r.(parameters := s.parameters) == s
  {
    s.(parameters := s.parameters[key := value])
  }

  /** Changing one key and then another leaves the first change in place. */
  lemma SetParameterCommutes(s: Strategy, k1: string, v1: real, k2: string, v2: real)
    requires k1 != k2
    ensures SetParameter(SetParameter(s, k1, v1), k2, v2) == SetParameter(SetParameter(s, k2, v2), k1, v1)
  {
    var a := SetParameter(SetParameter(s, k1, v1), k2, v2);
    var b := SetParameter(SetParameter(s, k2, v2), k1, v1);
    assert a.parameters == b.parameters;
  }

  // ---------------------------------------------------------------------------
  // The starting list

  /** The strategy code texts are kept as their opening comment line. */
  const SmaCode: string := "// Simple Moving Average Crossover Strategy"
  const RsiCode: string := "// RSI Mean Reversion Strategy"

  const InitialStrategies: seq<Strategy> := [
    Strategy("sma-crossover", "SMA Crossover", "Simple moving average crossover strategy",
      TrendFollowing,
      map["fastPeriod" := 10.0, "slowPeriod" := 20.0, "stopLoss" := 2.0, "takeProfit" := 4.0],
      SmaCode, Testing),
    Strategy("rsi-mean-reversion", "RSI Mean Reversion", "Buy oversold, sell overbought using RSI",
      MeanReversion,
      map["rsiPeriod" := 14.0, "oversoldThreshold" := 30.0, "overboughtThreshold" := 70.0, "stopLoss" := 1.5],
      RsiCode, Draft)
  ]

  /** The editor state: the saved list and the working copy, if one is selected. The copy's
      id always names an entry of the list. */
  class StrategyEditor {
    var strategies: seq<Strategy>
    var selectedStrategy: Option<Strategy>

    ghost predicate Valid()
      reads this
    {
      && DistinctIds(strategies)
      && (selectedStrategy.Some? ==> selectedStrategy.value.id in Ids(strategies))
    }

    /** The editor opens with the first strategy selected. */
    constructor ()
      ensures Valid()
      ensures strategies == InitialStrategies && selectedStrategy == Some(InitialStrategies[0])
    {
      strategies := InitialStrategies;
      selectedStrategy := Some(InitialStrategies[0]);
      assert InitialStrategies[0].id in Ids(InitialStrategies);
    }

    /** `handleParameterChange`: with a selection, set the key on the working copy and write
        the whole copy, unsaved edits included, into the list; with none, do nothing. */
    method HandleParameterChange(key: string, value: real)
      requires Valid()
      modifies this
      ensures Valid()
      ensures old(selectedStrategy).None? ==> unchanged(this)
      ensures old(selectedStrategy).Some? ==>
        && selectedStrategy == Some(SetParameter(old(selectedStrategy).value, key, value))
        && strategies == ReplaceById(old(strategies), selectedStrategy.value)
        && selectedStrategy.value in strategies
    {
      if selectedStrategy.Some? {
        var updated := SetParameter(selectedStrategy.value, key, value);
        selectedStrategy := Some(updated);
        SavedCopyIsListed(strategies, updated);
        strategies := ReplaceById(strategies, updated);
      }
    }

    /** `saveStrategy`: write the working copy into the list under its id. */
    method SaveStrategy()
      requires Valid()
      modifies this`strategies
      ensures Valid()
      ensures old(selectedStrategy).None? ==> strategies == old(strategies)
      ensures selectedStrategy.Some? ==>
        && strategies == ReplaceById(old(strategies), selectedStrategy.value)
        && selectedStrategy.value in strategies
    {
      if selectedStrategy.Some? {
        SavedCopyIsListed(strategies, selectedStrategy.value);
        strategies := ReplaceById(strategies, selectedStrategy.value);
      }
    }

    /** The code editor: changes the working copy's code only; the list waits for a save. */
    method EditCode(code: string)
      requires Valid() && selectedStrategy.Some?
      modifies this`selectedStrategy
      ensures Valid()
      ensures selectedStrategy == Some(old(selectedStrategy).value.(code := code))
    {
      selectedStrategy := Some(selectedStrategy.value.(code := code));
    }

    /** The name field. */
    method EditName(name: string)
      requires Valid() && selectedStrategy.Some?
      modifies this`selectedStrategy
      ensures Valid()
      ensures selectedStrategy == Some(old(selectedStrategy).value.(name := name))
    {
      selectedStrategy := Some(selectedStrategy.value.(name := name));
    }

    /** The description field. */
    method EditDescription(description: string)
      requires Valid() && selectedStrategy.Some?
      modifies this`selectedStrategy
      ensures Valid()
      ensures selectedStrategy == Some(old(selectedStrategy).value.(description := description))
    {
      selectedStrategy := Some(selectedStrategy.value.(description := description));
    }

    /** The type picker, which offers the four strategy types. */
    method EditType(strategyType: StrategyType)
      requires Valid() && selectedStrategy.Some?
      modifies this`selectedStrategy
      ensures Valid()
      ensures selectedStrategy == Some(old(selectedStrategy).value.(strategyType := strategyType))
    {
      selectedStrategy := Some(selectedStrategy.value.(strategyType := strategyType));
    }

    /** A click on a list entry makes a copy of it the working copy, dropping unsaved edits. */
    method Select(s: Strategy)
      requires Valid() && s in strategies
      modifies this`selectedStrategy
      ensures Valid() && selectedStrategy == Some(s)
    {
      var i :| 0 <= i < |strategies| && strategies[i] == s;
      assert strategies[i].id in Ids(strategies);
      selectedStrategy := Some(s);
    }
  }

  /** A parameter change already saves the working copy, so a save right after it changes
      nothing; and it saves every pending field edit along with the parameter. */
  method ParameterChangeThenSave(e: StrategyEditor, key: string, value: real)
    requires e.Valid() && e.selectedStrategy.Some?
    modifies e
    ensures e.Valid()
    ensures e.selectedStrategy == Some(SetParameter(old(e.selectedStrategy).value, key, value))
    ensures e.strategies == ReplaceById(old(e.strategies), e.selectedStrategy.value)
  {
    ghost var before := e.strategies;
    ghost var copy := e.selectedStrategy.value;
    e.HandleParameterChange(key, value);
    LaterSaveWins(before, copy, e.selectedStrategy.value);
    assert e.strategies == ReplaceById(ReplaceById(before, copy), e.selectedStrategy.value);
    ghost var changed := e.strategies;
    e.SaveStrategy();
    SaveIdempotent(before, e.selectedStrategy.value);
    assert e.strategies == changed;
  }
}
