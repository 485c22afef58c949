/** The paper-trading simulator component (src/components/MarketSimulator.tsx) as a state
    machine: one object holding the component's state fields, one method per command. Each
    React state setter becomes an assignment to the field; the random price move of a tick
    is a parameter, the trade UUID a counter, and timestamps are left out. */
module MarketSimulator {
  import opened Wrappers
  import opened Portfolio

  /** The tradable symbols, in the order the tick visits them. */
  const Symbols: seq<string> := ["AAPL", "MSFT", "GOOGL", "TSLA", "SPY"]

  /** The opening quote of every symbol. */
  const InitialPrices: map<string, real> :=
    map["AAPL" := 150.25, "MSFT" := 305.80, "GOOGL" := 2450.50, "TSLA" := 185.30, "SPY" := 425.75]

  const StartingBalance: real := 10000.0

  /** Largest relative move of one tick, either way. */
  const MaxChange: real := 0.02

  /** Why the trading buttons refuse an order. */
  datatype Rejection = SessionNotActive | InsufficientFunds

  datatype OrderOutcome = Accepted(trade: Trade) | Rejected(reason: Rejection)

  /** Every tradable symbol is quoted, and no quote is below the tick's floor. */
  predicate QuotesValid(prices: map<string, real>)
  {
    && (forall i :: 0 <= i < |Symbols| ==> Symbols[i] in prices)
    && (forall s :: s in prices ==> prices[s] >= MinPrice)
  }

  /** One position per symbol, each in a quoted symbol. */
  predicate BookValid(positions: seq<Position>, prices: map<string, real>)
  {
    UniqueSymbols(positions) && SymbolsOf(positions) <= prices.Keys
  }

  /** Trade ids fall strictly from the newest record to the oldest, and all lie below the
      next id to hand out; in particular no two records share an id. */
  predicate LogValid(trades: seq<Trade>, nextId: nat)
  {
    && (forall i, j :: 0 <= i < j < |trades| ==> trades[j].id < trades[i].id)
    && (forall i :: 0 <= i < |trades| ==> trades[i].id < nextId)
  }

  /** Recording a trade under the next id keeps the log's ids fresh and ordered. */
  lemma LogPrepend(trades: seq<Trade>, nextId: nat, t: Trade)
    requires LogValid(trades, nextId) && t.id == nextId
    ensures LogValid([t] + trades, nextId + 1)
  {
  }

  /** The accounting identity of the simulator state carries over a covered trade. */
  lemma ReconcileTrade(balance: real, ps: seq<Position>, realized: real, initialBalance: real,
                       side: Side, sym: string, q: int, price: real)
    requires UniqueSymbols(ps) && AllLong(ps) && q >= 1 && Covered(ps, side, sym, q)
    requires balance + CostBasis(ps) == initialBalance + realized
    ensures AllLong(ApplyTrade(ps, side, sym, q, price))
    ensures balance + CashDelta(side, q, price) + CostBasis(ApplyTrade(ps, side, sym, q, price))
      == initialBalance + (realized + RealizedGain(ps, side, sym, q, price))
  {
    TradeAccounting(ps, side, sym, q, price);
  }

  /** A trade on a quoted symbol keeps the book valid. */
  lemma BookAfterTrade(ps: seq<Position>, prices: map<string, real>, side: Side, sym: string, q: int, price: real)
    requires BookValid(ps, prices) && sym in prices
    ensures BookValid(ApplyTrade(ps, side, sym, q, price), prices)
  {
    OnePositionPerSymbol(ps, side, sym, q, price);
  }

  class Simulator {
    var isSimulating: bool
    var balance: real
    const initialBalance: real
    var selectedSymbol: string
    var quantity: int
    /** Newest first. */
    var trades: seq<Trade>
    var positions: seq<Position>
    var currentPrices: map<string, real>
    var priceHistory: seq<PricePoint>
    /** Stands in for the random UUID generator: the id the next trade receives. */
    var nextId: nat
    /** Gain realized against average cost by the sells so far; the component does not
        keep this figure, it is here to state the accounting identity. */
    ghost var realized: real

    /** The state the component keeps consistent whatever the sequence of commands. */
    ghost predicate Valid()
      reads this
    {
      && initialBalance == StartingBalance
      && QuotesValid(currentPrices)
      && selectedSymbol in currentPrices
      && quantity >= 1
      && balance >= 0.0
      && BookValid(positions, currentPrices)
      && |priceHistory| <= HistoryLimit
      && LogValid(trades, nextId)
    }

    /** The accounting identity: every position is long and cash plus the cost basis of the
        holdings is the initial balance plus the realized gain. */
    ghost predicate Reconciled()
      reads this
    {
      AllLong(positions) && balance + CostBasis(positions) == initialBalance + realized
    }

    /** The component as first rendered: paused, all cash, nothing traded. */
    constructor ()
      ensures Valid() && Reconciled()
      ensures !isSimulating && balance == initialBalance == StartingBalance
      ensures selectedSymbol == "AAPL" && quantity == 10
      ensures trades == [] && positions == [] && priceHistory == []
      ensures currentPrices == InitialPrices
    {
      isSimulating := false;
      balance := StartingBalance;
      initialBalance := StartingBalance;
      selectedSymbol := "AAPL";
      quantity := 10;
      trades := [];
      positions := [];
      currentPrices := InitialPrices;
      priceHistory := [];
      nextId := 0;
      realized := 0.0;
    }

    /** `executeTrade`: one price snapshot of the selected symbol prices the whole trade. A
        BUY that costs more than the cash is dropped with no effect; otherwise cash moves by
        the cost, one record goes to the front of the log, and the position list is updated.
        A SELL is never refused, held or not. For a BUY, or a SELL of at most the held
        quantity, the accounting identity carries over. */
    method ExecuteTrade(side: Side) returns (accepted: bool)
      requires Valid()
      modifies this
      ensures Valid()
      ensures
        var price := old(currentPrices[selectedSymbol]);
        accepted == (side == Sell || old(balance) >= price * old(quantity) as real)
      ensures accepted ==>
        var sym, q, price := old(selectedSymbol), old(quantity), old(currentPrices[selectedSymbol]);
        && balance == old(balance) + CashDelta(side, q, price)
        && trades == [Trade(old(nextId), side, sym, q, price)] + old(trades)
        && positions == ApplyTrade(old(positions), side, sym, q, price)
        && nextId == old(nextId) + 1
        && realized == old(realized) + RealizedGain(old(positions), side, sym, q, price)
      ensures !accepted ==>
        && balance == old(balance) && trades == old(trades) && positions == old(positions)
        && nextId == old(nextId) && realized == old(realized)
      ensures isSimulating == old(isSimulating) && currentPrices == old(currentPrices)
      ensures priceHistory == old(priceHistory)
      ensures selectedSymbol == old(selectedSymbol) && quantity == old(quantity)
      ensures old(Reconciled()) && Covered(old(positions), side, old(selectedSymbol), old(quantity)) ==> Reconciled()
      ensures accepted && (side == Buy || Find(old(positions), old(selectedSymbol)).Some?) ==>
        MarketReturn(balance, positions, currentPrices, initialBalance)
          == old(MarketReturn(balance, positions, currentPrices, initialBalance))
    {
      var price := currentPrices[selectedSymbol];
      if side == Buy && balance < price * quantity as real {
        return false;
      }
      if side == Buy || Find(positions, selectedSymbol).Some? {
        MarketReturnKeptByTrade(balance, positions, side, selectedSymbol, quantity, currentPrices, initialBalance);
      }
      Fill(side, price);
      accepted := true;
    }

    /** The accepted half of `executeTrade`, at the snapshot price of the selected symbol. */
    method Fill(side: Side, price: real)
      requires Valid() && price == currentPrices[selectedSymbol]
      requires side == Sell || balance >= price * quantity as real
      modifies this`balance, this`trades, this`nextId, this`realized, this`positions
      ensures Valid()
      ensures balance == old(balance) + CashDelta(side, quantity, price)
      ensures trades == [Trade(old(nextId), side, selectedSymbol, quantity, price)] + old(trades)
      ensures positions == ApplyTrade(old(positions), side, selectedSymbol, quantity, price)
      ensures nextId == old(nextId) + 1
      ensures realized == old(realized) + RealizedGain(old(positions), side, selectedSymbol, quantity, price)
      ensures old(Reconciled()) && Covered(old(positions), side, selectedSymbol, quantity) ==> Reconciled()
    {
      CostIsPositive(price, quantity);
      balance := balance + CashDelta(side, quantity, price);
      LogPrepend(trades, nextId, Trade(nextId, side, selectedSymbol, quantity, price));
      trades := [Trade(nextId, side, selectedSymbol, quantity, price)] + trades;
      nextId := nextId + 1;
      ghost var gain := RealizedGain(positions, side, selectedSymbol, quantity, price);
      var next := ApplyTrade(positions, side, selectedSymbol, quantity, price);
      BookAfterTrade(positions, currentPrices, side, selectedSymbol, quantity, price);
      if old(Reconciled()) && Covered(positions, side, selectedSymbol, quantity) {
        ReconcileTrade(old(balance), positions, realized, initialBalance, side, selectedSymbol, quantity, price);
      }
      realized := realized + gain;
      positions := next;
    }

    /** One firing of the one-second interval. Every symbol moves by its `changes` entry and
        is clamped at 0.01. The chart point and the positions' P&L use the prices the
        interval's closure captured, that is, the prices from before this tick's move. */
    method Tick(changes: seq<real>)
      requires Valid() && isSimulating
      requires |changes| == |Symbols|
      requires forall i :: 0 <= i < |changes| ==> -MaxChange <= changes[i] <= MaxChange
      modifies this
      ensures Valid()
      ensures currentPrices.Keys == old(currentPrices).Keys
      ensures forall s :: s in currentPrices && s !in Symbols ==> currentPrices[s] == old(currentPrices)[s]
      ensures forall i :: 0 <= i < |Symbols| ==>
        currentPrices[Symbols[i]] == NextPrice(old(currentPrices)[Symbols[i]], changes[i])
      ensures priceHistory == PushHistory(old(priceHistory), PricePoint(selectedSymbol, old(currentPrices)[selectedSymbol]))
      ensures positions == Mark(old(positions), old(currentPrices))
      ensures balance == old(balance) && trades == old(trades) && nextId == old(nextId)
      ensures isSimulating && selectedSymbol == old(selectedSymbol) && quantity == old(quantity)
      ensures realized == old(realized)
      ensures old(Reconciled()) ==> Reconciled()
    {
      var stale := currentPrices;
      var updated := MovePrices(currentPrices, changes);
      currentPrices := updated;
      priceHistory := PushHistory(priceHistory, PricePoint(selectedSymbol, stale[selectedSymbol]));
      MarkAccounts(positions, stale);
      positions := Mark(positions, stale);
    }

    /** `resetSimulation`: cash back to the initial balance, no trades, positions or chart
        points, and paused; the quotes stay where they are. */
    method Reset()
      requires Valid()
      modifies this
      ensures Valid() && Reconciled()
      ensures balance == initialBalance && !isSimulating
      ensures trades == [] && positions == [] && priceHistory == []
      ensures TotalReturn(balance, positions, initialBalance) == 0.0
      ensures MarketReturn(balance, positions, currentPrices, initialBalance) == 0.0
      ensures currentPrices == old(currentPrices) && selectedSymbol == old(selectedSymbol)
      ensures quantity == old(quantity) && nextId == old(nextId)
      ensures realized == 0.0
    {
      balance := initialBalance;
      trades := [];
      positions := [];
      priceHistory := [];
      isSimulating := false;
      realized := 0.0;
    }

    /** The Start/Pause button. */
    method ToggleSimulation()
      requires Valid()
      modifies this`isSimulating
      ensures Valid() && isSimulating == !old(isSimulating)
    {
      isSimulating := !isSimulating;
    }

    /** The symbol picker, which offers exactly the tradable symbols. */
    method SelectSymbol(sym: string)
      requires Valid() && sym in Symbols
      modifies this`selectedSymbol
      ensures Valid() && selectedSymbol == sym
    {
      selectedSymbol := sym;
    }

    /** The quantity field. */
    method SetQuantity(q: int)
      requires Valid() && q >= 1
      modifies this`quantity
      ensures Valid() && quantity == q
    {
      quantity := q;
    }

    /** The Buy and Sell buttons: both are disabled while paused, and Buy also while the
        cash is below the estimated cost; an enabled button runs `executeTrade`. */
    method SubmitOrder(side: Side) returns (outcome: OrderOutcome)
      requires Valid()
      modifies this
      ensures Valid()
      ensures !old(isSimulating) ==> outcome == Rejected(SessionNotActive)
      ensures
        var cost := old(currentPrices[selectedSymbol]) * old(quantity) as real;
        old(isSimulating) && side == Buy && old(balance) < cost ==> outcome == Rejected(InsufficientFunds)
      ensures outcome.Accepted? <==>
        old(isSimulating) && (side == Sell || old(balance) >= old(currentPrices[selectedSymbol]) * old(quantity) as real)
      ensures outcome.Rejected? ==> unchanged(this)
      ensures outcome.Accepted? ==>
        var sym, q, price := old(selectedSymbol), old(quantity), old(currentPrices[selectedSymbol]);
        && isSimulating && selectedSymbol == sym && quantity == q && nextId == old(nextId) + 1
        && outcome.trade == Trade(old(nextId), side, sym, q, price)
        && trades == [outcome.trade] + old(trades)
        && balance == old(balance) + CashDelta(side, q, price)
        && positions == ApplyTrade(old(positions), side, sym, q, price)
        && currentPrices == old(currentPrices) && priceHistory == old(priceHistory)
      ensures old(Reconciled()) && Covered(old(positions), side, old(selectedSymbol), old(quantity)) ==> Reconciled()
    {
      if !isSimulating {
        return Rejected(SessionNotActive);
      }
      if side == Buy && balance < currentPrices[selectedSymbol] * quantity as real {
        return Rejected(InsufficientFunds);
      }
      var accepted := ExecuteTrade(side);
      outcome := Accepted(trades[0]);
    }
  }

  /** The price update of one tick: each tradable symbol in turn moves by its change and is
      clamped at 0.01; any other quote is left alone. */
  method MovePrices(prices: map<string, real>, changes: seq<real>) returns (updated: map<string, real>)
    requires QuotesValid(prices) && |changes| == |Symbols|
    ensures QuotesValid(updated) && updated.Keys == prices.Keys
    ensures forall i :: 0 <= i < |Symbols| ==> updated[Symbols[i]] == NextPrice(prices[Symbols[i]], changes[i])
    ensures forall s :: s in updated && s !in Symbols ==> updated[s] == prices[s]
  {
    updated := prices;
    var i := 0;
    while i < |Symbols|
      invariant 0 <= i <= |Symbols|
      invariant updated.Keys == prices.Keys
      invariant forall s :: s in updated ==> updated[s] >= MinPrice
      invariant forall j :: 0 <= j < i ==> updated[Symbols[j]] == NextPrice(prices[Symbols[j]], changes[j])
      invariant forall j :: i <= j < |Symbols| ==> updated[Symbols[j]] == prices[Symbols[j]]
      invariant forall s :: s in updated && s !in Symbols ==> updated[s] == prices[s]
    {
      updated := updated[Symbols[i] := NextPrice(updated[Symbols[i]], changes[i])];
      i := i + 1;
    }
  }

  lemma CostIsPositive(price: real, q: int)
    requires price >= MinPrice && q >= 1
    ensures price * q as real > 0.0
    ensures CashDelta(Buy, q, price) == -(price * q as real)
    ensures CashDelta(Sell, q, price) == price * q as real
  {
  }
}
