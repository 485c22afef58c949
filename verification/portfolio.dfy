/** The value-level part of the paper-trading simulator (src/components/MarketSimulator.tsx):
    the Trade and Position records, the position-list transforms that run inside the
    state setters, and the derived P&L and return figures. Prices are exact reals. */
module Portfolio {
  import opened Wrappers

  datatype Side = Buy | Sell

  /** One executed order. The UUID is modelled as a counter value; the timestamp is left out. */
  datatype Trade = Trade(id: nat, side: Side, symbol: string, quantity: int, price: real)

  /** An open position with its average cost, last seen price and unrealized P&L. */
  datatype Position = Position(symbol: string, quantity: int, avgPrice: real, currentPrice: real, pnl: real)

  /** One chart point: the selected symbol's price (the time label is left out). */
  datatype PricePoint = PricePoint(symbol: string, price: real)

  /** Lowest price a tick can produce. */
  const MinPrice: real := 0.01
  /** Number of points the price chart keeps. */
  const HistoryLimit: nat := 50

  // ---------------------------------------------------------------------------
  // Predicates over the position list

  function SymbolsOf(ps: seq<Position>): set<string>
  {
    set i | 0 <= i < |ps| :: ps[i].symbol
  }

  lemma SymbolsOfCons(p: Position, ps: seq<Position>)
    ensures SymbolsOf([p] + ps) == {p.symbol} + SymbolsOf(ps)
  {
    var xs := [p] + ps;
    forall s | s in SymbolsOf(ps) ensures s in SymbolsOf(xs) {
      var i :| 0 <= i < |ps| && ps[i].symbol == s;
      assert xs[i + 1].symbol == s;
    }
    assert xs[0].symbol == p.symbol;
  }

  /** No two positions share a symbol. */
  predicate UniqueSymbols(ps: seq<Position>)
  {
    forall i, j :: 0 <= i < j < |ps| ==> ps[i].symbol != ps[j].symbol
  }

  /** Every position is long (strictly positive quantity). */
  predicate AllLong(ps: seq<Position>)
  {
    forall i :: 0 <= i < |ps| ==> ps[i].quantity > 0
  }

  // ---------------------------------------------------------------------------
  // The list operations used by the position updater

  /** `prev.find(p => p.symbol === sym)`: the first position in `sym`, if any. */
  function Find(ps: seq<Position>, sym: string): (r: Option<Position>)
    ensures r.None? <==> sym !in SymbolsOf(ps)
    ensures r.Some? ==> r.value in ps && r.value.symbol == sym
  {
    if |ps| == 0 then None
    else if ps[0].symbol == sym then Some(ps[0])
    else
      assert SymbolsOf(ps) == {ps[0].symbol} + SymbolsOf(ps[1..]);
      Find(ps[1..], sym)
  }

  /** `prev.filter(p => p.symbol !== sym)`. */
  function Without(ps: seq<Position>, sym: string): (r: seq<Position>)
    ensures SymbolsOf(r) == SymbolsOf(ps) - {sym}
    ensures |r| <= |ps|
  {
    if |ps| == 0 then []
    else
      assert SymbolsOf(ps) == {ps[0].symbol} + SymbolsOf(ps[1..]);
      var rest := Without(ps[1..], sym);
      if ps[0].symbol == sym then rest
      else
        SymbolsOfCons(ps[0], rest);
        [ps[0]] + rest
  }

  /** `filter` keeps exactly the entries in another symbol. */
  lemma {:induction false} WithoutKeeps(ps: seq<Position>, sym: string)
    ensures forall p :: p in Without(ps, sym) <==> p in ps && p.symbol != sym
  {
    if |ps| > 0 {
      WithoutKeeps(ps[1..], sym);
      assert ps == [ps[0]] + ps[1..];
      forall p ensures p in Without(ps, sym) <==> p in ps && p.symbol != sym {
        assert p in ps <==> p == ps[0] || p in ps[1..];
      }
    }
  }

  /** `prev.map(p => p.symbol === sym ? { ...p, quantity: q, avgPrice: avg } : p)`. */
  function Revise(ps: seq<Position>, sym: string, q: int, avg: real): seq<Position>
  {
    seq(|ps|, i requires 0 <= i < |ps| =>
      if ps[i].symbol == sym then ps[i].(quantity := q, avgPrice := avg) else ps[i])
  }

  /** Volume-weighted blend of the held lot and the bought lot. */
  function Vwap(oldAvg: real, oldQty: int, price: real, q: int): real
    requires oldQty + q != 0
  {
    (oldAvg * oldQty as real + price * q as real) / (oldQty + q) as real
  }

  /** The position updater of `executeTrade`: blend on BUY, reduce on SELL, drop a
      position whose quantity reaches exactly 0, open a position on a first BUY, and
      leave the list alone on a SELL of a symbol that is not held. */
  function ApplyTrade(ps: seq<Position>, side: Side, sym: string, q: int, price: real): seq<Position>
  {
    match Find(ps, sym)
    case Some(pos) =>
      var newQuantity := if side == Buy then pos.quantity + q else pos.quantity - q;
      if newQuantity == 0 then Without(ps, sym)
      else
        var newAvg := if side == Buy then Vwap(pos.avgPrice, pos.quantity, price, q) else pos.avgPrice;
        Revise(ps, sym, newQuantity, newAvg)
    case None =>
      if side == Buy then ps + [Position(sym, q, price, price, 0.0)] else ps
  }

  /** The P&L updater of the tick: every position is re-marked at `prices`. */
  function Mark(ps: seq<Position>, prices: map<string, real>): (r: seq<Position>)
    requires SymbolsOf(ps) <= prices.Keys
    ensures |r| == |ps| && SymbolsOf(r) == SymbolsOf(ps)
    ensures forall i :: 0 <= i < |r| ==>
      && r[i].(currentPrice := ps[i].currentPrice, pnl := ps[i].pnl) == ps[i]
      && r[i].currentPrice == prices[ps[i].symbol]
      && r[i].pnl == (r[i].currentPrice - r[i].avgPrice) * r[i].quantity as real
  {
    var r := seq(|ps|, i requires 0 <= i < |ps| =>
      assert ps[i].symbol in SymbolsOf(ps);
      MarkOne(ps[i], prices[ps[i].symbol]));
    SameSymbols(ps, r);
    r
  }

  /** `{ ...pos, currentPrice: price, pnl: (price - pos.avgPrice) * pos.quantity }`. */
  function MarkOne(pos: Position, price: real): Position
  {
    pos.(currentPrice := price, pnl := (price - pos.avgPrice) * pos.quantity as real)
  }

  /** `Math.max(0.01, price * (1 + change))`. */
  function NextPrice(price: real, change: real): (r: real)
    ensures r >= MinPrice && r >= price * (1.0 + change)
    ensures r == MinPrice || r == price * (1.0 + change)
  {
    if MinPrice < price * (1.0 + change) then price * (1.0 + change) else MinPrice
  }

  /** `[...prev.slice(-49), point]`. */
  function PushHistory(h: seq<PricePoint>, point: PricePoint): (r: seq<PricePoint>)
    ensures |r| <= HistoryLimit
    ensures |r| == if |h| < HistoryLimit then |h| + 1 else HistoryLimit
    ensures r[|r| - 1] == point
    ensures forall i :: 0 <= i < |r| - 1 ==> r[i] == h[|h| - (|r| - 1) + i]
  {
    (if |h| > HistoryLimit - 1 then h[|h| - (HistoryLimit - 1)..] else h) + [point]
  }

  // ---------------------------------------------------------------------------
  // Sums

  /** Quantity times average cost of one position. */
  function Lot(p: Position): real
  {
    p.quantity as real * p.avgPrice
  }

  /** Σ quantity × average cost. */
  function CostBasis(ps: seq<Position>): real
  {
    if |ps| == 0 then 0.0 else Lot(ps[0]) + CostBasis(ps[1..])
  }

  /** `positions.reduce((sum, pos) => sum + pos.pnl, 0)`. */
  function TotalPnL(ps: seq<Position>): real
  {
    if |ps| == 0 then 0.0 else ps[0].pnl + TotalPnL(ps[1..])
  }

  /** Value of `quantity` units at `price`. */
  function Worth(quantity: int, price: real): real
  {
    quantity as real * price
  }

  /** Σ quantity × price at `prices`. */
  function MarketValue(ps: seq<Position>, prices: map<string, real>): real
    requires SymbolsOf(ps) <= prices.Keys
  {
    if |ps| == 0 then 0.0
    else
      assert SymbolsOf(ps) == {ps[0].symbol} + SymbolsOf(ps[1..]);
      Worth(ps[0].quantity, prices[ps[0].symbol]) + MarketValue(ps[1..], prices)
  }

  /** `gain` as a percentage of `base`. */
  function Percent(gain: real, base: real): real
    requires base != 0.0
  {
    gain / base * 100.0
  }

  /** `((balance + totalPnL - initialBalance) / initialBalance) * 100`. */
  function TotalReturn(balance: real, ps: seq<Position>, initialBalance: real): real
    requires initialBalance != 0.0
  {
    Percent(balance + TotalPnL(ps) - initialBalance, initialBalance)
  }

  /** Return measured on cash plus market value of the holdings. */
  function MarketReturn(balance: real, ps: seq<Position>, prices: map<string, real>, initialBalance: real): real
    requires initialBalance != 0.0
    requires SymbolsOf(ps) <= prices.Keys
  {
    Percent(balance + MarketValue(ps, prices) - initialBalance, initialBalance)
  }

  /** Cash change of an accepted trade. */
  function CashDelta(side: Side, q: int, price: real): real
  {
    if side == Buy then -(price * q as real) else price * q as real
  }

  /** The gain a trade realizes against the average cost of the position it closes. */
  function RealizedGain(ps: seq<Position>, side: Side, sym: string, q: int, price: real): real
  {
    match Find(ps, sym)
    case Some(pos) => if side == Sell then (price - pos.avgPrice) * q as real else 0.0
    case None => 0.0
  }

  /** A trade that keeps every position long: every BUY, and a SELL of at most the held quantity. */
  predicate Covered(ps: seq<Position>, side: Side, sym: string, q: int)
  {
    side == Buy || (Find(ps, sym).Some? && q <= Find(ps, sym).value.quantity)
  }

  // ---------------------------------------------------------------------------
  // Lemmas about the list operations

  /** With one position per symbol, `find` returns the position at its index. */
  lemma {:induction false} FindUnique(ps: seq<Position>, i: int)
    requires UniqueSymbols(ps) && 0 <= i < |ps|
    ensures Find(ps, ps[i].symbol) == Some(ps[i])
  {
    if i > 0 {
      assert ps[0].symbol != ps[i].symbol;
      assert ps[1..][i - 1] == ps[i];
      FindUnique(ps[1..], i - 1);
    }
  }

  lemma {:induction false} FindWithout(ps: seq<Position>, sym: string, s: string)
    requires s != sym
    ensures Find(Without(ps, sym), s) == Find(ps, s)
  {
    if |ps| > 0 {
      FindWithout(ps[1..], sym, s);
      if ps[0].symbol != sym {
        assert ([ps[0]] + Without(ps[1..], sym))[1..] == Without(ps[1..], sym);
      }
    }
  }

  lemma ReviseTail(ps: seq<Position>, sym: string, q: int, avg: real)
    requires |ps| > 0
    ensures Revise(ps, sym, q, avg)[1..] == Revise(ps[1..], sym, q, avg)
  {
  }

  lemma {:induction false} FindRevise(ps: seq<Position>, sym: string, q: int, avg: real, s: string)
    ensures Find(Revise(ps, sym, q, avg), s) ==
      if s == sym && Find(ps, s).Some? then Some(Find(ps, s).value.(quantity := q, avgPrice := avg))
      else Find(ps, s)
  {
    if |ps| > 0 {
      ReviseTail(ps, sym, q, avg);
      FindRevise(ps[1..], sym, q, avg, s);
    }
  }

  lemma {:induction false} FindAppend(ps: seq<Position>, x: Position, s: string)
    ensures Find(ps + [x], s) ==
      if Find(ps, s).Some? then Find(ps, s) else if x.symbol == s then Some(x) else None
  {
    if |ps| > 0 {
      assert (ps + [x])[1..] == ps[1..] + [x];
      FindAppend(ps[1..], x, s);
    } else {
      assert [x][1..] == [];
    }
  }

  lemma {:induction false} UniqueWithout(ps: seq<Position>, sym: string)
    requires UniqueSymbols(ps)
    ensures UniqueSymbols(Without(ps, sym))
  {
    if |ps| > 0 {
      UniqueWithout(ps[1..], sym);
      if ps[0].symbol != sym {
        var rest := Without(ps[1..], sym);
        WithoutKeeps(ps[1..], sym);
        forall j | 0 <= j < |rest| ensures rest[j].symbol != ps[0].symbol {
          assert rest[j] in ps[1..];
          var k :| 0 <= k < |ps[1..]| && ps[1..][k] == rest[j];
          assert ps[k + 1] == rest[j];
        }
      }
    }
  }

  /** Dropping a held symbol from a list with one position per symbol removes one entry. */
  lemma {:induction false} WithoutLength(ps: seq<Position>, sym: string)
    requires UniqueSymbols(ps) && sym in SymbolsOf(ps)
    ensures |Without(ps, sym)| == |ps| - 1
  {
    assert SymbolsOf(ps) == {ps[0].symbol} + SymbolsOf(ps[1..]);
    if ps[0].symbol == sym {
      WithoutAbsent(ps[1..], sym);
    } else {
      WithoutLength(ps[1..], sym);
    }
  }

  lemma {:induction false} WithoutAbsent(ps: seq<Position>, sym: string)
    requires forall i :: 0 <= i < |ps| ==> ps[i].symbol != sym
    ensures Without(ps, sym) == ps
  {
    if |ps| > 0 {
      WithoutAbsent(ps[1..], sym);
    }
  }

  /** Two lists that agree on the symbol at every index hold the same symbols. */
  lemma SameSymbols(a: seq<Position>, b: seq<Position>)
    requires |a| == |b| && forall i :: 0 <= i < |a| ==> a[i].symbol == b[i].symbol
    ensures SymbolsOf(a) == SymbolsOf(b)
  {
    forall s | s in SymbolsOf(a) ensures s in SymbolsOf(b) {
      var i :| 0 <= i < |a| && a[i].symbol == s;
      assert b[i].symbol == s;
    }
  }

  /** A trade in `sym` leaves the position of every other symbol as it was. */
  lemma TradeLeavesOtherSymbols(ps: seq<Position>, side: Side, sym: string, q: int, price: real, s: string)
    requires s != sym
    ensures Find(ApplyTrade(ps, side, sym, q, price), s) == Find(ps, s)
  {
    match Find(ps, sym)
    case Some(pos) =>
      var newQuantity := if side == Buy then pos.quantity + q else pos.quantity - q;
      if newQuantity == 0 {
        assert ApplyTrade(ps, side, sym, q, price) == Without(ps, sym);
        FindWithout(ps, sym, s);
      } else {
        var newAvg := if side == Buy then Vwap(pos.avgPrice, pos.quantity, price, q) else pos.avgPrice;
        assert ApplyTrade(ps, side, sym, q, price) == Revise(ps, sym, newQuantity, newAvg);
        FindRevise(ps, sym, newQuantity, newAvg, s);
      }
    case None =>
      if side == Buy {
        assert ApplyTrade(ps, side, sym, q, price) == ps + [Position(sym, q, price, price, 0.0)];
        FindAppend(ps, Position(sym, q, price, price, 0.0), s);
      }
  }

  /** A trade adds no symbol other than its own, and keeps one position per symbol. */
  lemma OnePositionPerSymbol(ps: seq<Position>, side: Side, sym: string, q: int, price: real)
    ensures SymbolsOf(ApplyTrade(ps, side, sym, q, price)) <= SymbolsOf(ps) + {sym}
    ensures UniqueSymbols(ps) ==> UniqueSymbols(ApplyTrade(ps, side, sym, q, price))
  {
    var r := ApplyTrade(ps, side, sym, q, price);
    match Find(ps, sym)
    case Some(pos) =>
      var newQuantity := if side == Buy then pos.quantity + q else pos.quantity - q;
      if newQuantity == 0 {
        if UniqueSymbols(ps) { UniqueWithout(ps, sym); }
      } else {
        SameSymbols(ps, r);
      }
    case None =>
      if side == Buy {
        var x := Position(sym, q, price, price, 0.0);
        SymbolsOfAppend(ps, x);
        if UniqueSymbols(ps) { UniqueAppend(ps, x); }
      }
  }

  lemma UniqueAppend(ps: seq<Position>, x: Position)
    requires UniqueSymbols(ps) && x.symbol !in SymbolsOf(ps)
    ensures UniqueSymbols(ps + [x])
  {
    forall i | 0 <= i < |ps| ensures ps[i].symbol != x.symbol {
      assert ps[i].symbol in SymbolsOf(ps);
    }
  }

  lemma SymbolsOfAppend(ps: seq<Position>, x: Position)
    ensures SymbolsOf(ps + [x]) == SymbolsOf(ps) + {x.symbol}
  {
    var r := ps + [x];
    forall s | s in SymbolsOf(ps) ensures s in SymbolsOf(r) {
      var i :| 0 <= i < |ps| && ps[i].symbol == s;
      assert r[i].symbol == s;
    }
    assert r[|ps|].symbol == x.symbol;
  }

  /** BUY: a first purchase appends a fresh position priced at the trade; a purchase on a
      held symbol adds the quantity and blends the average cost by volume, in place. */
  lemma BuyOpensOrBlends(ps: seq<Position>, sym: string, q: int, price: real)
    requires UniqueSymbols(ps)
    ensures Find(ps, sym).None? ==>
      ApplyTrade(ps, Buy, sym, q, price) == ps + [Position(sym, q, price, price, 0.0)]
    ensures Find(ps, sym).Some? && Find(ps, sym).value.quantity + q != 0 ==>
      var pos := Find(ps, sym).value;
      && |ApplyTrade(ps, Buy, sym, q, price)| == |ps|
      && Find(ApplyTrade(ps, Buy, sym, q, price), sym) ==
         Some(pos.(quantity := pos.quantity + q, avgPrice := Vwap(pos.avgPrice, pos.quantity, price, q)))
    ensures Find(ps, sym).Some? && Find(ps, sym).value.quantity + q == 0 ==>
      && sym !in SymbolsOf(ApplyTrade(ps, Buy, sym, q, price))
      && |ApplyTrade(ps, Buy, sym, q, price)| == |ps| - 1
  {
    match Find(ps, sym)
    case Some(pos) =>
      if pos.quantity + q == 0 {
        BuyCloses(ps, sym, q, price, pos);
      } else {
        BuyBlends(ps, sym, q, price, pos);
      }
    case None =>
      BuyOpens(ps, sym, q, price);
  }

  lemma BuyOpens(ps: seq<Position>, sym: string, q: int, price: real)
    requires Find(ps, sym).None?
    ensures ApplyTrade(ps, Buy, sym, q, price) == ps + [Position(sym, q, price, price, 0.0)]
  {
  }

  lemma BuyBlends(ps: seq<Position>, sym: string, q: int, price: real, pos: Position)
    requires UniqueSymbols(ps) && Find(ps, sym) == Some(pos) && pos.quantity + q != 0
    ensures ApplyTrade(ps, Buy, sym, q, price)
      == Revise(ps, sym, pos.quantity + q, Vwap(pos.avgPrice, pos.quantity, price, q))
    ensures |ApplyTrade(ps, Buy, sym, q, price)| == |ps|
    ensures Find(ApplyTrade(ps, Buy, sym, q, price), sym) ==
      Some(pos.(quantity := pos.quantity + q, avgPrice := Vwap(pos.avgPrice, pos.quantity, price, q)))
  {
    FindRevise(ps, sym, pos.quantity + q, Vwap(pos.avgPrice, pos.quantity, price, q), sym);
  }

  lemma BuyCloses(ps: seq<Position>, sym: string, q: int, price: real, pos: Position)
    requires UniqueSymbols(ps) && Find(ps, sym) == Some(pos) && pos.quantity + q == 0
    ensures ApplyTrade(ps, Buy, sym, q, price) == Without(ps, sym)
    ensures sym !in SymbolsOf(ApplyTrade(ps, Buy, sym, q, price))
    ensures |ApplyTrade(ps, Buy, sym, q, price)| == |ps| - 1
  {
    WithoutLength(ps, sym);
  }

  /** SELL: the held quantity drops by `q` and the average cost is untouched; the position
      disappears exactly when the new quantity is 0, so an oversell leaves a negative
      quantity behind; a SELL of a symbol that is not held leaves the list as it was. */
  lemma SellKeepsBasis(ps: seq<Position>, sym: string, q: int, price: real)
    requires UniqueSymbols(ps)
    ensures Find(ps, sym).None? ==> ApplyTrade(ps, Sell, sym, q, price) == ps
    ensures Find(ps, sym).Some? ==>
      var pos := Find(ps, sym).value;
      var r := ApplyTrade(ps, Sell, sym, q, price);
      && (Find(r, sym).None? <==> pos.quantity == q)
      && (pos.quantity != q ==> |r| == |ps| && Find(r, sym) == Some(pos.(quantity := pos.quantity - q)))
      && (pos.quantity == q ==> |r| == |ps| - 1)
  {
    match Find(ps, sym)
    case Some(pos) =>
      if pos.quantity == q {
        SellCloses(ps, sym, q, price, pos);
      } else {
        SellReduces(ps, sym, q, price, pos);
      }
    case None =>
  }

  lemma SellReduces(ps: seq<Position>, sym: string, q: int, price: real, pos: Position)
    requires Find(ps, sym) == Some(pos) && pos.quantity != q
    ensures ApplyTrade(ps, Sell, sym, q, price) == Revise(ps, sym, pos.quantity - q, pos.avgPrice)
    ensures Find(ApplyTrade(ps, Sell, sym, q, price), sym) == Some(pos.(quantity := pos.quantity - q))
  {
    FindRevise(ps, sym, pos.quantity - q, pos.avgPrice, sym);
  }

  lemma SellCloses(ps: seq<Position>, sym: string, q: int, price: real, pos: Position)
    requires UniqueSymbols(ps) && Find(ps, sym) == Some(pos) && pos.quantity == q
    ensures ApplyTrade(ps, Sell, sym, q, price) == Without(ps, sym)
    ensures Find(ApplyTrade(ps, Sell, sym, q, price), sym).None?
    ensures |ApplyTrade(ps, Sell, sym, q, price)| == |ps| - 1
  {
    WithoutLength(ps, sym);
  }

  /** The blended lot costs what the two lots it replaces cost. */
  lemma VwapConservesCost(oldAvg: real, oldQty: int, price: real, q: int)
    requires oldQty + q != 0
    ensures (oldQty + q) as real * Vwap(oldAvg, oldQty, price, q) == oldQty as real * oldAvg + price * q as real
  {
  }

  /** Blending two long lots gives an average cost between the two prices. */
  lemma VwapWithin(oldAvg: real, oldQty: int, price: real, q: int)
    requires oldQty > 0 && q > 0
    ensures oldAvg <= price ==> oldAvg <= Vwap(oldAvg, oldQty, price, q) <= price
    ensures price <= oldAvg ==> price <= Vwap(oldAvg, oldQty, price, q) <= oldAvg
  {
    var n := (oldQty + q) as real;
    var v := Vwap(oldAvg, oldQty, price, q);
    VwapConservesCost(oldAvg, oldQty, price, q);
    assert n * (v - oldAvg) == (price - oldAvg) * q as real;
    assert n * (v - price) == (oldAvg - price) * oldQty as real;
  }

  /** BUY 10 at 100 then BUY 10 at 120 gives 20 at an average of 110; SELL 5 then leaves
      15 at the same average. */
  lemma BlendThenSellExample()
    ensures ApplyTrade(ApplyTrade([], Buy, "AAPL", 10, 100.0), Buy, "AAPL", 10, 120.0)
      == [Position("AAPL", 20, 110.0, 100.0, 0.0)]
    ensures ApplyTrade([Position("AAPL", 20, 110.0, 100.0, 0.0)], Sell, "AAPL", 5, 150.0)
      == [Position("AAPL", 15, 110.0, 100.0, 0.0)]
  {
    var one := ApplyTrade([], Buy, "AAPL", 10, 100.0);
    assert one == [Position("AAPL", 10, 100.0, 100.0, 0.0)];
    assert Find(one, "AAPL") == Some(one[0]);
    assert Vwap(100.0, 10, 120.0, 10) == 110.0;
    var two := [Position("AAPL", 20, 110.0, 100.0, 0.0)];
    assert Find(two, "AAPL") == Some(two[0]);
  }

  // ---------------------------------------------------------------------------
  // Accounting

  lemma {:induction false} CostBasisAppend(ps: seq<Position>, x: Position)
    ensures CostBasis(ps + [x]) == CostBasis(ps) + Lot(x)
  {
    if |ps| == 0 {
      assert [x][1..] == [];
    } else {
      assert (ps + [x])[1..] == ps[1..] + [x];
      CostBasisAppend(ps[1..], x);
    }
  }

  lemma {:induction false} CostBasisWithout(ps: seq<Position>, sym: string)
    requires UniqueSymbols(ps) && Find(ps, sym).Some?
    ensures CostBasis(Without(ps, sym)) == CostBasis(ps) - Lot(Find(ps, sym).value)
  {
    if ps[0].symbol == sym {
      WithoutAbsent(ps[1..], sym);
    } else {
      assert ([ps[0]] + Without(ps[1..], sym))[1..] == Without(ps[1..], sym);
      CostBasisWithout(ps[1..], sym);
    }
  }

  lemma {:induction false} CostBasisRevise(ps: seq<Position>, sym: string, q: int, avg: real)
    requires UniqueSymbols(ps) && Find(ps, sym).Some?
    ensures CostBasis(Revise(ps, sym, q, avg)) == CostBasis(ps) - Lot(Find(ps, sym).value) + q as real * avg
  {
    ReviseTail(ps, sym, q, avg);
    if ps[0].symbol == sym {
      ReviseAbsent(ps[1..], sym, q, avg);
    } else {
      CostBasisRevise(ps[1..], sym, q, avg);
    }
  }

  lemma ReviseAbsent(ps: seq<Position>, sym: string, q: int, avg: real)
    requires forall i :: 0 <= i < |ps| ==> ps[i].symbol != sym
    ensures Revise(ps, sym, q, avg) == ps
  {
  }

  /** One step of the accounting identity: for a BUY, or a SELL of no more than is held,
      on a list of long positions, the cash change plus the change in cost basis is the
      gain realized against the average cost, and every position stays long. */
  lemma TradeAccounting(ps: seq<Position>, side: Side, sym: string, q: int, price: real)
    requires UniqueSymbols(ps) && AllLong(ps) && q >= 1 && Covered(ps, side, sym, q)
    ensures AllLong(ApplyTrade(ps, side, sym, q, price))
    ensures CashDelta(side, q, price) + CostBasis(ApplyTrade(ps, side, sym, q, price))
      == CostBasis(ps) + RealizedGain(ps, side, sym, q, price)
  {
    match Find(ps, sym)
    case Some(pos) =>
      assert pos.quantity > 0 by {
        var k :| 0 <= k < |ps| && ps[k] == pos;
      }
      if side == Buy {
        BuyHeldAccounting(ps, sym, q, price, pos);
      } else if pos.quantity == q {
        CloseAccounting(ps, sym, q, price, pos);
      } else {
        ReduceAccounting(ps, sym, q, price, pos);
      }
    case None =>
      OpenAccounting(ps, sym, q, price);
  }

  lemma OpenAccounting(ps: seq<Position>, sym: string, q: int, price: real)
    requires AllLong(ps) && q >= 1 && Find(ps, sym).None?
    ensures AllLong(ApplyTrade(ps, Buy, sym, q, price))
    ensures CashDelta(Buy, q, price) + CostBasis(ApplyTrade(ps, Buy, sym, q, price))
      == CostBasis(ps) + RealizedGain(ps, Buy, sym, q, price)
  {
    var x := Position(sym, q, price, price, 0.0);
    var r := ApplyTrade(ps, Buy, sym, q, price);
    assert r == ps + [x] by {
      BuyOpens(ps, sym, q, price);
    }
    assert AllLong(r);
    assert CostBasis(r) == CostBasis(ps) + q as real * price by {
      CostBasisAppend(ps, x);
    }
    assert RealizedGain(ps, Buy, sym, q, price) == 0.0;
    OpenArithmetic(CostBasis(ps), price, q);
  }

  lemma OpenArithmetic(before: real, price: real, q: int)
    ensures -(price * q as real) + (before + q as real * price) == before + 0.0
  {
  }

  lemma BuyHeldAccounting(ps: seq<Position>, sym: string, q: int, price: real, pos: Position)
    requires UniqueSymbols(ps) && AllLong(ps) && q >= 1
    requires Find(ps, sym) == Some(pos) && pos.quantity > 0
    ensures AllLong(ApplyTrade(ps, Buy, sym, q, price))
    ensures CashDelta(Buy, q, price) + CostBasis(ApplyTrade(ps, Buy, sym, q, price))
      == CostBasis(ps) + RealizedGain(ps, Buy, sym, q, price)
  {
    BlendStaysLong(ps, sym, q, price, pos);
    BlendAccounts(ps, sym, q, price, pos);
  }

  lemma BlendStaysLong(ps: seq<Position>, sym: string, q: int, price: real, pos: Position)
    requires UniqueSymbols(ps) && AllLong(ps) && q >= 1
    requires Find(ps, sym) == Some(pos) && pos.quantity > 0
    ensures AllLong(ApplyTrade(ps, Buy, sym, q, price))
  {
    BuyBlends(ps, sym, q, price, pos);
    ReviseStaysLong(ps, sym, pos.quantity + q, Vwap(pos.avgPrice, pos.quantity, price, q));
  }

  lemma BlendAccounts(ps: seq<Position>, sym: string, q: int, price: real, pos: Position)
    requires UniqueSymbols(ps) && q >= 1
    requires Find(ps, sym) == Some(pos) && pos.quantity > 0
    ensures CostBasis(ApplyTrade(ps, Buy, sym, q, price)) == CostBasis(ps) + price * q as real
  {
    BuyBlends(ps, sym, q, price, pos);
    BlendCostAtVwap(ps, sym, q, price, pos);
  }

  lemma BlendCostAtVwap(ps: seq<Position>, sym: string, q: int, price: real, pos: Position)
    requires UniqueSymbols(ps) && Find(ps, sym) == Some(pos) && pos.quantity + q != 0
    ensures CostBasis(Revise(ps, sym, pos.quantity + q, Vwap(pos.avgPrice, pos.quantity, price, q)))
      == CostBasis(ps) + price * q as real
  {
    VwapConservesCost(pos.avgPrice, pos.quantity, price, q);
    BlendCost(ps, sym, q, price, pos, Vwap(pos.avgPrice, pos.quantity, price, q));
  }

  /** Blending a bought lot into a held position at an average cost that keeps the total
      cost raises the cost basis by what the lot cost. */
  lemma BlendCost(ps: seq<Position>, sym: string, q: int, price: real, pos: Position, newAvg: real)
    requires UniqueSymbols(ps) && Find(ps, sym) == Some(pos)
    requires (pos.quantity + q) as real * newAvg == pos.quantity as real * pos.avgPrice + price * q as real
    ensures CostBasis(Revise(ps, sym, pos.quantity + q, newAvg)) == CostBasis(ps) + price * q as real
  {
    CostBasisRevise(ps, sym, pos.quantity + q, newAvg);
  }

  lemma ReviseStaysLong(ps: seq<Position>, sym: string, q: int, avg: real)
    requires AllLong(ps) && q > 0
    ensures AllLong(Revise(ps, sym, q, avg))
  {
  }


  lemma CloseAccounting(ps: seq<Position>, sym: string, q: int, price: real, pos: Position)
    requires UniqueSymbols(ps) && AllLong(ps)
    requires Find(ps, sym) == Some(pos) && pos.quantity == q
    ensures AllLong(ApplyTrade(ps, Sell, sym, q, price))
    ensures CashDelta(Sell, q, price) + CostBasis(ApplyTrade(ps, Sell, sym, q, price))
      == CostBasis(ps) + RealizedGain(ps, Sell, sym, q, price)
  {
    var r := Without(ps, sym);
    CloseCost(ps, sym, q, price, pos);
    SellCloses(ps, sym, q, price, pos);
    WithoutKeeps(ps, sym);
    forall i | 0 <= i < |r| ensures r[i].quantity > 0 {
      assert r[i] in ps;
    }
  }

  lemma CloseCost(ps: seq<Position>, sym: string, q: int, price: real, pos: Position)
    requires UniqueSymbols(ps)
    requires Find(ps, sym) == Some(pos) && pos.quantity == q
    ensures CashDelta(Sell, q, price) + CostBasis(Without(ps, sym))
      == CostBasis(ps) + RealizedGain(ps, Sell, sym, q, price)
  {
    WithoutCost(ps, sym, pos);
    SaleIdentity(ps, sym, q, price, pos, CostBasis(Without(ps, sym)));
  }

  lemma WithoutCost(ps: seq<Position>, sym: string, pos: Position)
    requires UniqueSymbols(ps) && Find(ps, sym) == Some(pos)
    ensures CostBasis(Without(ps, sym)) == CostBasis(ps) - pos.quantity as real * pos.avgPrice
  {
    CostBasisWithout(ps, sym);
  }

  lemma ReduceAccounting(ps: seq<Position>, sym: string, q: int, price: real, pos: Position)
    requires UniqueSymbols(ps) && AllLong(ps) && q >= 1
    requires Find(ps, sym) == Some(pos) && pos.quantity > q
    ensures AllLong(ApplyTrade(ps, Sell, sym, q, price))
    ensures CashDelta(Sell, q, price) + CostBasis(ApplyTrade(ps, Sell, sym, q, price))
      == CostBasis(ps) + RealizedGain(ps, Sell, sym, q, price)
  {
    ReduceCost(ps, sym, q, price, pos);
    SellReduces(ps, sym, q, price, pos);
  }

  lemma ReduceCost(ps: seq<Position>, sym: string, q: int, price: real, pos: Position)
    requires UniqueSymbols(ps)
    requires Find(ps, sym) == Some(pos)
    ensures CashDelta(Sell, q, price) + CostBasis(Revise(ps, sym, pos.quantity - q, pos.avgPrice))
      == CostBasis(ps) + RealizedGain(ps, Sell, sym, q, price)
  {
    ReviseDownCost(ps, sym, q, pos);
    SaleIdentity(ps, sym, q, price, pos, CostBasis(Revise(ps, sym, pos.quantity - q, pos.avgPrice)));
  }

  lemma ReviseDownCost(ps: seq<Position>, sym: string, q: int, pos: Position)
    requires UniqueSymbols(ps) && Find(ps, sym) == Some(pos)
    ensures CostBasis(Revise(ps, sym, pos.quantity - q, pos.avgPrice)) == CostBasis(ps) - q as real * pos.avgPrice
  {
    CostBasisRevise(ps, sym, pos.quantity - q, pos.avgPrice);
    LotSplit(pos.avgPrice, pos.quantity, q);
  }

  /** Selling `q` of a held position: proceeds plus the reduced cost basis is the old cost
      basis plus the gain over average cost. */
  lemma SaleIdentity(ps: seq<Position>, sym: string, q: int, price: real, pos: Position, after: real)
    requires Find(ps, sym) == Some(pos)
    requires after == CostBasis(ps) - q as real * pos.avgPrice
    ensures CashDelta(Sell, q, price) + after == CostBasis(ps) + RealizedGain(ps, Sell, sym, q, price)
  {
  }

  lemma LotSplit(avg: real, n: int, q: int)
    ensures n as real * avg - (n - q) as real * avg == q as real * avg
  {
  }

  lemma MarkTail(ps: seq<Position>, prices: map<string, real>)
    requires |ps| > 0 && SymbolsOf(ps) <= prices.Keys
    ensures SymbolsOf(ps[1..]) <= prices.Keys
    ensures Mark(ps, prices)[1..] == Mark(ps[1..], prices)
  {
    assert SymbolsOf(ps) == {ps[0].symbol} + SymbolsOf(ps[1..]);
    var a, b := Mark(ps, prices)[1..], Mark(ps[1..], prices);
    forall i | 0 <= i < |b| ensures a[i] == b[i] {
      assert ps[1..][i] == ps[i + 1];
    }
  }

  /** Re-marking one position: its lot is unchanged and its P&L is value less lot. */
  lemma MarkOneAccounts(pos: Position, price: real)
    ensures Lot(MarkOne(pos, price)) == Lot(pos)
    ensures MarkOne(pos, price).pnl == Worth(pos.quantity, price) - Lot(pos)
  {
  }

  /** Re-marking leaves the cost basis alone, and afterwards the summed P&L is the market
      value of the holdings less their cost basis. */
  lemma {:induction false} MarkAccounts(ps: seq<Position>, prices: map<string, real>)
    requires SymbolsOf(ps) <= prices.Keys
    ensures CostBasis(Mark(ps, prices)) == CostBasis(ps)
    ensures TotalPnL(Mark(ps, prices)) == MarketValue(ps, prices) - CostBasis(ps)
  {
    if |ps| > 0 {
      MarkTail(ps, prices);
      MarkAccounts(ps[1..], prices);
      assert ps[0].symbol in SymbolsOf(ps);
      MarkOneAccounts(ps[0], prices[ps[0].symbol]);
    }
  }

  /** The displayed return adds unrealized P&L, not market value, to cash: measured on
      freshly marked positions it falls short of the return on cash plus market value by
      exactly the cost basis of the holdings, as a percentage of the initial balance. */
  lemma TotalReturnOmitsCostBasis(balance: real, ps: seq<Position>, prices: map<string, real>, initialBalance: real)
    requires initialBalance != 0.0 && SymbolsOf(ps) <= prices.Keys
    ensures TotalReturn(balance, Mark(ps, prices), initialBalance)
      == MarketReturn(balance, ps, prices, initialBalance) - Percent(CostBasis(ps), initialBalance)
  {
    MarkAccounts(ps, prices);
    ReturnGap(balance, Mark(ps, prices), ps, prices, initialBalance);
  }

  lemma ReturnGap(balance: real, marked: seq<Position>, ps: seq<Position>, prices: map<string, real>, initialBalance: real)
    requires initialBalance != 0.0 && SymbolsOf(ps) <= prices.Keys
    requires TotalPnL(marked) == MarketValue(ps, prices) - CostBasis(ps)
    ensures TotalReturn(balance, marked, initialBalance)
      == MarketReturn(balance, ps, prices, initialBalance) - Percent(CostBasis(ps), initialBalance)
  {
    var x := balance + MarketValue(ps, prices) - initialBalance;
    assert balance + TotalPnL(marked) - initialBalance == x - CostBasis(ps);
    PercentSplits(x, CostBasis(ps), initialBalance);
  }

  // ---------------------------------------------------------------------------
  // The return on cash plus market value

  lemma {:induction false} MarketValueAppend(ps: seq<Position>, x: Position, prices: map<string, real>)
    requires SymbolsOf(ps) <= prices.Keys && x.symbol in prices
    ensures SymbolsOf(ps + [x]) <= prices.Keys
    ensures MarketValue(ps + [x], prices) == MarketValue(ps, prices) + Worth(x.quantity, prices[x.symbol])
  {
    SymbolsOfAppend(ps, x);
    if |ps| == 0 {
      assert [x][1..] == [];
    } else {
      assert SymbolsOf(ps) == {ps[0].symbol} + SymbolsOf(ps[1..]);
      assert (ps + [x])[1..] == ps[1..] + [x];
      MarketValueAppend(ps[1..], x, prices);
    }
  }

  lemma {:induction false} MarketValueWithout(ps: seq<Position>, sym: string, prices: map<string, real>, pos: Position)
    requires UniqueSymbols(ps) && SymbolsOf(ps) <= prices.Keys && Find(ps, sym) == Some(pos)
    ensures sym in prices
    ensures MarketValue(Without(ps, sym), prices) == MarketValue(ps, prices) - Worth(pos.quantity, prices[sym])
  {
    assert SymbolsOf(ps) == {ps[0].symbol} + SymbolsOf(ps[1..]);
    if ps[0].symbol == sym {
      WithoutAbsent(ps[1..], sym);
    } else {
      assert ([ps[0]] + Without(ps[1..], sym))[1..] == Without(ps[1..], sym);
      MarketValueWithout(ps[1..], sym, prices, pos);
    }
  }

  lemma {:induction false} MarketValueRevise(ps: seq<Position>, sym: string, q: int, avg: real,
                                             prices: map<string, real>, pos: Position)
    requires UniqueSymbols(ps) && SymbolsOf(ps) <= prices.Keys && Find(ps, sym) == Some(pos)
    ensures sym in prices && SymbolsOf(Revise(ps, sym, q, avg)) == SymbolsOf(ps)
    ensures MarketValue(Revise(ps, sym, q, avg), prices)
      == MarketValue(ps, prices) - Worth(pos.quantity, prices[sym]) + Worth(q, prices[sym])
  {
    var r := Revise(ps, sym, q, avg);
    SameSymbols(ps, r);
    ReviseTail(ps, sym, q, avg);
    MarketValueCons(ps, prices);
    MarketValueCons(r, prices);
    if ps[0].symbol == sym {
      ReviseAbsent(ps[1..], sym, q, avg);
    } else {
      MarketValueRevise(ps[1..], sym, q, avg, prices, pos);
    }
  }

  lemma MarketValueCons(ps: seq<Position>, prices: map<string, real>)
    requires |ps| > 0 && SymbolsOf(ps) <= prices.Keys
    ensures ps[0].symbol in prices && SymbolsOf(ps[1..]) <= prices.Keys
    ensures MarketValue(ps, prices) == Worth(ps[0].quantity, prices[ps[0].symbol]) + MarketValue(ps[1..], prices)
  {
    assert SymbolsOf(ps) == {ps[0].symbol} + SymbolsOf(ps[1..]);
  }

  /** A trade at the quoted price of a symbol that is bought or held moves as much cash as
      it moves market value, whatever the quantity: cash plus market value is kept. */
  lemma TradeKeepsWorth(ps: seq<Position>, side: Side, sym: string, q: int, prices: map<string, real>)
    requires UniqueSymbols(ps) && SymbolsOf(ps) <= prices.Keys && sym in prices
    requires side == Buy || Find(ps, sym).Some?
    ensures SymbolsOf(ApplyTrade(ps, side, sym, q, prices[sym])) <= prices.Keys
    ensures CashDelta(side, q, prices[sym]) + MarketValue(ApplyTrade(ps, side, sym, q, prices[sym]), prices)
      == MarketValue(ps, prices)
  {
    var price := prices[sym];
    match Find(ps, sym)
    case Some(pos) =>
      var n := if side == Buy then pos.quantity + q else pos.quantity - q;
      if n == 0 {
        if side == Buy {
          BuyCloses(ps, sym, q, price, pos);
        } else {
          SellCloses(ps, sym, q, price, pos);
        }
        WithoutKeepsWorth(ps, side, sym, q, prices, pos);
      } else if side == Buy {
        BuyBlends(ps, sym, q, price, pos);
        ReviseKeepsWorth(ps, side, sym, q, prices, pos, n, Vwap(pos.avgPrice, pos.quantity, price, q));
      } else {
        SellReduces(ps, sym, q, price, pos);
        ReviseKeepsWorth(ps, side, sym, q, prices, pos, n, pos.avgPrice);
      }
    case None =>
      BuyOpens(ps, sym, q, price);
      AppendKeepsWorth(ps, sym, q, prices);
  }

  lemma AppendKeepsWorth(ps: seq<Position>, sym: string, q: int, prices: map<string, real>)
    requires SymbolsOf(ps) <= prices.Keys && sym in prices
    ensures SymbolsOf(ps + [Position(sym, q, prices[sym], prices[sym], 0.0)]) <= prices.Keys
    ensures CashDelta(Buy, q, prices[sym]) + MarketValue(ps + [Position(sym, q, prices[sym], prices[sym], 0.0)], prices)
      == MarketValue(ps, prices)
  {
    MarketValueAppend(ps, Position(sym, q, prices[sym], prices[sym], 0.0), prices);
    WorthShift(MarketValue(ps, prices), MarketValue(ps + [Position(sym, q, prices[sym], prices[sym], 0.0)], prices),
      0, q, Buy, q, prices[sym]);
  }

  lemma WithoutKeepsWorth(ps: seq<Position>, side: Side, sym: string, q: int, prices: map<string, real>, pos: Position)
    requires UniqueSymbols(ps) && SymbolsOf(ps) <= prices.Keys && sym in prices
    requires Find(ps, sym) == Some(pos) && (if side == Buy then pos.quantity + q else pos.quantity - q) == 0
    ensures SymbolsOf(Without(ps, sym)) <= prices.Keys
    ensures CashDelta(side, q, prices[sym]) + MarketValue(Without(ps, sym), prices) == MarketValue(ps, prices)
  {
    MarketValueWithout(ps, sym, prices, pos);
    var total, after := MarketValue(ps, prices), MarketValue(Without(ps, sym), prices);
    WorthShift(total, after, pos.quantity, 0, side, q, prices[sym]);
  }

  lemma ReviseKeepsWorth(ps: seq<Position>, side: Side, sym: string, q: int, prices: map<string, real>,
                         pos: Position, n: int, avg: real)
    requires UniqueSymbols(ps) && SymbolsOf(ps) <= prices.Keys && sym in prices
    requires Find(ps, sym) == Some(pos) && n == (if side == Buy then pos.quantity + q else pos.quantity - q)
    ensures SymbolsOf(Revise(ps, sym, n, avg)) <= prices.Keys
    ensures CashDelta(side, q, prices[sym]) + MarketValue(Revise(ps, sym, n, avg), prices) == MarketValue(ps, prices)
  {
    MarketValueRevise(ps, sym, n, avg, prices, pos);
    var total, after := MarketValue(ps, prices), MarketValue(Revise(ps, sym, n, avg), prices);
    WorthShift(total, after, pos.quantity, n, side, q, prices[sym]);
  }

  /** The arithmetic of one trade: the held quantity moves from `held` to `n` by `q`. */
  lemma WorthShift(total: real, after: real, held: int, n: int, side: Side, q: int, price: real)
    requires n == if side == Buy then held + q else held - q
    requires after == total - Worth(held, price) + Worth(n, price)
    ensures CashDelta(side, q, price) + after == total
  {
  }

  /** Return on cash plus the market value of the holdings: unchanged by any trade at the
      quoted price of a symbol that is bought or held. */
  lemma MarketReturnKeptByTrade(balance: real, ps: seq<Position>, side: Side, sym: string, q: int,
                                prices: map<string, real>, initialBalance: real)
    requires initialBalance != 0.0
    requires UniqueSymbols(ps) && SymbolsOf(ps) <= prices.Keys && sym in prices
    requires side == Buy || Find(ps, sym).Some?
    ensures SymbolsOf(ApplyTrade(ps, side, sym, q, prices[sym])) <= prices.Keys
    ensures MarketReturn(balance + CashDelta(side, q, prices[sym]), ApplyTrade(ps, side, sym, q, prices[sym]), prices, initialBalance)
      == MarketReturn(balance, ps, prices, initialBalance)
  {
    TradeKeepsWorth(ps, side, sym, q, prices);
  }

  /** The displayed return right after a first purchase: BUY 10 AAPL at its opening quote
      of 150.25 from 10,000 of cash shows -15.025%, although nothing has been gained or
      lost and the return on cash plus market value is 0%. */
  lemma ReturnAfterFirstBuy()
    ensures TotalReturn(10000.0 + CashDelta(Buy, 10, 150.25), ApplyTrade([], Buy, "AAPL", 10, 150.25), 10000.0)
      == -15.025
    ensures MarketReturn(10000.0 + CashDelta(Buy, 10, 150.25), ApplyTrade([], Buy, "AAPL", 10, 150.25),
                         map["AAPL" := 150.25], 10000.0) == 0.0
  {
    var ps := ApplyTrade([], Buy, "AAPL", 10, 150.25);
    BuyOpens([], "AAPL", 10, 150.25);
    assert ps == [Position("AAPL", 10, 150.25, 150.25, 0.0)];
    assert SymbolsOf(ps) == {"AAPL"} by { assert ps[0].symbol == "AAPL"; }
    assert ps[1..] == [];
  }

  lemma PercentSplits(x: real, c: real, d: real)
    requires d != 0.0
    ensures Percent(x - c, d) == Percent(x, d) - Percent(c, d)
  {
    assert (x - c) / d == x / d - c / d;
  }
}
