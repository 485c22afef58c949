# Paper-trading simulator, risk panel and strategy editor in Dafny

This project models the three stateful components of a trading-education web app and proves
properties of the model.

- **Market simulator.** A paper-trading session holds a cash balance, a list of open
  positions and a trade log. It runs against five quoted symbols that move on a one-second
  tick while the session runs. Orders are BUY or SELL at the selected symbol's current quote.
- **Risk manager.** An editable list of risk rules, a position-size calculator and a
  classifier that grades portfolio metrics as Low, Medium or High.
- **Strategy builder.** A saved list of strategies, plus one working copy that the editor's
  fields change.

Layout:

- `portfolio.dfy` (module `Portfolio`): the Trade and Position records. It holds the
  position-list transforms that run inside the simulator's state setters, the tick's
  re-marking, and the P&L and return figures.
- `market_simulator.dfy` (module `MarketSimulator`): the component state as a class
  `Simulator`, with one method per command.
- `risk_manager.dfy` (module `RiskManager`) and `strategy_builder.dfy` (module
  `StrategyBuilder`): the other two components. Each one's list-update function is a
  value-level function, and its state is a class.
- `wrappers.dfy`: `Option`.

Prices and money are exact reals.

Points where the component's code does less than a reader of its screens might expect, and
which the model keeps as the code has them:

- A SELL is never checked against holdings. A SELL of an unheld symbol credits cash and leaves
  the positions alone. An oversell leaves a negative quantity, and only a quantity of exactly
  0 removes a position.
- The tick marks positions and records the chart point at the prices from before the tick's
  own move, because those are the prices the interval's closure captured.
- The "Total Return" card (src/components/MarketSimulator.tsx:195) adds unrealized P&L, not
  market value, to cash; see Findings.

The accounting identity holds along every sequence of commands whose sells never exceed the
held quantity. That identity is: cash plus the cost basis of the holdings equals the initial
balance plus the realized gain.

## Model

| member | source | states |
|---|---|---|
| MarketSimulator.Simulator.constructor | src/components/MarketSimulator.tsx:30-45 | The session opens paused, with 10,000 of cash, AAPL selected, quantity 10, the five opening quotes and nothing traded; the state is valid and reconciled |
| MarketSimulator.Simulator.ExecuteTrade | src/components/MarketSimulator.tsx:87-146 | A BUY is refused with no effect exactly when cash is below quote × quantity; a SELL is never refused. On acceptance: cash moves by the trade value, one record with a fresh, larger id is prepended, and the positions become `ApplyTrade` of the old ones. Nothing else changes. The state stays valid (non-negative cash, one position per quoted symbol, strictly ordered unique ids). A BUY or covered SELL keeps the accounting identity. A trade on a bought or held symbol keeps the return on cash plus market value |
| MarketSimulator.Simulator.Fill | src/components/MarketSimulator.tsx:96-145 | The accepted half of a trade: cash, log, positions and realized gain as above, at the snapshot price |
| MarketSimulator.Simulator.Tick | src/components/MarketSimulator.tsx:54-78 | Every tradable symbol's quote becomes `max(0.01, p·(1+change))` and no other quote changes. The chart gains the selected symbol's pre-move quote and keeps at most 50 points, the newest last. Every position is re-marked at the pre-move quotes. Cash, log and the accounting identity are kept |
| MarketSimulator.Simulator.Reset | src/components/MarketSimulator.tsx:148-154 | Cash back to the initial balance; trades, positions and chart emptied; paused; quotes and selection kept. Both return figures read 0 |
| MarketSimulator.Simulator.ToggleSimulation | src/components/MarketSimulator.tsx:220 | Start/Pause flips the running flag and keeps the state valid |
| MarketSimulator.Simulator.SelectSymbol | src/components/MarketSimulator.tsx:235-244 | Selecting any offered symbol keeps the state valid |
| MarketSimulator.Simulator.SetQuantity | src/components/MarketSimulator.tsx:251-254 | A positive quantity is stored and the state stays valid |
| MarketSimulator.Simulator.SubmitOrder | src/components/MarketSimulator.tsx:264-277 | While paused every order is rejected (SessionNotActive). A BUY above the cash is rejected (InsufficientFunds). A rejected order changes nothing. An accepted order returns the record it prepended and applies the trade |
| MarketSimulator.LogPrepend | src/components/MarketSimulator.tsx:101-110 | Prepending a record under the next id keeps ids strictly decreasing and below the next id |
| MarketSimulator.BookAfterTrade | src/components/MarketSimulator.tsx:113-145 | A trade on a quoted symbol keeps one position per symbol, all in quoted symbols |
| MarketSimulator.ReconcileTrade | src/components/MarketSimulator.tsx:96-145 | A covered trade carries the accounting identity from one state to the next |
| Portfolio.Find | src/components/MarketSimulator.tsx:114 | `find` returns nothing exactly when the symbol is not held, and otherwise a listed position in that symbol |
| Portfolio.FindUnique | src/components/MarketSimulator.tsx:114 | With one position per symbol, `find` on a listed position's symbol returns exactly that position |
| Portfolio.Without | src/components/MarketSimulator.tsx:121-123 | `filter` leaves exactly the other symbols and never grows the list |
| Portfolio.WithoutKeeps | src/components/MarketSimulator.tsx:121-123 | `filter` keeps exactly the listed entries in another symbol: an entry is in the result iff it is in the list and its symbol differs |
| Portfolio.FindWithout | src/components/MarketSimulator.tsx:121-123 | Removing one symbol leaves the lookup of every other symbol unchanged |
| Portfolio.FindRevise | src/components/MarketSimulator.tsx:129-133 | The `map` update changes the lookup of its own symbol only, to the new quantity and average |
| Portfolio.FindAppend | src/components/MarketSimulator.tsx:134-141 | Appending a position leaves every lookup that already succeeded as it was; the new position is found only under its own symbol and only if that symbol was not held |
| Portfolio.Revise | src/components/MarketSimulator.tsx:129-133 | Computes the `map` update: entries in the symbol take the new quantity and average, others are kept. FindRevise, CostBasisRevise and MarketValueRevise characterise it |
| Portfolio.Vwap | src/components/MarketSimulator.tsx:125-127 | Computes the volume-weighted average of the held and bought lots. VwapConservesCost and VwapWithin characterise it |
| Portfolio.ApplyTrade | src/components/MarketSimulator.tsx:113-145 | Computes the position updater of a trade. BuyOpensOrBlends, SellKeepsBasis, TradeLeavesOtherSymbols, OnePositionPerSymbol, TradeAccounting and TradeKeepsWorth characterise it over all inputs |
| Portfolio.UniqueWithout | src/components/MarketSimulator.tsx:121-123 | Removing a symbol keeps one position per symbol |
| Portfolio.WithoutLength | src/components/MarketSimulator.tsx:121-123 | With one position per symbol, removing a held symbol drops exactly one entry |
| Portfolio.TradeLeavesOtherSymbols | src/components/MarketSimulator.tsx:113-145 | A trade in one symbol leaves the position of every other symbol unchanged |
| Portfolio.OnePositionPerSymbol | src/components/MarketSimulator.tsx:113-145 | A trade adds no symbol but its own and keeps one position per symbol |
| Portfolio.BuyOpensOrBlends | src/components/MarketSimulator.tsx:113-141 | A first BUY appends a position at the trade price with zero P&L. A BUY of a held symbol adds the quantity and sets the average to the volume-weighted blend, in place, or removes the position when the sum is 0 |
| Portfolio.BuyOpens | src/components/MarketSimulator.tsx:134-141 | A BUY of an unheld symbol appends a fresh position at the trade price |
| Portfolio.BuyBlends | src/components/MarketSimulator.tsx:117-133 | A BUY of a held symbol revises it in place to the summed quantity at the blended average |
| Portfolio.BuyCloses | src/components/MarketSimulator.tsx:119-123 | A BUY that brings a negative quantity to exactly 0 removes the position |
| Portfolio.SellKeepsBasis | src/components/MarketSimulator.tsx:113-145 | A SELL of an unheld symbol leaves the list alone. A SELL of a held symbol keeps the average cost and subtracts the quantity, even below 0, or removes the position at exactly 0 |
| Portfolio.SellReduces | src/components/MarketSimulator.tsx:117-133 | A SELL that does not empty the position subtracts the quantity at the same average cost |
| Portfolio.SellCloses | src/components/MarketSimulator.tsx:119-123 | Selling exactly the held quantity removes the position |
| Portfolio.VwapConservesCost | src/components/MarketSimulator.tsx:125-127 | The blended lot costs exactly what the held lot and the bought lot cost together |
| Portfolio.VwapWithin | src/components/MarketSimulator.tsx:125-127 | Blending two long lots gives an average between the two prices |
| Portfolio.BlendThenSellExample | src/components/MarketSimulator.tsx:113-145 | BUY 10 at 100 then 10 at 120 gives 20 at 110; SELL 5 leaves 15 at 110 |
| Portfolio.TradeAccounting | src/components/MarketSimulator.tsx:96-145 | For a BUY, or a SELL of at most the held quantity, on long positions: cash change plus new cost basis equals old cost basis plus the gain realized against average cost, and all positions stay long |
| Portfolio.CostBasisWithout | src/components/MarketSimulator.tsx:121-123 | Removing a held symbol lowers the cost basis by exactly that position's lot |
| Portfolio.CostBasisRevise | src/components/MarketSimulator.tsx:129-133 | Revising a held symbol replaces exactly that position's lot in the cost basis |
| Portfolio.Mark | src/components/MarketSimulator.tsx:74-78 | Re-marking keeps length, symbols, quantities and averages, and sets each position's price to its quote and its P&L to (quote − average) × quantity |
| Portfolio.MarkOne | src/components/MarketSimulator.tsx:74-78 | Computes one re-marked position; MarkOneAccounts states that it keeps the lot and sets P&L to value minus lot |
| MarketSimulator.MovePrices | src/components/MarketSimulator.tsx:55-62 | Every tradable symbol's quote becomes `NextPrice` of its old quote and change; other quotes and the key set are kept; quotes stay valid |
| Portfolio.NextPrice | src/components/MarketSimulator.tsx:55-62 | The new quote is the moved price or 0.01, whichever is larger |
| Portfolio.PushHistory | src/components/MarketSimulator.tsx:65-71 | The chart keeps at most 50 points: the newest last, preceded by the most recent earlier points in order |
| Portfolio.MarkAccounts | src/components/MarketSimulator.tsx:74-78 | Re-marking keeps the cost basis, and the summed P&L becomes market value minus cost basis |
| Portfolio.TotalPnL | src/components/MarketSimulator.tsx:156 | Computes the summed P&L; MarkAccounts states that on marked positions it is market value minus cost basis |
| Portfolio.TotalReturn | src/components/MarketSimulator.tsx:157 | Computes the displayed return; TotalReturnOmitsCostBasis and ReturnAfterFirstBuy relate it to the corrected return |
| Portfolio.MarketReturn | src/components/MarketSimulator.tsx:157 | Computes the corrected return on cash plus market value; MarketReturnKeptByTrade states that trades at the quote keep it |
| Portfolio.TotalReturnOmitsCostBasis | src/components/MarketSimulator.tsx:156-157 | On marked positions the displayed return falls short of the return on cash plus market value by exactly the cost basis, as a percentage of the initial balance |
| Portfolio.ReturnAfterFirstBuy | src/components/MarketSimulator.tsx:157 | After BUY 10 AAPL at 150.25 from 10,000 of cash, the displayed return is −15.025% while the return on cash plus market value is 0% |
| Portfolio.TradeKeepsWorth | src/components/MarketSimulator.tsx:96-145 | A trade at the quote of a bought or held symbol changes market value by exactly minus the cash change, whatever the quantity |
| Portfolio.MarketReturnKeptByTrade | src/components/MarketSimulator.tsx:157 | The corrected return, on cash plus market value, is unchanged by any trade at the quote of a bought or held symbol |
| RiskManager.ApplyEdit | src/components/RiskManager.tsx:85 | The spread update gives the named field the new value and keeps every other field |
| RiskManager.EditDetermined | src/components/RiskManager.tsx:85 | Any rule that holds the new value and keeps every other field is the spread update's result |
| RiskManager.EditNoOp | src/components/RiskManager.tsx:85 | Writing the value a field already holds changes nothing |
| RiskManager.UpdateRules | src/components/RiskManager.tsx:83-87 | The list keeps its length. Rules with another id are unchanged. Rules with the id get the field written and keep every other field |
| RiskManager.UnknownIdKeepsRules | src/components/RiskManager.tsx:83-87 | An id no rule carries leaves the list as it was |
| RiskManager.UpdateIdempotent | src/components/RiskManager.tsx:83-87 | Repeating an update has no further effect |
| RiskManager.UpdateKeepsIds | src/components/RiskManager.tsx:83-87 | An edit of any field but the id keeps the set of ids, so distinct ids stay distinct |
| RiskManager.UpdateTargetsOneRule | src/components/RiskManager.tsx:83-87 | With distinct ids, exactly the rule with the id changes, and only in the edited field |
| RiskManager.InitialRulesShape | src/components/RiskManager.tsx:22-55 | The panel opens with four rules, one of each type, with distinct ids; only the concentration rule is off |
| RiskManager.RiskPanel.constructor | src/components/RiskManager.tsx:22-55 | The panel opens with the four initial rules |
| RiskManager.RiskPanel.UpdateRiskRule | src/components/RiskManager.tsx:83-87 | The rules become `UpdateRules` of the old ones; a non-id edit keeps ids distinct |
| RiskManager.SliderMax | src/components/RiskManager.tsx:238-245 | The slider's top is 50 for concentration, 20 for position size and 10 otherwise, above the minimum 1 and on a 0.5 step |
| RiskManager.InitialRulesOnSlider | src/components/RiskManager.tsx:238-245 | Every opening rule value lies within its slider's range and on its step |
| RiskManager.CalculatePositionSize | src/components/RiskManager.tsx:89-91 | The result is the whole number r with r ≤ value × risk / stop < r + 1 (the hundredths cancel) |
| RiskManager.PositionSizeFitsBudget | src/components/RiskManager.tsx:89-91 | With a positive stop, the result's stop-out loss is within the risk budget, and one unit more exceeds it |
| RiskManager.PositionSizeMonotone | src/components/RiskManager.tsx:89-91 | A larger portfolio never gets a smaller recommended size |
| RiskManager.DefaultInputsSize | src/components/RiskManager.tsx:337-349 | At the calculator's default inputs (50,000, 2%, 3%) the size is 33,333 |
| RiskManager.ShownRecommendationDisagrees | src/components/RiskManager.tsx:353 | The figure shown on the card, 3,333, is not the formula's 33,333 at the card's defaults |
| RiskManager.GetRiskLevel | src/components/RiskManager.tsx:93-106 | For "var95": High iff the value is above 5000, Low iff at most 2000. For "drawdown": High iff above 15, Low iff at most 8. Any other kind is Medium. The colour is the level's colour |
| RiskManager.RiskLevelMonotone | src/components/RiskManager.tsx:93-106 | For every metric, a larger value never yields a lower level |
| RiskManager.DashboardLevels | src/components/RiskManager.tsx:57-64 | The dashboard's value at risk 2850 and drawdown 8.5 both grade Medium, in yellow |
| StrategyBuilder.ReplaceById | src/components/StrategyBuilder.tsx:122-132 | The list keeps its length, order and ids. Entries with the copy's id become the copy. All others are unchanged |
| StrategyBuilder.SaveIdempotent | src/components/StrategyBuilder.tsx:128-135 | Saving the same copy twice equals saving it once |
| StrategyBuilder.LaterSaveWins | src/components/StrategyBuilder.tsx:128-135 | Of two saves under one id, the later one wins |
| StrategyBuilder.SaveUnknownId | src/components/StrategyBuilder.tsx:128-135 | A copy whose id is not listed saves nowhere |
| StrategyBuilder.SavedCopyIsListed | src/components/StrategyBuilder.tsx:128-135 | After a save of a listed id the copy is in the list |
| StrategyBuilder.SetParameter | src/components/StrategyBuilder.tsx:115-118 | The key holds the new value, every other key keeps its presence and value, and every other field is kept |
| StrategyBuilder.SetParameterCommutes | src/components/StrategyBuilder.tsx:115-118 | Changes to two different keys commute |
| StrategyBuilder.StrategyEditor.constructor | src/components/StrategyBuilder.tsx:27-104 | The editor opens with the two initial strategies and the first one selected |
| StrategyBuilder.StrategyEditor.HandleParameterChange | src/components/StrategyBuilder.tsx:113-126 | With a selection, the copy gets the parameter and the whole copy, pending edits included, is written into the list; with none, nothing changes |
| StrategyBuilder.StrategyEditor.SaveStrategy | src/components/StrategyBuilder.tsx:128-135 | The list becomes `ReplaceById` of the copy, which is then listed; with no selection the list is kept |
| StrategyBuilder.StrategyEditor.EditCode | src/components/StrategyBuilder.tsx:262-265 | Only the copy's code changes; the list waits for a save |
| StrategyBuilder.StrategyEditor.EditName | src/components/StrategyBuilder.tsx:294-297 | Only the copy's name changes |
| StrategyBuilder.StrategyEditor.EditDescription | src/components/StrategyBuilder.tsx:305-308 | Only the copy's description changes |
| StrategyBuilder.StrategyEditor.EditType | src/components/StrategyBuilder.tsx:316-319 | Only the copy's type changes |
| StrategyBuilder.StrategyEditor.Select | src/components/StrategyBuilder.tsx:170 | Clicking a listed strategy makes it the working copy, dropping unsaved edits |
| StrategyBuilder.ParameterChangeThenSave | src/components/StrategyBuilder.tsx:113-135 | A parameter change already saves the copy, so a save right after it leaves the list as the change left it |

## Left out

- The random tick move (`faker`) is a parameter of `Tick`, bounded by ±2%. The trade UUID is a counter (`nextId`). Timestamps and the chart's time labels are left out.
- The interval timer and its effect clean-up are left out. `Tick` is one firing of the interval and requires the session to be running, since the interval only exists while it runs. The component serializes ticks and clicks through React; the model takes each command as atomic.
- JavaScript numbers are exact reals: no floating-point rounding.
- Rendering, styling, toasts and `alert` are left out.
- `realized` is a ghost field. The component never computes realized gain; the field exists to state the accounting identity.
- MarketSimulator.Simulator.ExecuteTrade: the accounting identity is only promised for a BUY or a SELL of at most the held quantity. The code accepts any SELL, and an uncovered one breaks it.
- MarketSimulator.Simulator.SetQuantity: requires a positive quantity. The input's `parseInt(...) || 0` path, which can store 0 or a negative number, is not modelled.
- MarketSimulator.Simulator.SubmitOrder: the buttons' `disabled` state is modelled as a rejected order with a reason. The component simply does not fire.
- RiskManager.CalculatePositionSize: a stop of 0 is excluded; JavaScript would give Infinity or NaN. The function is not called from the markup, whose recommendation is a fixed text (see Findings).
- The rule-value number input's `min`/`max` (0.5 and 50) are browser hints, not enforced, and are not modelled. `parseFloat` is not modelled; an edit carries a well-typed value.
- `Edit` replaces `keyof RiskRule` plus an untyped value by a well-typed edit per field.
- The risk dashboard's other static figures (exposure, correlation and asset lists), the alert list and the position-size calculator's inputs are display-only constants and are left out.
- StrategyBuilder: the initial strategies' code texts are kept as their first comment line only. `newStrategy`, `testStrategy` and the strategy status badges do nothing stateful and are left out.
- The other files (syllabus data, learning modules, module detail sheet, trading progress, performance analytics, backtest engine, App) are static content or routing and are not part of this model.

## Findings

| source | as written | input that shows it | evidently intended | confidence | as-written member | corrected member |
|---|---|---|---|---|---|---|
| src/components/MarketSimulator.tsx:157 | total return = (cash + Σ unrealized P&L − initial) / initial × 100, which drops the cost of the holdings | from 10,000 of cash, BUY 10 AAPL at 150.25: the return reads −15.025% though nothing was gained or lost | return on cash plus market value, unchanged by a trade at the quote | high, not executed | Portfolio.ReturnAfterFirstBuy | Portfolio.MarketReturnKeptByTrade |
| src/components/RiskManager.tsx:353 | the calculator card shows a fixed "$3,333" | the card's own defaults 50,000, 2% and 3% give 33,333 under `calculatePositionSize` | the formula's result at the inputs shown | medium, not executed | RiskManager.ShownRecommendationDisagrees | RiskManager.DefaultInputsSize |
