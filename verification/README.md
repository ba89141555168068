# Order-flow market simulator: a verified Dafny model of its core

The simulator drives one stock through ticks and days. Each tick has three parts:

- **Trader pools.** Three vectorized populations (noise traders, momentum traders and value investors) each decide a signed order per trader row. The pool then settles those orders at the quoted price in `finish_position_change`.
- **Market node.** The scalar node (`market.Node`) accumulates the settled flow in a buy and a sell bucket. Once per tick it records the price, updates its depth proxy, moves the price, and recomputes its sentiment index (MSI). Once per day it archives an OHLC bar and applies an overnight shift.
- **Order book.** A C++ price-time-priority limit order book (`OrderBook` inside `Stock`) matches incoming market and limit orders against resting ones. `Stock` builds an intraday bar from the prices the book reports.

The model consists of these modules:

| module | file | what it models |
|---|---|---|
| `Numeric` | `numeric.dfy` | Shared helpers: integer and real max/min, Python's `int()` truncation, float64 quotients with the IEEE results of dividing by zero, the max/min of a list, sums and sums of squares (with the Cauchy-Schwarz bound). |
| `Clearing` | `clearing.dfy` | `finish_position_change`, one trader row at a time, with the two volume reductions. |
| `RollingWindow` | `rolling_window.dfy` | `MomentumTrader.__append`: the 1080-slot price buffer with running price and square sums, in all three branches. |
| `TraderPools` | `trader_pools.dfy` | The three pools' `tick_decision`. |
| `MarketNode` | `market_node.dfy` | `Node`: `clinch`, the depth, price and MSI updates, `tick_update`, `day_update`, `__night_trade` and `get_1080ticks_history`. |
| `OrderBook` | `order_book.dfy` | The book: the two comparators, `addOrder`/`matchOrders`, `cancelOrder`, `getOrder`, `resetAll` and the best prices. |
| `BookInvariants` | `book_invariants.dfy` | What the book keeps true, and what `addOrder` does to fills and prices. |
| `Stock` | `stock.dfy` | `Stock::tickUpdate`/`dayUpdate` and the intraday bar. |

Modelling choices:

- **Numbers.** Float64 money and prices are `real`. `int32` counts are `int`.
- **Randomness.** Every random draw of a tick is an explicit per-row argument.
- **Transcendental functions.** `sqrt`, `exp`, `tanh` and `round(., 4)` are fields of a `Numerics` record passed in. They are constrained only by `Lawful`: `sqrt` is positive on positive inputs, `exp` is positive, `tanh(0) = 0`, and `tanh` is strictly increasing.
- **One matching engine for both book versions.** The repository has two versions of the book. `src/cpp/Stock.cpp` stops a limit sell when the best bid is below its limit. The older `src/cpp/OrderBook.cpp` stops it when the best bid is above its limit. The model has a single matching loop parameterised by that stop test (`Engine`).
- **Order storage.** The C++ `orders` hash map is the union of the resting copies and an `archive` of the orders that no longer rest. The `archive` holds fully filled makers and market or filled takers.

## Model

| member | source | states |
|---|---|---|
| Clearing.SettleRow | src/VectorizationTrader.py:7-20 | A row's settlement leaves its order column 0 and keeps its wealth at the quoted price. A buyer short of cash buys `floor(cash / price)` units, fewer than it asked for, and keeps less than one unit's price in cash. A seller short of stock sells its whole holding. Every other row fills exactly. A solvent row stays solvent. |
| Clearing.FillSum | src/VectorizationTrader.py:21-22 | Over the rows whose original order was a buy, the settled orders sum to a total between 0 and the requested buy volume. For sells, the total lies between the requested sell volume and 0. |
| Clearing.FinishPositionChange | src/VectorizationTrader.py:3-24 | Every row is settled by `SettleRow` at the price, so both clamps apply row by row: order column 0, cooldown and wealth unchanged, solvency kept. The buy and sell totals are bounded by the requested volumes. |
| Clearing.BuyTotalIsRequestedIff | src/VectorizationTrader.py:7-21 | The reported buy total equals the requested buy volume if and only if no buyer was short of cash. |
| Clearing.SellTotalIsRequestedIff | src/VectorizationTrader.py:12-22 | The reported sell total equals the requested sell volume if and only if no seller was short of stock. |
| Clearing.FillSumIsRequestedIff | src/VectorizationTrader.py:5-22 | On either side, the settled total equals the requested total if and only if no row on that side was clamped. |
| Clearing.FloorFillsHolds | src/VectorizationTrader.py:9-11 | A cash-constrained buy of `floor(cash / price)` units buys fewer units than requested and leaves cash in `[0, price)`. |
| TraderPools.RescueSize | src/VectorizationTrader.py:49-53 | A bankrupt row's forced sell is the largest of three sizes: one unit, the size draw, and twice its cash shortfall in units, floored. It is at least each of them and equal to one of them. The momentum and value pools pass a draw of 0 (lines 140 and 213). |
| TraderPools.CountdownReachesZero | src/VectorizationTrader.py:62-65 | A cooldown `c >= 0` reads `c - j` after `j <= c` ticks, whatever the wait draws. |
| TraderPools.CountdownStaysNonNegative | src/VectorizationTrader.py:62-65 | A cooldown never goes negative under non-negative wait draws. |
| TraderPools.InitialRows | src/VectorizationTrader.py:41-45 | Row `i` of a freshly built pool holds exactly the drawn cash, holdings and cooldown `i`, with no order. The pool is idle: solvent, with no orders and non-negative cooldowns. |
| TraderPools.NoiseRow | src/VectorizationTrader.py:47-65 | A bankrupt row sells exactly its rescue size. An active solvent row buys its size draw when the decision draw is below 0.4 and sells it when the draw is in [0.4, 0.8). Any other row keeps its order. Cash and holdings are untouched, and the cooldown counts down or restarts. |
| TraderPools.NoiseTickDecision | src/VectorizationTrader.py:47-66 | Every row settles the order `NoiseRow` gives it. Its order column is reset, its cooldown steps with its wait draw, and its wealth at the price is kept. An order no clamp touches is filled in full, and a solvent row stays solvent. With non-negative cash the buy total lies between 0 and the volume asked to buy; with non-negative holdings the sell total lies between the volume asked to sell and 0. An idle pool stays idle. |
| TraderPools.NoiseTotalsAreFills | src/VectorizationTrader.py:47-66 | Over solvent rows, a noise tick's buy total is the volume asked to buy exactly when no buyer was short of cash. Its sell total is the volume asked to sell exactly when no seller was short of stock. |
| TraderPools.ClearPool | src/VectorizationTrader.py:3-24 | Clearing the orders a pool placed from its rows resets every order column. It keeps each row's cooldown and its wealth at the price, fills every unclamped order in full, and keeps solvent rows solvent and an idle pool idle. Each total lies within the volume asked for on its side. |
| TraderPools.SignalSidesDisjoint | src/VectorizationTrader.py:167-170 | With a non-negative judge threshold, no signal is in both the buy and the sell mask. With a negative threshold, a zero signal is in both. |
| TraderPools.SignalOrder | src/VectorizationTrader.py:165-170 | An active row above its risk multiple of the moving average sells everything. Otherwise a signal below `-judge` sells a fraction of the holding; this assignment comes last, so it wins. A signal above `judge` buys with a fraction of the cash. Anything else keeps the earlier order. |
| TraderPools.MomentumRow | src/VectorizationTrader.py:136-177 | A bankrupt row sells exactly its rescue size with no size draw, and an inactive row keeps its order. An active row follows the risk, buy and sell stages applied to its window statistics. |
| TraderPools.MomentumTickDecision | src/VectorizationTrader.py:136-178 | A momentum tick appends the price to the window and keeps the pool invariant and the coefficients. Every row settles the order `MomentumRow` gives it over the new window: order column reset, cooldown stepped with its wait draw, wealth at the price kept, an unclamped order filled in full, solvency kept. The totals lie within the volumes asked for, and an idle pool stays idle. |
| TraderPools.MomentumTotalsAreFills | src/VectorizationTrader.py:136-178 | Over solvent rows, each momentum total is the volume asked for on its side exactly when no row on that side was clamped. |
| TraderPools.NewestSlotStatsAreSound | src/VectorizationTrader.py:155-163 | Read at the newest slot, the moving average is the mean of the last `decision_time` prices. The judge threshold is non-negative, so the buy and sell masks are disjoint. |
| TraderPools.NewestSlotJudgeNonNegative | src/VectorizationTrader.py:160-163 | Read at the newest slot, `sigma_market` is a sum of squared deviations, so `judge_coef * sigma_market >= 0`. |
| TraderPools.FillingPhaseLiquidates | src/VectorizationTrader.py:154-166 | As written, while the buffer fills and the trailing `decision_time` slots before slot 1079 are all still empty (`len + decision_time < 1080`), index `-1` reads a zero difference, so the moving average is 0. Every active row at a positive price therefore takes the risk branch and is told to sell its whole holding. |
| TraderPools.LateFillingPhaseLiquidates | src/VectorizationTrader.py:154-166 | In the last `decision_time` appends before the buffer fills, index `-1` still reads the empty slot 1079, so the moving average reads minus the sum of the first `1080 - decision_time` prices over `decision_time`. With non-negative prices that is at most 0, and every active row (with a non-negative risk coefficient) is again told to sell its whole holding. |
| TraderPools.FullWindowReadersAgree | src/VectorizationTrader.py:155-161 | Once the buffer is full, the source's reads and the newest-slot reads give the same statistics. |
| TraderPools.ValueRow | src/VectorizationTrader.py:210-227 | A bankrupt row sells exactly its rescue size with no size draw. An active row sells a fraction of its holding above the sell band. It buys with a fraction of its cash below the buy band, when the biased estimate is non-negative. Otherwise it keeps its order. |
| TraderPools.ValueTickDecision | src/VectorizationTrader.py:210-228 | A value tick keeps the judge coefficients. Every row settles the order `ValueRow` gives it: order column reset, cooldown stepped with its wait draw, wealth at the price kept, an unclamped order filled in full, solvency kept. The totals lie within the volumes asked for, and an idle pool stays idle. |
| TraderPools.ValueTotalsAreFills | src/VectorizationTrader.py:210-228 | Over solvent rows, each value total is the volume asked for on its side exactly when no row on that side was clamped. |
| RollingWindow.Empty | src/VectorizationTrader.py:108-111 | The constructor's buffer has three 1080-slot arrays and fill count 0. |
| RollingWindow.Lower | src/VectorizationTrader.py:130 | `array -= c` subtracts `c` from every slot and keeps the length. |
| RollingWindow.Append | src/VectorizationTrader.py:113-134 | The fill count grows to at most 1080. The newest price is written at the fill count while filling; once full, the prices shift left with the newest price last. |
| RollingWindow.AppendKeepsInv | src/VectorizationTrader.py:113-134 | Every append keeps each running sum equal to its left neighbour plus its own slot, including after the full-buffer branch subtracts the wrong evictee. |
| RollingWindow.AppendTracks | src/VectorizationTrader.py:113-134 | Appending to the buffer of history `h` gives the buffer of `h + [p]`. It holds the last `min(|h| + 1, 1080)` prices. |
| RollingWindow.BuildTracks | src/VectorizationTrader.py:113-134 | The buffer built from any price history holds that history's last `min(|h|, 1080)` prices, oldest first. |
| RollingWindow.FillingPrefixSums | src/VectorizationTrader.py:114-123 | While at most 1080 prices have arrived, slot `i` holds the `i`-th price and the running sums are the exact prefix sums of the prices and of their squares. |
| RollingWindow.NewestSlotIsTrailingSum | src/VectorizationTrader.py:155-161 | Read at the newest slot, the difference of running sums is the sum (and sum of squares) of the last `k` prices, whether the buffer is filling or full. |
| RollingWindow.NewestSlotDifferences | src/VectorizationTrader.py:155-161 | Read at the newest slot, the differences are the sums over the last `k` filled slots. |
| RollingWindow.LastSlotIsTrailingSumWhenFull | src/VectorizationTrader.py:124-134 | Once full, the source's reads at index `-1` give the true trailing sums. The wrong evictee shifts a whole array by one constant, which cancels in every difference. |
| RollingWindow.LastSlotReadsZeroWhileFilling | src/VectorizationTrader.py:108-123 | While filling, a trailing difference that does not reach back into the filled slots reads 0. |
| RollingWindow.LastSlotReadsNegatedPrefixLateInFilling | src/VectorizationTrader.py:108-123 | While filling, a trailing difference of `k` that reaches back into the filled slots reads minus the sum of the first `1080 - k` prices. |
| MarketNode.InitNode | src/market.py:7-20 | The constructor starts at price 27, value 30 and depth 1000, with empty buckets, MSI 0 and no ticks. Its one bar is high 27 + the high draw, low 27 - the low draw, open 27 + the open draw and close 27, so high and low bracket the price. |
| MarketNode.Clinch | src/market.py:46-50 | A positive change goes to the buy bucket and anything else, negated, to the sell bucket. The bucket difference moves by the change, and nothing else changes. |
| MarketNode.ClinchAllFlow | src/market.py:46-50 | Over a tick's `clinch` calls, the bucket difference moves by the net flow and the bucket total by the gross flow. |
| MarketNode.UpdateDepth | src/market.py:64-66 | The new depth is an integer in [500, 5000]. It is 500 below the floor, 5000 at or above the cap, and the truncated target in between. |
| MarketNode.Impact | src/market.py:72-73 | The relative price move has the sign of the buy-minus-sell imbalance. |
| MarketNode.Msi | src/market.py:68-69 | The sentiment index has the sign of the imbalance. |
| MarketNode.UpdatePrice | src/market.py:71-78 | A zero day open is the error case (`ZeroDayOpen`), where Python raises `ZeroDivisionError`; otherwise only the price changes. With a positive open the price never ends above 107% of it: a proposed price below that bound, however low, is kept, and at or above it the price is exactly 107%. With a negative open the same test keeps a proposed price above 107% of the open and sets one at or below it to exactly that. |
| MarketNode.BreakerAtPositiveOpen | src/market.py:77-78 | With a positive open, the test `(p - t0) / t0 >= 0.07` holds exactly when `p >= 1.07 * t0`. |
| MarketNode.BreakerAtNegativeOpen | src/market.py:77-78 | With a negative open, dividing by it flips the test: it holds exactly when `p <= 1.07 * t0`. |
| MarketNode.ImpactMovesPriceWithFlow | src/market.py:72-74 | Before noise and rounding, net buying raises a positive price, net selling lowers it, and balanced flow leaves it unchanged. |
| MarketNode.TickUpdate | src/market.py:80-86 | A tick stops with `ZeroDayOpen` exactly when the day's first tick (after recording the price) is 0, where Python raises `ZeroDivisionError`. Otherwise it records the price and empties both buckets. The new depth is the depth update of the node with the price recorded, in [500, 5000]. The MSI has the imbalance's sign. With a positive day open, the new price is the noisy, rounded impact price at the new depth when that is below 107% of the open, and exactly 107% otherwise. Bars and value are unchanged and the node invariant is kept. |
| MarketNode.AppliedShift | src/market.py:26-28 | The applied shift is never above the draw and has its sign: negative, zero or positive exactly when the draw is. A draw of at least -2% is applied as at least -4%. |
| MarketNode.NightTrade | src/market.py:25-32 | Overnight only value, depth and price change. A positive value falls exactly when the draw is negative and rises exactly when it is positive; a draw within 2% keeps it within [96%, 102%] of itself. A positive depth falls but stays positive, and one in [500, 5000] lands in [300, 3000]. A positive price rises exactly when the sum of the two gap draws is positive and falls exactly when it is negative. The node invariant is kept. |
| MarketNode.NightShiftAsymmetry | src/market.py:26-29 | A down draw of size `x` moves the value twice as far as an up draw of size `x`. |
| MarketNode.DayUpdate | src/market.py:88-94 | The day's bar is appended: the maximum and minimum of the ticks (both among them and bounding all of them), the first and the last tick. The night shift follows, and the tick history restarts at the shifted price. An empty history is the error case. The invariant is kept. |
| MarketNode.Recent | src/market.py:40-44 | The result is the last `min(n, 1080)` ticks, and the whole history when it has fewer than 600. |
| OrderBook.ComparatorsAreStrictTotal | src/cpp/OrderBook.hpp:57-68 | Both comparators are irreflexive, asymmetric and transitive, and they order any two distinct ids. |
| OrderBook.Insert | src/cpp/Stock.cpp:105-110 | Inserting an order adds exactly that order to the side (as a multiset). The new head is the order or the old head. |
| OrderBook.InsertVolumeAndIds | src/cpp/Stock.cpp:105-110 | Inserting adds the order's remainder to the side's volume and its id to the side's ids. |
| OrderBook.InsertSorted | src/cpp/OrderBook.hpp:57-70 | Inserting into a sorted side by the comparator keeps it sorted. |
| OrderBook.Find | src/cpp/Stock.cpp:26-27 | The search returns -1 exactly when the id does not rest on the side, and otherwise an index holding that id. |
| OrderBook.Apply | src/cpp/Stock.cpp:71-74 | A fill adds the traded quantity, and the new fill price keeps `filled_price * filled_quantity` equal to the old amount plus `quantity * price`. |
| OrderBook.Step | src/cpp/Stock.cpp:69-80 | One matching iteration strictly increases the taker's fill, within its quantity, and appends one fill. |
| OrderBook.Take | src/cpp/Stock.cpp:65-160 | The matching loop ends with one of three outcomes: the taker full, the opposite side empty, or a limit taker whose stop test holds at the best opposite price. The fill never exceeds the quantity, earlier fills are kept, and the current price is the newest fill's (unchanged when nothing traded). |
| OrderBook.AddOrder | src/cpp/Stock.cpp:14-20 | A new order gets the next id, and the id counter advances. The order keeps its fields and never over-fills. |
| OrderBook.Init | src/cpp/Stock.cpp:7-12 | The constructor's book is empty, with ids from 1 and the given start price. |
| OrderBook.ResetAll | src/cpp/Stock.cpp:184-192 | Reset gives the constructor's book at the current price. |
| OrderBook.RemoveAt | src/cpp/Stock.cpp:30-35 | Erasing one resting order keeps the others in order. |
| OrderBook.Entry | src/cpp/Stock.cpp:41-46 | An id is missing exactly when it neither rests nor is archived. |
| OrderBook.CancelOrder | src/cpp/Stock.cpp:22-39 | Cancelling an id that does not rest changes nothing. Cancelling a resting order removes it from its side and takes its remainder off that side's total. |
| OrderBook.GetOrder | src/cpp/Stock.cpp:41-63 | The status is None for an unknown id, Pending with nothing filled, partlyFilled below the quantity and fullyFilled otherwise. Canceled is never reported. A fully filled order or a part-filled market order is erased from the archive, and nothing else changes; any other query leaves the book as it was. |
| BookInvariants.SideVolumeNonNegative | src/cpp/Stock.cpp:29-35 | A side's unfilled volume is never negative, so the unsigned totals never underflow. |
| BookInvariants.InsertOk | src/cpp/Stock.cpp:105-110 | Resting a new limit order keeps its side sorted, distinct and live. |
| BookInvariants.StepKeeps | src/cpp/Stock.cpp:69-80 | One matching iteration keeps the opposite side well formed, its total equal to its volume, and the archive well formed. |
| BookInvariants.TakeKeeps | src/cpp/Stock.cpp:65-160 | The whole matching loop keeps the same facts, and the opposite best price only gets worse for the taker. |
| BookInvariants.TakeVolume | src/cpp/Stock.cpp:70-76 | The taker's fill grows by the traded volume, the opposite total falls by it, and each trade is at least one unit. |
| BookInvariants.TakeNotional | src/cpp/Stock.cpp:71-72 | The taker's average fill price is the quantity-weighted average of its trades. |
| BookInvariants.TakePrices | src/cpp/Stock.cpp:84-157 | The current price is the last trade's, and a limit taker trades only at prices its stop test accepts. |
| BookInvariants.AddOrderKeepsValid | src/cpp/Stock.cpp:65-160 | Under either engine, `addOrder` keeps the book invariant. The invariant covers four things: sorted, distinct, live sides; totals equal to the unfilled volume; disjoint ids; every known id below the next id. |
| BookInvariants.StockAddKeepsUncrossed | src/cpp/Stock.cpp:84-157 | With the current stop test, `addOrder` on an uncrossed book leaves the best bid strictly below the best ask. |
| BookInvariants.AddOrderFills | src/cpp/Stock.cpp:65-160 | The fills of one order sum to its fill, its fill price is their weighted average, and the opposite total falls by their volume. |
| BookInvariants.AddOrderPrices | src/cpp/Stock.cpp:84-157 | The current price is the last fill's. A limit buy never pays above its limit. A limit sell never receives below its limit under the current engine, but never above it under the legacy one. |
| BookInvariants.AddOrderPlacement | src/cpp/Stock.cpp:65-160 | A limit order rests exactly when it is not fully filled, and then the opposite best price fails its stop test. A market order never rests; its remainder is dropped only when the opposite side is empty. Any order that does not rest stays queryable. |
| BookInvariants.DefaultOrderIsMarket | src/cpp/OrderBook.hpp:42 | The default order is a market order, which never rests. |
| BookInvariants.RemoveAtOk | src/cpp/Stock.cpp:30-35 | Erasing a resting order keeps its side well formed, removes exactly its id, and takes its remainder off the volume. |
| BookInvariants.CancelOrderKeepsValid | src/cpp/Stock.cpp:22-39 | Cancellation keeps the invariant. The cancelled id is forgotten and every other id is kept. |
| BookInvariants.CancelThenGetIsNone | src/cpp/Stock.cpp:22-45 | After a resting order is cancelled, `getOrder` reports None for it. |
| BookInvariants.GetOrderKeepsValid | src/cpp/Stock.cpp:41-63 | `getOrder` keeps the invariant. A report that forgets the order is final; any other report can be repeated. |
| BookInvariants.BestPricesAreExtreme | src/cpp/Stock.cpp:166-174 | On a valid book, the best bid is the highest bid price and the best ask the lowest ask price. |
| BookInvariants.LegacySellCrossesBook | src/cpp/OrderBook.cpp:126-134 | Under the legacy stop test, a limit sell at 12 against a bid at 15 trades nothing and rests at 12 under the bid, which crosses the book. |
| BookInvariants.LegacySellFillsBelowLimit | src/cpp/OrderBook.cpp:126-140 | Under the legacy stop test, a limit sell at 12 against a bid at 10 sells at 10, below its limit. |
| BookInvariants.StockSellTakesBid | src/cpp/Stock.cpp:131-151 | Under the current stop test, the same sell at 12 fills against the bid at 15, and both sides end empty. |
| BookInvariants.StockSellRestsAboveBid | src/cpp/Stock.cpp:131-157 | Under the current stop test, a sell at 12 against a bid at 10 trades nothing and rests at 12, uncrossed. |
| Stock.NewStock | src/cpp/Stock.cpp:208-212 | A new stock has a fresh valid book at the start price, no ticks, no history, and a bar that matches its (empty) ticks. |
| Stock.TickUpdate | src/cpp/Stock.cpp:214-222 | A tick appends the book's price. From the second tick on: open is the first tick, close is the new price, high and low widen to cover it. |
| Stock.DayUpdate | src/cpp/Stock.cpp:224-229 | A day end files the bar, clears the ticks, resets the book at its current price and starts a fresh bar. |
| Stock.TickUpdateTracksBar | src/cpp/Stock.cpp:214-222 | The bar updated tick by tick always equals the bar of the whole day's ticks: open the first, close the last, high and low over every tick but the first. |
| Stock.AddOrderKeepsStockOk | src/cpp/Stock.cpp:14-20 | Trading through the stock's book keeps it valid and its bar in step. |
| Stock.BarBoundsLaterTicks | src/cpp/Stock.cpp:214-222 | The bar's high and low bound every tick after the first. |
| Stock.OpenCanExceedHigh | src/cpp/Stock.cpp:214-222 | Because the first tick is excluded from the high and the low, a day that opens at 30 and then trades at 20 reports an open of 30 above a high of 20. |

## Left out

- I/O, printing and the simulation driver: `main.py`, `trader.py`, `Market`, the interactive shell in `src/cpp/test.cpp`, and `__printOrderBook__` (src/cpp/Stock.cpp:194-206).
- The random distributions themselves: every draw is an argument, already truncated to an integer where the source truncates it. The ranges are stated only where a contract needs them (`InitNode`, `CoefOk`).
- Transcendental functions and rounding: `sqrt`, `exp`, `tanh` and `round(., 4)` are parameters limited by `Lawful`. The oddness of `tanh` and the precision of rounding are not assumed.
- Floating point: money and prices are exact reals, so rounding error and overflow are not modelled. This includes the square sums that grow without rebasing once the momentum buffer is full.
- Fixed-width integers: `int32` columns and `unsigned int` order fields are unbounded integers. The model proves that the book's totals never go negative, so their unsigned subtractions cannot wrap. Wrap-around of very large counts is not modelled.
- The `basicValue = basicValue` self-assignment in the `Stock` constructor (src/cpp/Stock.cpp:210) leaves the member unset. The model's `Stock` has no value field.
- The `OrderBook(double start_price=100.0) {}` body in src/cpp/OrderBook.hpp:41 clashes with the out-of-line constructor in src/cpp/Stock.cpp:7-12. The model follows the out-of-line one.
- `Stock.hpp` is not part of this model. `Stock`'s fields are inferred from their use, with the bar in the field order `{high, low, open, close}`.
- The `Canceled` status is declared but never produced. `GetOrder` states that it never reports it.
- OrderBook.AddOrder: requires live sides (every resting order has a positive remainder). On a book built only through this API the requirement always holds, as `AddOrderKeepsValid` and `CancelOrderKeepsValid` show.
- TraderPools.NoiseTickDecision, TraderPools.MomentumTickDecision, TraderPools.ValueTickDecision, Clearing.FinishPositionChange: require a positive price. The source divides by the price, and a zero price would yield IEEE infinities that the model does not follow.
- MarketNode.TickUpdate: requires non-negative buckets, which `clinch` maintains (`NodeOk`). With negative buckets the square root's argument could be negative.
- MarketNode.UpdatePrice: a zero day open is reported as `ZeroDayOpen`, where Python raises `ZeroDivisionError`. The open is always a Python float: the price is re-cast with `float` every tick (`src/market.py:76`), and the night gap is a sum of scalar draws. A zero open is reachable once a price under 0.00005 rounds to 0.0 and is carried into the next day.
- MarketNode.DayUpdate: an empty tick history is reported as `EmptyTickHistory`, where Python raises on `max([])`.

## Findings

| source | as written | input that shows it | evidently intended | confidence | as-written member | corrected member |
|---|---|---|---|---|---|---|
| src/VectorizationTrader.py:155-165 | While the price buffer is filling, index `-1` reads slot 1079, which is still 0. So `MA_t` is 0 while `len + decision_time < 1080`, and minus the sum of the first `1080 - decision_time` prices over `decision_time` in the last `decision_time` appends before the buffer fills (`LateFillingPhaseLiquidates`). Either way it is at most 0, the other statistics are wrong, and `current_price > MA_t * risk_coef` holds at any positive price. | `decision_time = 30`, 90 prices appended, a ready trader at any positive price: it is told to sell its whole holding. | Read the newest filled slot (`len - 1`). The moving average is then the mean of the last `decision_time` prices and the judge threshold is non-negative. | high (not executed) | TraderPools.FillingPhaseLiquidates | TraderPools.NewestSlotStatsAreSound |
| src/cpp/OrderBook.cpp:129 | A limit sell stops matching when `best->price > order.price`, i.e. when the best bid is ABOVE its limit. | One bid of 5 at 15, then a limit sell of 5 at 12: no trade, and the ask rests at 12 under the bid at 15 (a crossed book). Against a bid at 10, the same sell fills at 10, below its limit. | Stop when the best bid is below the limit, as `src/cpp/Stock.cpp:133` does. The book then never crosses, and a limit sell never receives less than its limit. | high (not executed) | BookInvariants.LegacySellCrossesBook | BookInvariants.StockAddKeepsUncrossed |
