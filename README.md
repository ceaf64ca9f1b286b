# Mean-reversion bot: a verified model of the signal-and-position engine

The bot watches one symbol's one-minute closes. It looks for a sharp drop that RSI
momentum, the lower Bollinger band and order-book pressure all confirm. It then buys a
fixed USD amount and sells again when the price reaches a take-profit or a stop-loss level.
Two drivers share that logic:

- the **live bot** (`bot.py`) evaluates four entry gates on each polling tick, keeps a
  list of open positions, opens at most one per tick below a concurrency cap, and closes
  every position whose exit fires;
- the **backtester** (`backtest.py`) replays a candle history with a single position slot.
  It applies the entry rule without the order-book gate and without the band tolerance,
  exits at the candle's close, books profit and loss into a capital of 1000, and
  summarises the trade log.

The model has six modules:

- `Indicators` (`indicators.dfy`): `percent_change`, the RSI (gain/loss split, pandas'
  adjusted exponential average with `min_periods`, the final formula), Bollinger bands;
- `OrderBook` (`orderbook.dfy`): `orderbook_imbalance`;
- `Strategy` (`strategy.dfy`): the configuration and the take-profit / stop-loss rule
  both drivers apply;
- `LiveBot` (`livebot.dfy`): `can_enter` with its first-failing-gate reasons,
  `size_for_order`, and the bookkeeping of one `main_loop` tick as a `Trader` class over
  `open_positions`;
- `Backtest` (`backtest.dfy`): the replay loop, proved equal to a step-by-step
  specification, and the summary;
- `DriverAgreement` (`drivers.dfy`): how the two entry rules relate.

Prices are exact reals. Where pandas produces NaN and the code's control flow depends on
it, the model returns `None`:

- the RSI is NaN before `period` changes exist, or when both averages are zero;
- the lower band is NaN before `bb_period` closes exist.

A comparison with NaN is false in Python. So the live gates 2 and 3 *pass* on `None`, and
the backtest conditions *fail* on it. An average loss of zero with a positive average gain
gives an RSI of exactly 100, as IEEE division by zero yields infinity.

Where the code behaves differently from its comments or its stated design, the model follows the code:

- **Gate 1** (`bot.py:50`) rejects exactly when the change is positive and above
  `-drop_pct`. With a non-negative `drop_pct` that is every rise. A flat or falling window
  always passes, whatever the size of the drop.
  `LiveBot.DropGateAsWritten` states this, and `LiveBot.FlatMarketDecidedByBook` shows that
  a flat market is decided by the order book alone. The backtest does demand
  `-change >= drop_pct`.
- **RSI warm-up.** `ewm(min_periods=period)` counts only the non-NaN changes. The first
  defined RSI therefore needs `period + 1` closes.
- **Overwritten position.** A backtest entry signal while a position is open overwrites
  it. The old position is dropped without an exit record (`Backtest.EntryAtIndex`).
- **Entry price.** The backtest enters at the open of the *current* candle, although a
  comment speaks of the next candle.
- **Failed sell.** A failed sell is not surfaced: the live bot removes a position from
  `open_positions` whatever the sell returned.

## Model

| member | source | states |
|---|---|---|
| Indicators.PercentChange | indicators.py:20-23 | with fewer than `lookback + 1` prices the result is the sentinel 0.0; otherwise it is `(last - past) / past * 100`, stated as `r * past == (last - past) * 100`, and for a positive past price it is negative, positive or zero exactly when the last price is below, above or equal to the price `lookback` steps back |
| Indicators.PercentDropThreshold | indicators.py:23 | a drop of at least `d` percent holds exactly when the last price is at most `1 - d/100` times the price `lookback` steps back |
| Indicators.PercentChangeExample | indicators.py:20-23 | 100 to 95 over one step is -5 %, 80 to 84 over two steps is +5 %, and a series too short for the lookback gives the sentinel 0 |
| Indicators.PercentChangeIgnoresOlderHistory | indicators.py:20-23 | prepending older prices does not change the percent change once the series is long enough |
| Indicators.PercentChangeDependsOnTwoPrices | indicators.py:23 | two series that agree on the last price and the price `lookback` back have the same percent change |
| Indicators.PercentChangeOfConstant | indicators.py:20-23 | a constant positive series has percent change 0 |
| Indicators.Deltas | indicators.py:5 | `diff()` without its leading NaN: one change fewer than prices |
| Indicators.Gain | indicators.py:6 | defined as `delta.clip(lower=0)` on one change: the change when positive, else 0 |
| Indicators.Loss | indicators.py:7 | defined as `-1 * delta.clip(upper=0)` on one change: minus the change when negative, else 0 |
| Indicators.GainLossSplit | indicators.py:5-7 | each change splits into a non-negative gain and a non-negative loss, at most one of them non-zero, with gain − loss equal to the change |
| Indicators.Gains | indicators.py:6 | the clipped gains, one per change, all non-negative |
| Indicators.Losses | indicators.py:7 | the clipped losses, one per change, all non-negative |
| Indicators.Decay | indicators.py:8-9 | the decay `1 - 1/period` lies in [0, 1) |
| Indicators.EwmWeightedSum | indicators.py:8-9 | defined as the numerator of pandas' adjusted exponential average: the newest value with weight 1, each older one with its successor's weight times `1 - 1/period` |
| Indicators.EwmWeightTotal | indicators.py:8-9 | the adjusted weights' total is non-negative, and at least 1 once there is an observation |
| Indicators.EwmWeightedSumAbove | indicators.py:8-9 | values no smaller than `lo` give a weighted sum of at least `lo` times the weights' total |
| Indicators.EwmWeightedSumBelow | indicators.py:8-9 | values no larger than `hi` give a weighted sum of at most `hi` times the weights' total |
| Indicators.EwmWeightedSumSign | indicators.py:8-9 | the weighted sum is non-negative, zero or positive when all values are |
| Indicators.EwmMean | indicators.py:8-9 | the exponential average is defined exactly when there are at least `period` observations, and is non-negative, zero or positive when the observations are |
| Indicators.EwmQuotientBetween | indicators.py:8-9 | for any decay, the weighted sum over the weights' total lies between the smallest and the largest value |
| Indicators.EwmMeanBetween | indicators.py:8-9 | the exponential average of values in [lo, hi] lies in [lo, hi] |
| Indicators.RsiFormula | indicators.py:11 | `100 - 100/(1 + rs)` lies in [0, 100), is 0 exactly when rs is 0, and satisfies `r * (1 + rs) == 100 * rs` |
| Indicators.RsiFormulaMonotonic | indicators.py:11 | a larger relative strength never gives a smaller RSI |
| Indicators.RsiFromAverages | indicators.py:10-11 | the RSI from the two averages is undefined exactly when both are zero, else lies in [0, 100]; a zero average loss with a positive gain gives 100, a zero gain with a positive loss gives 0 |
| Indicators.Rsi | indicators.py:4-11 | a defined RSI needs at least `period + 1` prices and lies in [0, 100] |
| Indicators.RsiOfRisingSeries | indicators.py:4-11 | a strictly rising series with enough history has RSI 100 |
| Indicators.RsiOfFallingSeries | indicators.py:4-11 | a strictly falling series with enough history has RSI 0 |
| Indicators.RsiOfConstantSeries | indicators.py:4-11 | a constant series has an undefined RSI (0/0) |
| Indicators.Sum | indicators.py:14 | defined as the sum of a window, oldest first |
| Indicators.Mean | indicators.py:14 | defined as the sum of a non-empty window over its length, the `rolling(period).mean()` value |
| Indicators.SumBounds | indicators.py:14 | a sum of values in [lo, hi] lies between `n*lo` and `n*hi` |
| Indicators.Window | indicators.py:14 | the rolling window at the latest position holds exactly `period` prices |
| Indicators.BollingerBands | indicators.py:13-18 | the bands are defined exactly when there are at least `period` prices, and the middle band times `period` is the sum of the last `period` prices |
| Indicators.BandsOrdered | indicators.py:16-17 | the outer bands lie `k * std` above and below the middle band, and upper ≥ middle ≥ lower when `k` and `std` are non-negative |
| Indicators.MiddleBandBetween | indicators.py:14 | the middle band lies between the smallest and the largest price of the window |
| OrderBook.SideOrEmpty | utils.py:30-31 | defined as `book.get(side, [])`: a missing side is the empty list |
| OrderBook.Top | utils.py:30-31 | `levels[:depth]` keeps the first `min(depth, len)` levels unchanged |
| OrderBook.Volume | utils.py:32-33 | defined as the sum of the volume field (`l[1]`) over the levels |
| OrderBook.SideVolume | utils.py:30-33 | defined as the volume of the first `depth` levels of a side, a missing side counting as empty |
| OrderBook.Imbalance | utils.py:29-36 | 0 when the top levels hold no volume, otherwise `r * (bid + ask) == bid - ask` |
| OrderBook.VolumeNonNegative | utils.py:32-33 | non-negative level volumes sum to a non-negative volume |
| OrderBook.VolumeIgnoresPrices | utils.py:32-33 | only the volume field of a level counts |
| OrderBook.ImbalanceDependsOnTopVolumes | utils.py:30-36 | two books whose top `depth` levels have the same volumes have the same imbalance |
| OrderBook.ImbalanceIgnoresDeepLevels | utils.py:30-31 | levels below `depth` never change the imbalance |
| OrderBook.MissingSideIsEmpty | utils.py:30-31 | a missing `bids` or `asks` key behaves as an empty side |
| OrderBook.EmptyBookIsBalanced | utils.py:34-35 | an empty book has imbalance 0 |
| OrderBook.ImbalanceBounded | utils.py:34-36 | with non-negative volumes the imbalance lies in [-1, 1] |
| OrderBook.ImbalanceSign | utils.py:36 | the imbalance is positive, negative or zero exactly when the bid volume is above, below or equal to the ask volume |
| OrderBook.ImbalanceSwap | utils.py:36 | swapping the two sides negates the imbalance |
| Strategy.TakeProfitLevel | bot.py:130 | defined as `entry * (1 + take_profit_pct / 100)`; the backtest uses the same level at backtest.py:45 |
| Strategy.StopLossLevel | bot.py:131 | defined as `entry * (1 + stop_loss_pct / 100)`; the backtest uses the same level at backtest.py:46 |
| Strategy.ExitFires | bot.py:132-139 | defined as the exit rule of both drivers: the price is at or above the take-profit level or at or below the stop-loss level (backtest.py:47 uses the same rule) |
| Strategy.ExitBand | bot.py:129-139 | with a positive take-profit and a negative stop-loss the stop-loss level lies below the entry and the take-profit level above it, so a position never exits at its own entry price |
| Strategy.ExitExample | bot.py:130-131 | entry 100, +5 % / −3 %: levels 105 and 97, an exit at 105, 106, 97 and 90, none at 102 |
| LiveBot.Change | bot.py:46-49 | defined as `percent_change` of the closes over `lookback_minutes` |
| LiveBot.DropGateRejects | bot.py:50 | defined as gate 1 as written: `change * -1 < drop_pct and change > 0` |
| LiveBot.RsiGateRejects | bot.py:56-58 | defined as gate 2: a defined RSI above the threshold; a NaN RSI compares false and passes |
| LiveBot.LowerBand | bot.py:60-62 | defined as the lower Bollinger band at the last close, `None` while it is NaN |
| LiveBot.BandGateRejects | bot.py:61-63 | defined as gate 3: the last close above a defined lower band times the tolerance 1.0005 (`BandTolerance`); a NaN band passes |
| LiveBot.ImbalanceGateRejects | bot.py:66-68 | defined as gate 4: an imbalance below the threshold; `CanEnter` evaluates it on the top 10 levels (`BookDepth`) |
| LiveBot.CanEnter | bot.py:40-71 | the decision is an entry exactly when no gate rejects; otherwise the reason names the first rejecting gate in order; an entry reports the drop as `-change`, the last close and an imbalance at or above the threshold |
| LiveBot.DropGateAsWritten | bot.py:49-52 | a flat or falling window never fails gate 1; with a non-negative `drop_pct`, gate 1 fails exactly when the last close is above the close `lookback` back |
| LiveBot.ShortHistoryPassesDropGate | bot.py:49-52 | with fewer than `lookback + 1` closes the 0.0 sentinel passes gate 1 |
| LiveBot.BookConsultedLast | bot.py:63-69 | a rejection by gates 1 to 3 does not depend on the order book |
| LiveBot.FlatMarketDecidedByBook | bot.py:46-71 | on a flat market the bot enters exactly when the imbalance reaches its threshold |
| LiveBot.Round6 | bot.py:77 | `round(x, 6)` is a whole number of millionths within half a millionth of `x`, and on a tie the even one |
| LiveBot.Round6Exact | bot.py:77 | a value with at most six decimals is left unchanged by rounding |
| LiveBot.Round6Unique | bot.py:77 | any whole number of millionths within half a millionth of `x`, even on a tie, is `Round6(x)`: the contract of `Round6` determines the rounding |
| LiveBot.SizeForOrder | bot.py:73-77 | the order size has at most six decimals and is within half a millionth of `size_usd / price` |
| LiveBot.SizeExample | bot.py:73-77 | 1000 USD at price 50 buys exactly 20 units |
| LiveBot.Closing | bot.py:127-139 | `to_close` is no longer than the list, and every position in it has a take-profit or stop-loss that fires |
| LiveBot.Survivors | bot.py:125-141 | the kept list is no longer than the list, and no position in it has an exit that fires |
| LiveBot.RemoveFirst | bot.py:140-141 | `list.remove(p)` takes exactly one copy of `p` out of the list |
| LiveBot.ClosingSurvivorsMultiset | bot.py:127-141 | the closing and the kept positions together are the open positions, as a multiset |
| LiveBot.ClosingSurvivorsPartition | bot.py:127-141 | every open position is either closed or kept, as a multiset |
| LiveBot.ClosingMembership | bot.py:127-139 | a position is sold exactly when it was open and its exit fires |
| LiveBot.SurvivorsMembership | bot.py:125-141 | a position is kept exactly when it was open and its exit does not fire |
| LiveBot.ClosingAppend | bot.py:128-139 | scanning one more position adds it to `to_close` exactly when its exit fires |
| LiveBot.SurvivorsAppend | bot.py:128-141 | one more position is kept exactly when its exit does not fire |
| LiveBot.DropFiringNone | bot.py:140-141 | before any removal the list is unchanged |
| LiveBot.DropFiringAll | bot.py:140-141 | after removing every closing position the survivors remain |
| LiveBot.DropFiringStep | bot.py:140-141 | removing the next closing position by value takes out that very position, because an equal earlier position would have fired as well |
| LiveBot.Opened | bot.py:115-122 | defined as the position a tick opens: on a positive decision below the cap when the buy returned an order, bought at the last close with the rounded size; otherwise none |
| LiveBot.WithEntry | bot.py:117-122 | defined as the open positions with the tick's new position, if any, appended at the end |
| LiveBot.AfterTick | bot.py:117-141 | defined as the survivors, at the last close, of the open positions with the tick's entry |
| LiveBot.TickOpensAtMostOne | bot.py:117-123 | a tick appends at most one position, exactly when the decision is an entry, the cap is not reached and the buy returned an order; it is bought at the last close with the rounded size |
| LiveBot.TickRespectsCap | bot.py:117-141 | a tick never takes the open positions above `max_concurrent_positions` |
| LiveBot.NewPositionSurvivesItsTick | bot.py:117-141 | with a positive take-profit and a negative stop-loss a position opened in a tick is still open at its end, after the survivors |
| LiveBot.Trader.constructor | bot.py:34 | the trader starts with no open positions |
| LiveBot.Trader.ManagePositions | bot.py:124-141 | the exit block: the sold positions are `to_close`, the firing positions in list order, and the list keeps exactly the survivors |
| LiveBot.Trader.Tick | bot.py:115-141 | the new open positions are the survivors of the list with the tick's entry, the sold positions are those whose exit fired, and the cap is kept |
| Backtest.Closes | backtest.py:27-28 | the close column, one value per candle |
| Backtest.FirstIndex | backtest.py:26 | defined as the loop's first index, `max(bb_period, rsi_period) + lookback_minutes` |
| Backtest.EntrySignal | backtest.py:30-36 | defined as the backtest entry rule: a negative change of at least `drop_pct` in size, a defined RSI at or below the threshold, a close at or below a defined lower band; a NaN indicator fails |
| Backtest.Signals | backtest.py:27-36 | one entry decision per candle, each the entry rule on the closes up to and including that candle |
| Backtest.EnterStep | backtest.py:37-41 | defined as the entry on a signal: a position at the candle's open for `size_usd / open` units, overwriting the slot, and an entry appended to the log |
| Backtest.Profit | backtest.py:50 | defined as `(close - entry_price) * size` |
| Backtest.ExitStep | backtest.py:43-52 | defined as the exit when a position is open and its exit fires: the close logged, the profit added to the capital, the slot emptied |
| Backtest.Step | backtest.py:27-52 | defined as one loop iteration: the entry step, then the exit step on its result |
| Backtest.Replay | backtest.py:22-52 | defined as the state after the loop has run every index from `FirstIndex` below `n`, starting from capital 1000, no position and an empty log |
| Backtest.Backtest | backtest.py:22-52 | defined as the replay over the whole history with the entry rule at every index |
| Backtest.CheckEntry | backtest.py:30-41 | the entry block does what the entry half of the replay step specifies |
| Backtest.CheckExit | backtest.py:43-52 | the exit block does what the exit half of the replay step specifies |
| Backtest.Run | backtest.py:22-52 | the loop from `max(bb_period, rsi_period) + lookback_minutes` to the end ends in the state of the step-by-step replay: entry check, then exit check, at every index in order |
| Backtest.EntriesOf | backtest.py:55 | the entries of the log, all of kind entry and drawn from the log |
| Backtest.ExitsOf | backtest.py:56 | the exits of the log, all of kind exit and drawn from the log |
| Backtest.Summarize | backtest.py:55-58 | defined as the reported entry count, exit count and final capital, the capital before the display rounding |
| Backtest.SummaryCountsEveryTrade | backtest.py:55-56 | entries plus exits count every trade once |
| Backtest.StepAppendsOnly | backtest.py:26-52 | a step only appends to the log, at most two trades, both at the current index, and changes the capital only with an exit |
| Backtest.EntryAtIndex | backtest.py:30-41 | an entry is logged exactly when the entry rule holds, at the candle's open; without an immediate exit the slot then holds that position whatever it held before |
| Backtest.ExitAtIndex | backtest.py:43-52 | on a candle without an entry signal, a firing exit empties the slot, logs the close and adds `(close - entry) * size` to the capital; an entry and an exit on the same candle are covered by `Backtest.ReplayConsistent` |
| Backtest.EnterPreserves | backtest.py:30-41 | the entry block keeps the log ordered, the slot matching the last entry and the capital equal to the profit recomputed from the log |
| Backtest.ExitCapital | backtest.py:48-51 | the profit the exit books is the profit the log records for that exit, so the capital stays 1000 plus the recomputed profit |
| Backtest.ExitPreserves | backtest.py:43-52 | the exit block keeps the same bookkeeping: the profit it books is the profit the log records for its exit |
| Backtest.ExitStepPreserves | backtest.py:43-52 | the exit half of a step, firing or not, keeps the bookkeeping consistent |
| Backtest.StepPreserves | backtest.py:26-52 | one loop iteration keeps the bookkeeping consistent |
| Backtest.ReplayConsistent | backtest.py:22-52 | every replayed state keeps the bookkeeping consistent |
| Backtest.BacktestBookkeeping | backtest.py:22-57 | after the replay the log lies in the visited range in index order, exits never outnumber entries, and the final capital is 1000 plus the profit recomputed from the log |
| Backtest.NoSignalNoTrades | backtest.py:22-52 | without any entry signal the replay makes no trade and leaves the capital at 1000 |
| Backtest.FlatHistoryNoTrades | backtest.py:26-41 | a flat history makes no trade and leaves the capital at 1000 |
| DriverAgreement.BacktestEntryPassesLiveGates | bot.py:46-69 | whenever the backtest enters on a window of closes, the live bot's gates 1 to 3 pass on that same window, so it enters exactly when the imbalance reaches its threshold; the two drivers see different windows in practice (the live bot the last `max(bb_period, rsi_period, lookback_minutes) + 5` closes, `bot.py:31`, the backtest every close so far), and the RSI depends on the window's length |
| DriverAgreement.FlatWindowSeparatesDrivers | bot.py:50-69 | on a flat window the backtest never enters while the live bot enters on a leaning order book |

## Left out

- Exchange access is not modelled: `load_exchange`, fetching candles and the order book, and placing orders. The fetched closes, the order book and the buy's result are parameters of `Trader.Tick`; the sell's result is ignored, as the code ignores it.
- Process concerns are not modelled: logging, reading `config.yaml`, `safe_sleep`, the polling `while True`, the exception handlers and `candles_to_df`. Paper-mode order ids are time-based, so the model takes the order handle as a parameter.
- The `prices` deque is never used by the code.
- Indicators.BollingerBands: the rolling sample standard deviation is an input, because it needs a square root. Its NaN for a one-close window is not modelled.
- Prices are exact reals, not IEEE doubles. Positivity preconditions exclude non-positive prices. A zero price would give infinity or NaN, and a negative past price would flip the sign of `percent_change`.
- LiveBot.Round6: rounds the exact real value, not its binary floating-point representation.
- A negative `depth` and negative periods or caps are not modelled. Depth, periods and the cap are natural numbers, and both indicator periods must be at least 1.
- The live rule's band tolerance 1.0005 is kept as a named constant (`LiveBot.BandTolerance`). The backtest compares against the band exactly. Both are modelled as written.
- The backtest's printed output is display only and is not modelled: `round(capital, 2)` and the first 20 trades.
- The backtest's entry block is specified by the entry rule as a whole (`Backtest.EntrySignal`). The method `Backtest.CheckEntry` follows the three nested tests.
