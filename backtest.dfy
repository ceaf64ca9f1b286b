/** The backtest driver of backtest.py: a replay of a fixed candle history through the
    entry rule (gates 1 to 3, no epsilon, no order book) and the exit rule, with a single
    position slot, a capital accumulator and an append-only trade log. */
module Backtest {
  import opened Wrappers
  import opened Indicators
  import opened Strategy

  const InitialCapital: real := 1000.0

  /** The two fields of a candle the replay reads. */
  datatype Candle = Candle(open: real, close: real)

  datatype TradeKind = EntryTrade | ExitTrade

  /** A trade log record `{type, price, index}`. */
  datatype Trade = Trade(kind: TradeKind, price: real, index: nat)

  /** The open position `{entry_price, size, index}`. */
  datatype Holding = Holding(entryPrice: real, size: real, index: nat)

  /** The three variables the replay loop updates. */
  datatype State = State(capital: real, position: Option<Holding>, trades: seq<Trade>)

  const Initial: State := State(InitialCapital, None, [])

  predicate ValidCandles(candles: seq<Candle>)
  {
    forall i :: 0 <= i < |candles| ==> candles[i].open > 0.0 && candles[i].close > 0.0
  }

  function Closes(candles: seq<Candle>): (s: seq<real>)
    ensures |s| == |candles|
    ensures forall i :: 0 <= i < |s| ==> s[i] == candles[i].close
  {
    seq(|candles|, i requires 0 <= i < |candles| => candles[i].close)
  }

  /** The first index the loop visits: `max(bb_period, rsi_period) + lookback_minutes`. */
  function FirstIndex(cfg: Config): nat
  {
    (if cfg.bbPeriod >= cfg.rsiPeriod then cfg.bbPeriod else cfg.rsiPeriod) + cfg.lookbackMinutes
  }

  /** The backtest entry rule on the closes up to and including the current candle: a real
      drop of at least `drop_pct`, a defined RSI at or below the threshold, and a close at
      or below a defined lower band. A NaN indicator fails its comparison. */
  predicate EntrySignal(cfg: Config, window: seq<real>, windowStd: real)
    requires ValidConfig(cfg) && |window| >= 1 && AllPositive(window)
  {
    var change := PercentChange(window, cfg.lookbackMinutes);
    if !(change < 0.0 && -change >= cfg.dropPct) then false
    else
      var rsi := Rsi(window, cfg.rsiPeriod);
      if !(rsi.Some? && rsi.value <= cfg.rsiThreshold) then false
      else
        var bands := BollingerBands(window, cfg.bbPeriod, cfg.bbStd, windowStd);
        bands.Some? && window[|window| - 1] <= bands.value.lower
  }

  predicate Inputs(cfg: Config, candles: seq<Candle>, stds: seq<real>)
  {
    ValidConfig(cfg) && ValidCandles(candles) && |stds| == |candles|
  }

  /** The closes up to and including candle `i` are all positive. */
  lemma WindowPositive(candles: seq<Candle>, i: nat)
    requires ValidCandles(candles) && i < |candles|
    ensures |Closes(candles)[..i + 1]| == i + 1 && AllPositive(Closes(candles)[..i + 1])
  {
  }

  /** The entry rule at index `i`, on the closes up to and including that index.
      `stds[i]` is the rolling standard deviation of the `bb_period` closes ending at `i`. */
  predicate SignalAt(cfg: Config, candles: seq<Candle>, stds: seq<real>, i: nat)
    requires Inputs(cfg, candles, stds) && i < |candles|
  {
    WindowPositive(candles, i);
    EntrySignal(cfg, Closes(candles)[..i + 1], stds[i])
  }

  /** The entry rule evaluated at every index of the history. */
  function Signals(cfg: Config, candles: seq<Candle>, stds: seq<real>): (sig: seq<bool>)
    requires Inputs(cfg, candles, stds)
    ensures |sig| == |candles|
    ensures forall i :: 0 <= i < |candles| ==> sig[i] == SignalAt(cfg, candles, stds, i)
  {
    seq(|candles|, i requires 0 <= i < |candles| => SignalAt(cfg, candles, stds, i))
  }

  /** The entry half of the loop body for index `i`: on an entry signal, buy at the
      candle's open for `size_usd / open` units, overwriting any open position. */
  function EnterStep(cfg: Config, candles: seq<Candle>, signal: bool, st: State, i: nat): State
    requires ValidCandles(candles) && i < |candles|
  {
    if signal then
      var entryPrice := candles[i].open;
      State(st.capital, Some(Holding(entryPrice, cfg.sizeUsd / entryPrice, i)),
            st.trades + [Trade(EntryTrade, entryPrice, i)])
    else st
  }

  /** The profit of closing `pos` at `close`: `(close - entry_price) * size`. */
  function Profit(pos: Holding, close: real): real
  {
    (close - pos.entryPrice) * pos.size
  }

  /** The exit half of the loop body for index `i`: when a position is open and the close
      reaches its take-profit or stop-loss level, sell at the close and book the profit. */
  function ExitStep(cfg: Config, candles: seq<Candle>, st: State, i: nat): State
    requires i < |candles|
  {
    if st.position.Some? && ExitFires(cfg, st.position.value.entryPrice, candles[i].close) then
      var pos := st.position.value;
      State(st.capital + Profit(pos, candles[i].close), None,
            st.trades + [Trade(ExitTrade, candles[i].close, i)])
    else st
  }

  /** The body of the replay loop for index `i`: the entry check, then the exit check of
      whatever position is open after it. */
  function Step(cfg: Config, candles: seq<Candle>, signals: seq<bool>, st: State, i: nat): State
    requires ValidCandles(candles) && |signals| == |candles| && i < |candles|
  {
    ExitStep(cfg, candles, EnterStep(cfg, candles, signals[i], st, i), i)
  }

  /** The state after the loop has visited every index below `n`, in increasing order,
      starting at `FirstIndex(cfg)`, with the entry signals `signals`. */
  function Replay(cfg: Config, candles: seq<Candle>, signals: seq<bool>, n: nat): State
    requires ValidCandles(candles) && |signals| == |candles| && n <= |candles|
  {
    if n <= FirstIndex(cfg) then Initial
    else Step(cfg, candles, signals, Replay(cfg, candles, signals, n - 1), n - 1)
  }

  /** The state the backtest ends in. */
  function Backtest(cfg: Config, candles: seq<Candle>, stds: seq<real>): State
    requires Inputs(cfg, candles, stds)
  {
    Replay(cfg, candles, Signals(cfg, candles, stds), |candles|)
  }

  /** The entry check of the loop body on the closes up to and including candle `i`:
      gates 1 to 3 in turn, then a buy at the candle's open that overwrites the position
      slot and appends an entry to the log. */
  method CheckEntry(cfg: Config, candles: seq<Candle>, stds: seq<real>, i: nat, window: seq<real>,
                    position0: Option<Holding>, trades0: seq<Trade>)
    returns (position: Option<Holding>, trades: seq<Trade>)
    requires Inputs(cfg, candles, stds) && i < |candles| && window == Closes(candles)[..i + 1]
    ensures forall capital ::
              State(capital, position, trades) ==
              EnterStep(cfg, candles, SignalAt(cfg, candles, stds, i), State(capital, position0, trades0), i)
  {
    position, trades := position0, trades0;
    var change := PercentChange(window, cfg.lookbackMinutes);
    if change < 0.0 && -change >= cfg.dropPct {
      var rsiVal := Rsi(window, cfg.rsiPeriod);
      if rsiVal.Some? && rsiVal.value <= cfg.rsiThreshold {
        var bands := BollingerBands(window, cfg.bbPeriod, cfg.bbStd, stds[i]);
        var price := window[|window| - 1];
        if bands.Some? && price <= bands.value.lower {
          var entryPrice := candles[i].open;
          var size := cfg.sizeUsd / entryPrice;
          position := Some(Holding(entryPrice, size, i));
          trades := trades + [Trade(EntryTrade, entryPrice, i)];
        }
      }
    }
  }

  /** The exit check of the loop body: with a position open, sell at the candle's close
      when it reaches the take-profit or stop-loss level, append the exit and add the
      profit to the capital. */
  method CheckExit(cfg: Config, candles: seq<Candle>, i: nat,
                   capital0: real, position0: Option<Holding>, trades0: seq<Trade>)
    returns (capital: real, position: Option<Holding>, trades: seq<Trade>)
    requires i < |candles|
    ensures State(capital, position, trades) == ExitStep(cfg, candles, State(capital0, position0, trades0), i)
  {
    capital, position, trades := capital0, position0, trades0;
    if position.Some? {
      var currentPrice := candles[i].close;
      var tp := TakeProfitLevel(cfg, position.value.entryPrice);
      var sl := StopLossLevel(cfg, position.value.entryPrice);
      if currentPrice >= tp || currentPrice <= sl {
        trades := trades + [Trade(ExitTrade, currentPrice, i)];
        var pnl := (currentPrice - position.value.entryPrice) * position.value.size;
        capital := capital + pnl;
        position := None;
      }
    }
  }

  /** The replay loop of backtest.py over the whole candle history. */
  method Run(cfg: Config, candles: seq<Candle>, stds: seq<real>)
    returns (capital: real, position: Option<Holding>, trades: seq<Trade>)
    requires Inputs(cfg, candles, stds)
    ensures State(capital, position, trades) == Backtest(cfg, candles, stds)
  {
    capital := InitialCapital;
    position := None;
    trades := [];
    ghost var signals := Signals(cfg, candles, stds);
    var closes := Closes(candles);
    var first := FirstIndex(cfg);
    if first < |candles| {
      assert Replay(cfg, candles, signals, first) == Initial;
      for i := first to |candles|
        invariant State(capital, position, trades) == Replay(cfg, candles, signals, i)
      {
        ghost var before := State(capital, position, trades);
        position, trades := CheckEntry(cfg, candles, stds, i, closes[..i + 1], position, trades);
        capital, position, trades := CheckExit(cfg, candles, i, capital, position, trades);
        assert State(capital, position, trades) == Step(cfg, candles, signals, before, i);
      }
    }
  }

  // ---------------------------------------------------------------------------
  // The summary
  // ---------------------------------------------------------------------------

  /** `[t for t in trades if t["type"] == "entry"]` */
  function EntriesOf(trades: seq<Trade>): (e: seq<Trade>)
    ensures |e| <= |trades|
    ensures forall k :: 0 <= k < |e| ==> e[k].kind == EntryTrade && e[k] in trades
  {
    if |trades| == 0 then []
    else if trades[|trades| - 1].kind == EntryTrade then EntriesOf(trades[..|trades| - 1]) + [trades[|trades| - 1]]
    else EntriesOf(trades[..|trades| - 1])
  }

  /** `[t for t in trades if t["type"] == "exit"]` */
  function ExitsOf(trades: seq<Trade>): (x: seq<Trade>)
    ensures |x| <= |trades|
    ensures forall k :: 0 <= k < |x| ==> x[k].kind == ExitTrade && x[k] in trades
  {
    if |trades| == 0 then []
    else if trades[|trades| - 1].kind == ExitTrade then ExitsOf(trades[..|trades| - 1]) + [trades[|trades| - 1]]
    else ExitsOf(trades[..|trades| - 1])
  }

  /** The reported numbers: entry count, exit count and final capital. */
  datatype Report = Report(entries: nat, exits: nat, capital: real)

  function Summarize(st: State): Report
  {
    Report(|EntriesOf(st.trades)|, |ExitsOf(st.trades)|, st.capital)
  }

  /** Every trade is counted once, as an entry or as an exit. */
  lemma {:induction false} SummaryCountsEveryTrade(trades: seq<Trade>)
    ensures |EntriesOf(trades)| + |ExitsOf(trades)| == |trades|
  {
    if |trades| > 0 {
      SummaryCountsEveryTrade(trades[..|trades| - 1]);
    }
  }

  // ---------------------------------------------------------------------------
  // Profit and loss, recomputed from the trade log
  // ---------------------------------------------------------------------------

  /** The profit of the trade at `k` when it is an exit that closes the entry just before
      it: `(exit - entry) * size_usd / entry`. */
  function ExitPnl(sizeUsd: real, t: seq<Trade>, k: nat): real
    requires k < |t|
  {
    if k > 0 && t[k].kind == ExitTrade && t[k - 1].kind == EntryTrade && t[k - 1].price != 0.0
    then (t[k].price - t[k - 1].price) * (sizeUsd / t[k - 1].price)
    else 0.0
  }

  /** The profit realised by all exits of a log. */
  function RealizedPnl(sizeUsd: real, t: seq<Trade>): real
  {
    if |t| == 0 then 0.0 else RealizedPnl(sizeUsd, t[..|t| - 1]) + ExitPnl(sizeUsd, t, |t| - 1)
  }

  // ---------------------------------------------------------------------------
  // What the replay keeps true
  // ---------------------------------------------------------------------------

  /** Trade indices lie in [lo, hi) and never decrease along the log. */
  predicate IndicesOrdered(t: seq<Trade>, lo: nat, hi: nat)
  {
    && (forall k :: 0 <= k < |t| ==> lo <= t[k].index < hi)
    && (forall a, b :: 0 <= a < b < |t| ==> t[a].index <= t[b].index)
  }

  /** A position is open exactly when the last trade is an entry, and it is that entry. */
  predicate PositionMatchesLog(sizeUsd: real, st: State)
  {
    && (st.position.Some? <==> |st.trades| > 0 && st.trades[|st.trades| - 1].kind == EntryTrade)
    && (st.position.Some? ==>
          var h, last := st.position.value, st.trades[|st.trades| - 1];
          h.entryPrice == last.price && h.index == last.index && h.entryPrice > 0.0
          && h.size == sizeUsd / h.entryPrice)
  }

  predicate Consistent(cfg: Config, st: State, n: nat)
  {
    && IndicesOrdered(st.trades, FirstIndex(cfg), n)
    && PositionMatchesLog(cfg.sizeUsd, st)
    && |ExitsOf(st.trades)| + (if st.position.Some? then 1 else 0) <= |EntriesOf(st.trades)|
    && st.capital == InitialCapital + RealizedPnl(cfg.sizeUsd, st.trades)
  }

  /** One step keeps the log append-only, adds at most an entry and an exit, both at the
      current index, and changes the capital only together with an exit. */
  lemma StepAppendsOnly(cfg: Config, candles: seq<Candle>, signals: seq<bool>, st: State, i: nat)
    requires ValidCandles(candles) && |signals| == |candles| && i < |candles|
    ensures var st' := Step(cfg, candles, signals, st, i);
      && |st.trades| <= |st'.trades| <= |st.trades| + 2
      && st'.trades[..|st.trades|] == st.trades
      && (forall k :: |st.trades| <= k < |st'.trades| ==> st'.trades[k].index == i)
      && (st'.capital != st.capital ==> st'.trades[|st'.trades| - 1].kind == ExitTrade)
  {
  }

  /** An entry is logged at index `i` exactly when the entry rule holds on the closes up to
      `i`; it is bought at the candle's open for `size_usd / open` units, replacing any
      position still open, which is dropped without an exit record. */
  lemma EntryAtIndex(cfg: Config, candles: seq<Candle>, stds: seq<real>, st: State, i: nat)
    requires Inputs(cfg, candles, stds) && i < |candles|
    ensures var st' := Step(cfg, candles, Signals(cfg, candles, stds), st, i);
      var signal := SignalAt(cfg, candles, stds, i);
      && (|st'.trades| > |st.trades| && st'.trades[|st.trades|].kind == EntryTrade <==> signal)
      && (signal ==> st'.trades[|st.trades|] == Trade(EntryTrade, candles[i].open, i))
      && (signal && !ExitFires(cfg, candles[i].open, candles[i].close) ==>
            st'.position == Some(Holding(candles[i].open, cfg.sizeUsd / candles[i].open, i))
            && st'.trades == st.trades + [Trade(EntryTrade, candles[i].open, i)]
            && st'.capital == st.capital)
  {
  }

  /** Without an entry signal, a firing exit closes the open position at the candle's
      close and adds `(close - entry) * size` to the capital. */
  lemma ExitAtIndex(cfg: Config, candles: seq<Candle>, signals: seq<bool>, st: State, i: nat)
    requires ValidCandles(candles) && |signals| == |candles| && i < |candles| && !signals[i]
    requires st.position.Some? && ExitFires(cfg, st.position.value.entryPrice, candles[i].close)
    ensures var st', h := Step(cfg, candles, signals, st, i), st.position.value;
      && st'.position == None
      && st'.trades == st.trades + [Trade(ExitTrade, candles[i].close, i)]
      && st'.capital == st.capital + (candles[i].close - h.entryPrice) * h.size
  {
  }

  lemma RealizedPnlAppend(sizeUsd: real, t: seq<Trade>, x: Trade)
    ensures RealizedPnl(sizeUsd, t + [x]) == RealizedPnl(sizeUsd, t) + ExitPnl(sizeUsd, t + [x], |t|)
  {
    assert (t + [x])[..|t|] == t;
  }

  lemma EntriesExitsAppend(t: seq<Trade>, x: Trade)
    ensures EntriesOf(t + [x]) == EntriesOf(t) + (if x.kind == EntryTrade then [x] else [])
    ensures ExitsOf(t + [x]) == ExitsOf(t) + (if x.kind == ExitTrade then [x] else [])
  {
    assert (t + [x])[..|t|] == t;
  }

  lemma IndicesAppend(t: seq<Trade>, lo: nat, x: Trade)
    requires IndicesOrdered(t, lo, x.index + 1) && lo <= x.index
    ensures IndicesOrdered(t + [x], lo, x.index + 1)
  {
  }

  /** An exit appended right after an entry records `(exit - entry) * size_usd / entry`. */
  lemma ExitPnlAfterEntry(sizeUsd: real, t: seq<Trade>, x: Trade)
    requires |t| > 0 && t[|t| - 1].kind == EntryTrade && t[|t| - 1].price != 0.0 && x.kind == ExitTrade
    ensures ExitPnl(sizeUsd, t + [x], |t|) == (x.price - t[|t| - 1].price) * (sizeUsd / t[|t| - 1].price)
  {
    assert (t + [x])[|t| - 1] == t[|t| - 1];
  }

  /** The entry half of a step keeps the bookkeeping consistent. */
  lemma EnterPreserves(cfg: Config, candles: seq<Candle>, signal: bool, st: State, i: nat)
    requires ValidCandles(candles) && i < |candles| && FirstIndex(cfg) <= i
    requires Consistent(cfg, st, i)
    ensures Consistent(cfg, EnterStep(cfg, candles, signal, st, i), i + 1)
  {
    if signal {
      var x := Trade(EntryTrade, candles[i].open, i);
      IndicesAppend(st.trades, FirstIndex(cfg), x);
      RealizedPnlAppend(cfg.sizeUsd, st.trades, x);
      EntriesExitsAppend(st.trades, x);
    }
  }

  /** Closing the open position at `close` books exactly the profit the log then records
      for the exit. */
  lemma ExitCapital(sizeUsd: real, st: State, close: real, i: nat)
    requires PositionMatchesLog(sizeUsd, st) && st.position.Some?
    requires st.capital == InitialCapital + RealizedPnl(sizeUsd, st.trades)
    ensures st.capital + Profit(st.position.value, close)
              == InitialCapital + RealizedPnl(sizeUsd, st.trades + [Trade(ExitTrade, close, i)])
  {
    var pos, t := st.position.value, st.trades;
    var x := Trade(ExitTrade, close, i);
    RealizedPnlAppend(sizeUsd, t, x);
    ExitPnlAfterEntry(sizeUsd, t, x);
    assert pos.entryPrice == t[|t| - 1].price && pos.size == sizeUsd / t[|t| - 1].price;
  }

  lemma ExitKeepsCounts(t: seq<Trade>, x: Trade)
    requires |ExitsOf(t)| + 1 <= |EntriesOf(t)| && x.kind == ExitTrade
    ensures |ExitsOf(t + [x])| <= |EntriesOf(t + [x])|
  {
    EntriesExitsAppend(t, x);
  }

  /** Closing the open position at `close` keeps the bookkeeping consistent. */
  lemma ExitPreserves(cfg: Config, st: State, close: real, i: nat)
    requires FirstIndex(cfg) <= i && Consistent(cfg, st, i + 1) && st.position.Some?
    ensures Consistent(cfg, State(st.capital + Profit(st.position.value, close), None,
                                  st.trades + [Trade(ExitTrade, close, i)]), i + 1)
  {
    var t := st.trades;
    var x := Trade(ExitTrade, close, i);
    IndicesAppend(t, FirstIndex(cfg), x);
    ExitKeepsCounts(t, x);
    ExitCapital(cfg.sizeUsd, st, close, i);
  }

  /** The exit half of a step keeps the bookkeeping consistent. */
  lemma ExitStepPreserves(cfg: Config, candles: seq<Candle>, st: State, i: nat)
    requires i < |candles| && FirstIndex(cfg) <= i && Consistent(cfg, st, i + 1)
    ensures Consistent(cfg, ExitStep(cfg, candles, st, i), i + 1)
  {
    if st.position.Some? && ExitFires(cfg, st.position.value.entryPrice, candles[i].close) {
      ExitPreserves(cfg, st, candles[i].close, i);
    }
  }

  /** A whole step of the loop keeps the bookkeeping consistent. */
  lemma StepPreserves(cfg: Config, candles: seq<Candle>, signals: seq<bool>, st: State, i: nat)
    requires ValidCandles(candles) && |signals| == |candles| && i < |candles| && FirstIndex(cfg) <= i
    requires Consistent(cfg, st, i)
    ensures Consistent(cfg, Step(cfg, candles, signals, st, i), i + 1)
  {
    EnterPreserves(cfg, candles, signals[i], st, i);
    ExitStepPreserves(cfg, candles, EnterStep(cfg, candles, signals[i], st, i), i);
  }

  /** Whatever the entry signals, every state the replay reaches keeps its bookkeeping
      consistent. */
  lemma {:induction false} ReplayConsistent(cfg: Config, candles: seq<Candle>, signals: seq<bool>, n: nat)
    requires ValidCandles(candles) && |signals| == |candles| && n <= |candles|
    ensures Consistent(cfg, Replay(cfg, candles, signals, n), n)
  {
    if n > FirstIndex(cfg) {
      var prev := Replay(cfg, candles, signals, n - 1);
      ReplayConsistent(cfg, candles, signals, n - 1);
      StepPreserves(cfg, candles, signals, prev, n - 1);
      assert Replay(cfg, candles, signals, n) == Step(cfg, candles, signals, prev, n - 1);
    }
  }

  /** After the backtest: the log lies in the visited range in index order, exits never
      outnumber entries, every trade is counted once, and the final capital is the initial
      capital plus the profit recomputed from the log. */
  lemma BacktestBookkeeping(cfg: Config, candles: seq<Candle>, stds: seq<real>)
    requires Inputs(cfg, candles, stds)
    ensures var st := Backtest(cfg, candles, stds);
      && IndicesOrdered(st.trades, FirstIndex(cfg), |candles|)
      && Summarize(st).exits <= Summarize(st).entries
      && Summarize(st).entries + Summarize(st).exits == |st.trades|
      && st.capital == InitialCapital + RealizedPnl(cfg.sizeUsd, st.trades)
  {
    var st := Backtest(cfg, candles, stds);
    ReplayConsistent(cfg, candles, Signals(cfg, candles, stds), |candles|);
    SummaryCountsEveryTrade(st.trades);
  }

  /** Without any entry signal the replay makes no trade. */
  lemma {:induction false} NoSignalNoTrades(cfg: Config, candles: seq<Candle>, signals: seq<bool>, n: nat)
    requires ValidCandles(candles) && |signals| == |candles| && n <= |candles|
    requires forall i :: 0 <= i < |signals| ==> !signals[i]
    ensures Replay(cfg, candles, signals, n) == Initial
  {
    if n > FirstIndex(cfg) {
      NoSignalNoTrades(cfg, candles, signals, n - 1);
    }
  }

  /** When every close is the same price there is never a drop, so the backtest makes no
      trade and ends with the initial capital. */
  lemma FlatHistoryNoTrades(cfg: Config, candles: seq<Candle>, stds: seq<real>, c: real)
    requires Inputs(cfg, candles, stds)
    requires forall i :: 0 <= i < |candles| ==> candles[i].close == c
    ensures Backtest(cfg, candles, stds) == Initial
    ensures Summarize(Backtest(cfg, candles, stds)) == Report(0, 0, InitialCapital)
  {
    var signals := Signals(cfg, candles, stds);
    forall i | 0 <= i < |candles|
      ensures !signals[i]
    {
      assert c > 0.0 by {
        assert candles[i].close == c;
      }
      PercentChangeOfConstant(Closes(candles)[..i + 1], c, cfg.lookbackMinutes);
    }
    NoSignalNoTrades(cfg, candles, signals, |candles|);
  }
}
