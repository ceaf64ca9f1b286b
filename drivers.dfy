/** How the two drivers' entry rules relate. Both read the same configuration and the same
    indicators, but the live rule (bot.py) phrases gate 1 differently, lets NaN indicators
    through, widens the band by a tolerance and adds the order-book gate. */
module DriverAgreement {
  import opened Wrappers
  import opened Indicators
  import opened OrderBook
  import opened Strategy
  import opened LiveBot
  import Backtest

  /** Whenever the backtest would enter on a window of closes, the live bot's first three
      gates pass on the same window, so only the order book can still stop it. In practice
      the windows differ: the live bot fetches the last `max(bb_period, rsi_period,
      lookback_minutes) + 5` closes, while the backtest window grows with the candle index,
      and the adjusted exponential average behind the RSI depends on the window's length. */
  lemma BacktestEntryPassesLiveGates(cfg: Config, closes: seq<real>, windowStd: real, book: Book)
    requires ValidConfig(cfg) && |closes| >= 1 && AllPositive(closes)
    requires Backtest.EntrySignal(cfg, closes, windowStd)
    ensures var d := CanEnter(cfg, closes, windowStd, book);
      d.Enter? || (d.Reject? && d.reason.ImbalanceLow?)
    ensures CanEnter(cfg, closes, windowStd, book).Enter? <==>
      Imbalance(book, BookDepth) >= cfg.obImbalanceThreshold
  {
    var lower := LowerBand(cfg, closes, windowStd);
    var price := closes[|closes| - 1];
    assert lower.Some? && price <= lower.value;
    assert price > 0.0;
    assert lower.value * BandTolerance >= lower.value;
  }

  /** The converse fails: on a flat window the backtest never enters, while the live bot
      enters as soon as the order book leans enough to the bid side. */
  lemma FlatWindowSeparatesDrivers(cfg: Config, closes: seq<real>, c: real, book: Book)
    requires ValidConfig(cfg) && |closes| >= 1 && c > 0.0 && Constant(closes, c)
    requires Imbalance(book, BookDepth) >= cfg.obImbalanceThreshold
    ensures !Backtest.EntrySignal(cfg, closes, 0.0)
    ensures CanEnter(cfg, closes, 0.0, book).Enter?
  {
    PercentChangeOfConstant(closes, c, cfg.lookbackMinutes);
    FlatMarketDecidedByBook(cfg, closes, c, book);
  }
}
