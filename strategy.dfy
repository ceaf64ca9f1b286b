/** The strategy configuration both drivers read (bot.py and backtest.py load the same
    config file) and the take-profit / stop-loss rule they both apply. */
module Strategy {

  /** The recognised options of the `entry`, `position` and `exit` sections. */
  datatype Config = Config(
    lookbackMinutes: nat,
    dropPct: real,
    rsiPeriod: nat,
    rsiThreshold: real,
    bbPeriod: nat,
    bbStd: real,
    obImbalanceThreshold: real,
    sizeUsd: real,
    maxConcurrentPositions: nat,
    takeProfitPct: real,
    stopLossPct: real)

  /** Both indicator periods are positive: `1/period` and `rolling(period)` need it. */
  predicate ValidConfig(cfg: Config)
  {
    cfg.rsiPeriod >= 1 && cfg.bbPeriod >= 1
  }

  /** `entry * (1 + take_profit_pct / 100)` */
  function TakeProfitLevel(cfg: Config, entry: real): real
  {
    entry * (1.0 + cfg.takeProfitPct / 100.0)
  }

  /** `entry * (1 + stop_loss_pct / 100)` */
  function StopLossLevel(cfg: Config, entry: real): real
  {
    entry * (1.0 + cfg.stopLossPct / 100.0)
  }

  /** A position bought at `entry` is closed at `price` when either level is reached. */
  predicate ExitFires(cfg: Config, entry: real, price: real)
  {
    price >= TakeProfitLevel(cfg, entry) || price <= StopLossLevel(cfg, entry)
  }

  /** With a positive take-profit and a negative stop-loss, a position is never closed at
      its own entry price: the stop-loss level lies below it and the take-profit level above. */
  lemma ExitBand(cfg: Config, entry: real)
    requires entry > 0.0 && cfg.takeProfitPct > 0.0 && cfg.stopLossPct < 0.0
    ensures StopLossLevel(cfg, entry) < entry < TakeProfitLevel(cfg, entry)
    ensures !ExitFires(cfg, entry, entry)
  {
    assert entry * (cfg.takeProfitPct / 100.0) > 0.0;
    assert entry * (cfg.stopLossPct / 100.0) < 0.0;
  }

  /** Entry 100, take-profit 5 %, stop-loss -3 %: exits at 105 and above and at 97 and
      below, holds at 102. */
  lemma ExitExample(cfg: Config)
    requires cfg.takeProfitPct == 5.0 && cfg.stopLossPct == -3.0
    ensures TakeProfitLevel(cfg, 100.0) == 105.0 && StopLossLevel(cfg, 100.0) == 97.0
    ensures ExitFires(cfg, 100.0, 105.0) && ExitFires(cfg, 100.0, 106.0)
    ensures ExitFires(cfg, 100.0, 97.0) && ExitFires(cfg, 100.0, 90.0)
    ensures !ExitFires(cfg, 100.0, 102.0)
  {
  }
}
