/** The live driver of bot.py: the four-gate entry decision `can_enter`, order sizing,
    and the bookkeeping of open positions done once per polling tick by `main_loop`.
    Candles, the order book and order outcomes are inputs: the exchange is not modelled. */
module LiveBot {
  import opened Wrappers
  import opened Indicators
  import opened OrderBook
  import opened Strategy

  /** Levels per side the imbalance looks at (`depth=10`). */
  const BookDepth: nat := 10

  /** A close up to 0.05 % above the lower band still counts as touching it. */
  const BandTolerance: real := 1.0005

  // ---------------------------------------------------------------------------
  // The entry decision
  // ---------------------------------------------------------------------------

  /** Why `can_enter` said no: the first gate that failed, with its diagnostic value. */
  datatype Reason =
    | NotDrop(change: real)
    | RsiNotLow(rsi: real)
    | NotTouchingBb(price: real, bbLower: real)
    | ImbalanceLow(imbalance: real)

  /** The metadata of a positive decision; `None` stands for a NaN indicator value. */
  datatype EntryMeta = EntryMeta(dropPct: real, rsi: Option<real>, imbalance: real, price: real, bbLower: Option<real>)

  datatype Decision = Reject(reason: Reason) | Enter(meta: EntryMeta)

  /** The percent change over `lookback_minutes`. */
  function Change(cfg: Config, closes: seq<real>): real
    requires AllPositive(closes)
  {
    PercentChange(closes, cfg.lookbackMinutes)
  }

  /** Gate 1 as written: rejects exactly when the change is positive and above
      `-drop_pct`; with a non-negative `drop_pct` that is every rise, while a flat or falling
      window passes whatever the size of the drop. */
  predicate DropGateRejects(change: real, dropPct: real)
  {
    change * -1.0 < dropPct && change > 0.0
  }

  /** Gate 2: a NaN RSI compares false and passes. */
  predicate RsiGateRejects(rsi: Option<real>, threshold: real)
  {
    rsi.Some? && rsi.value > threshold
  }

  /** The lower Bollinger band at the latest close, `None` while it is NaN. */
  function LowerBand(cfg: Config, closes: seq<real>, windowStd: real): Option<real>
    requires ValidConfig(cfg)
  {
    var bands := BollingerBands(closes, cfg.bbPeriod, cfg.bbStd, windowStd);
    if bands.Some? then Some(bands.value.lower) else None
  }

  /** Gate 3: a NaN lower band compares false and passes. */
  predicate BandGateRejects(price: real, lower: Option<real>)
  {
    lower.Some? && price > lower.value * BandTolerance
  }

  /** Gate 4. */
  predicate ImbalanceGateRejects(imbalance: real, threshold: real)
  {
    imbalance < threshold
  }

  /** `can_enter(df)`: the gates run in order and the first one that fails decides the
      reason; the order book (fetched by the caller) is looked at only by gate 4.
      `windowStd` is the rolling standard deviation of the last `bb_period` closes. */
  function CanEnter(cfg: Config, closes: seq<real>, windowStd: real, book: Book): (d: Decision)
    requires ValidConfig(cfg) && |closes| >= 1 && AllPositive(closes)
    ensures
      var g1 := DropGateRejects(Change(cfg, closes), cfg.dropPct);
      var g2 := RsiGateRejects(Rsi(closes, cfg.rsiPeriod), cfg.rsiThreshold);
      var g3 := BandGateRejects(closes[|closes| - 1], LowerBand(cfg, closes, windowStd));
      var g4 := ImbalanceGateRejects(Imbalance(book, BookDepth), cfg.obImbalanceThreshold);
      && (d.Enter? <==> !g1 && !g2 && !g3 && !g4)
      && (d.Reject? && d.reason.NotDrop? <==> g1)
      && (d.Reject? && d.reason.RsiNotLow? <==> !g1 && g2)
      && (d.Reject? && d.reason.NotTouchingBb? <==> !g1 && !g2 && g3)
      && (d.Reject? && d.reason.ImbalanceLow? <==> !g1 && !g2 && !g3 && g4)
    ensures d.Enter? ==>
      && d.meta.dropPct == -Change(cfg, closes)
      && d.meta.price == closes[|closes| - 1]
      && d.meta.imbalance == Imbalance(book, BookDepth)
      && d.meta.imbalance >= cfg.obImbalanceThreshold
  {
    var change := Change(cfg, closes);
    if DropGateRejects(change, cfg.dropPct) then Reject(NotDrop(change))
    else
      var dropActual := -change;
      var rsiVal := Rsi(closes, cfg.rsiPeriod);
      if RsiGateRejects(rsiVal, cfg.rsiThreshold) then Reject(RsiNotLow(rsiVal.value))
      else
        var price := closes[|closes| - 1];
        var bbLower := LowerBand(cfg, closes, windowStd);
        if BandGateRejects(price, bbLower) then Reject(NotTouchingBb(price, bbLower.value))
        else
          var imb := Imbalance(book, BookDepth);
          if ImbalanceGateRejects(imb, cfg.obImbalanceThreshold) then Reject(ImbalanceLow(imb))
          else Enter(EntryMeta(dropActual, rsiVal, imb, price, bbLower))
  }

  /** Gate 1 never rejects a flat or falling window; with a non-negative `drop_pct` it
      rejects exactly the rising ones, so the size of a drop is never checked. */
  lemma DropGateAsWritten(cfg: Config, closes: seq<real>, windowStd: real, book: Book)
    requires ValidConfig(cfg) && |closes| >= 1 && AllPositive(closes)
    ensures var d := CanEnter(cfg, closes, windowStd, book);
      Change(cfg, closes) <= 0.0 ==> !(d.Reject? && d.reason.NotDrop?)
    ensures var d := CanEnter(cfg, closes, windowStd, book);
      cfg.dropPct >= 0.0 ==>
        ((d.Reject? && d.reason.NotDrop?) <==>
           (|closes| >= cfg.lookbackMinutes + 1 && closes[|closes| - 1] > closes[|closes| - 1 - cfg.lookbackMinutes]))
  {
  }

  /** With fewer than `lookback + 1` closes the sentinel 0.0 passes gate 1. */
  lemma ShortHistoryPassesDropGate(cfg: Config, closes: seq<real>, windowStd: real, book: Book)
    requires ValidConfig(cfg) && 1 <= |closes| < cfg.lookbackMinutes + 1 && AllPositive(closes)
    ensures var d := CanEnter(cfg, closes, windowStd, book); !(d.Reject? && d.reason.NotDrop?)
  {
  }

  /** The order book is consulted only once gates 1 to 3 have passed: a rejection by one
      of them is the same whatever the book holds. */
  lemma BookConsultedLast(cfg: Config, closes: seq<real>, windowStd: real, book1: Book, book2: Book)
    requires ValidConfig(cfg) && |closes| >= 1 && AllPositive(closes)
    requires var d := CanEnter(cfg, closes, windowStd, book1); d.Reject? && !d.reason.ImbalanceLow?
    ensures CanEnter(cfg, closes, windowStd, book1) == CanEnter(cfg, closes, windowStd, book2)
  {
  }

  /** On a flat market (every close equal, so a zero standard deviation) gates 1 to 3
      all pass and the order book alone decides the entry. */
  lemma FlatMarketDecidedByBook(cfg: Config, closes: seq<real>, c: real, book: Book)
    requires ValidConfig(cfg) && |closes| >= 1 && c > 0.0 && Constant(closes, c)
    ensures CanEnter(cfg, closes, 0.0, book).Enter? <==> Imbalance(book, BookDepth) >= cfg.obImbalanceThreshold
  {
    PercentChangeOfConstant(closes, c, cfg.lookbackMinutes);
    RsiOfConstantSeries(closes, c, cfg.rsiPeriod);
    if |closes| >= cfg.bbPeriod {
      MiddleBandBetween(closes, cfg.bbPeriod, cfg.bbStd, 0.0, c, c);
      assert LowerBand(cfg, closes, 0.0) == Some(c);
    }
  }

  // ---------------------------------------------------------------------------
  // Sizing
  // ---------------------------------------------------------------------------

  const Scale: real := 1000000.0

  /** Python's `round(x, 6)` on an exact value: to the nearest multiple of 10^-6, ties to
      the even multiple. The three ensures together determine the result. */
  function Round6(x: real): (r: real)
    ensures -0.0000005 <= r - x <= 0.0000005
    ensures (r * Scale).Floor as real == r * Scale
    ensures r - x == 0.0000005 || x - r == 0.0000005 ==> (r * Scale).Floor % 2 == 0
  {
    var y := x * Scale;
    var f := y.Floor;
    var frac := y - f as real;
    var n := if frac < 0.5 then f else if frac > 0.5 then f + 1 else if f % 2 == 0 then f else f + 1;
    assert -0.5 <= n as real - y <= 0.5;
    assert (n as real / Scale) * Scale == n as real;
    n as real / Scale
  }

  /** Any whole number of millionths within half a millionth of `x`, and even on a tie, is
      `Round6(x)`: the contract of `Round6` fixes its result. */
  lemma Round6Unique(x: real, r: real)
    requires -0.0000005 <= r - x <= 0.0000005
    requires (r * Scale).Floor as real == r * Scale
    requires r - x == 0.0000005 || x - r == 0.0000005 ==> (r * Scale).Floor % 2 == 0
    ensures r == Round6(x)
  {
    var q := Round6(x);
    var a, b := (r * Scale).Floor, (q * Scale).Floor;
    assert -0.5 <= a as real - x * Scale <= 0.5;
    assert -0.5 <= b as real - x * Scale <= 0.5;
    assert a == b;
    assert r * Scale == q * Scale;
  }

  /** A value that already has at most six decimals is left unchanged. */
  lemma Round6Exact(x: real, k: int)
    requires x * Scale == k as real
    ensures Round6(x) == x
  {
  }

  /** `size_for_order(price)`: `size_usd / price` rounded to six decimals. */
  function SizeForOrder(cfg: Config, price: real): (size: real)
    requires price > 0.0
    ensures -0.0000005 <= size - cfg.sizeUsd / price <= 0.0000005
    ensures (size * Scale).Floor as real == size * Scale
  {
    Round6(cfg.sizeUsd / price)
  }

  /** 1000 USD at a price of 50 buys exactly 20 units. */
  lemma SizeExample(cfg: Config)
    requires cfg.sizeUsd == 1000.0
    ensures SizeForOrder(cfg, 50.0) == 20.0
  {
    Round6Exact(20.0, 20000000);
  }

  // ---------------------------------------------------------------------------
  // Open positions
  // ---------------------------------------------------------------------------

  /** The order handle a successful market buy returns. */
  datatype Order = Order(id: string)

  /** An entry of `open_positions`. */
  datatype Position = Position(entryPrice: real, size: real, order: Order)

  predicate Fires(cfg: Config, p: Position, last: real)
  {
    ExitFires(cfg, p.entryPrice, last)
  }

  /** The positions whose exit fires at `last`, in list order (`to_close`). */
  function Closing(cfg: Config, ps: seq<Position>, last: real): (c: seq<Position>)
    ensures |c| <= |ps|
    ensures forall i :: 0 <= i < |c| ==> Fires(cfg, c[i], last)
  {
    if |ps| == 0 then []
    else if Fires(cfg, ps[0], last) then [ps[0]] + Closing(cfg, ps[1..], last)
    else Closing(cfg, ps[1..], last)
  }

  /** The positions whose exit does not fire at `last`, in list order. */
  function Survivors(cfg: Config, ps: seq<Position>, last: real): (s: seq<Position>)
    ensures |s| <= |ps|
    ensures forall i :: 0 <= i < |s| ==> !Fires(cfg, s[i], last)
  {
    if |ps| == 0 then []
    else if Fires(cfg, ps[0], last) then Survivors(cfg, ps[1..], last)
    else [ps[0]] + Survivors(cfg, ps[1..], last)
  }

  /** `list.remove(p)`: drops the first element equal to `p`. */
  function RemoveFirst(ps: seq<Position>, p: Position): (r: seq<Position>)
    requires p in ps
    ensures |r| == |ps| - 1
    ensures multiset(r) == multiset(ps) - multiset{p}
  {
    assert ps == [ps[0]] + ps[1..];
    if ps[0] == p then ps[1..] else [ps[0]] + RemoveFirst(ps[1..], p)
  }

  /** `ps` with its first `j` firing positions taken out: the list after `j` removals. */
  function DropFiring(cfg: Config, ps: seq<Position>, j: nat, last: real): seq<Position>
  {
    if |ps| == 0 then []
    else if Fires(cfg, ps[0], last) && j > 0 then DropFiring(cfg, ps[1..], j - 1, last)
    else [ps[0]] + DropFiring(cfg, ps[1..], j, last)
  }

  /** Putting `x` in front of either part of a split of `rest` splits `[x] + rest`. */
  lemma SplitCons(x: Position, c: seq<Position>, s: seq<Position>, rest: seq<Position>)
    requires multiset(c) + multiset(s) == multiset(rest)
    ensures multiset([x] + c) + multiset(s) == multiset([x] + rest)
    ensures multiset(c) + multiset([x] + s) == multiset([x] + rest)
  {
    assert multiset([x] + c) == multiset{x} + multiset(c);
    assert multiset([x] + s) == multiset{x} + multiset(s);
    assert multiset([x] + rest) == multiset{x} + multiset(rest);
  }

  lemma {:induction false} ClosingSurvivorsMultiset(cfg: Config, ps: seq<Position>, last: real)
    ensures multiset(Closing(cfg, ps, last)) + multiset(Survivors(cfg, ps, last)) == multiset(ps)
  {
    if |ps| > 0 {
      var x, rest := ps[0], ps[1..];
      ClosingSurvivorsMultiset(cfg, rest, last);
      assert ps == [x] + rest;
      SplitCons(x, Closing(cfg, rest, last), Survivors(cfg, rest, last), rest);
    }
  }

  /** Every position is closing or surviving, never both. */
  lemma ClosingSurvivorsPartition(cfg: Config, ps: seq<Position>, last: real)
    ensures multiset(Closing(cfg, ps, last)) + multiset(Survivors(cfg, ps, last)) == multiset(ps)
    ensures |Closing(cfg, ps, last)| + |Survivors(cfg, ps, last)| == |ps|
  {
    var c, s := Closing(cfg, ps, last), Survivors(cfg, ps, last);
    ClosingSurvivorsMultiset(cfg, ps, last);
    assert |multiset(c) + multiset(s)| == |multiset(ps)|;
  }

  /** A position is sold exactly when it is open and its exit fires. */
  lemma {:induction false} ClosingMembership(cfg: Config, ps: seq<Position>, last: real, p: Position)
    ensures p in Closing(cfg, ps, last) <==> p in ps && Fires(cfg, p, last)
  {
    if |ps| > 0 {
      ClosingMembership(cfg, ps[1..], last, p);
      assert ps == [ps[0]] + ps[1..];
    }
  }

  /** A position survives the tick exactly when it is open and its exit does not fire. */
  lemma {:induction false} SurvivorsMembership(cfg: Config, ps: seq<Position>, last: real, p: Position)
    ensures p in Survivors(cfg, ps, last) <==> p in ps && !Fires(cfg, p, last)
  {
    if |ps| > 0 {
      SurvivorsMembership(cfg, ps[1..], last, p);
      assert ps == [ps[0]] + ps[1..];
    }
  }

  lemma {:induction false} ClosingAppend(cfg: Config, ps: seq<Position>, p: Position, last: real)
    ensures Closing(cfg, ps + [p], last) == Closing(cfg, ps, last) + (if Fires(cfg, p, last) then [p] else [])
  {
    if |ps| > 0 {
      ClosingAppend(cfg, ps[1..], p, last);
      assert (ps + [p])[1..] == ps[1..] + [p];
    }
  }

  lemma {:induction false} SurvivorsAppend(cfg: Config, ps: seq<Position>, p: Position, last: real)
    ensures Survivors(cfg, ps + [p], last) == Survivors(cfg, ps, last) + (if Fires(cfg, p, last) then [] else [p])
  {
    if |ps| > 0 {
      SurvivorsAppend(cfg, ps[1..], p, last);
      assert (ps + [p])[1..] == ps[1..] + [p];
    }
  }

  lemma {:induction false} DropFiringNone(cfg: Config, ps: seq<Position>, last: real)
    ensures DropFiring(cfg, ps, 0, last) == ps
  {
    if |ps| > 0 {
      DropFiringNone(cfg, ps[1..], last);
    }
  }

  lemma {:induction false} DropFiringAll(cfg: Config, ps: seq<Position>, last: real)
    ensures DropFiring(cfg, ps, |Closing(cfg, ps, last)|, last) == Survivors(cfg, ps, last)
  {
    if |ps| > 0 {
      DropFiringAll(cfg, ps[1..], last);
    }
  }

  /** Removing the next closing position, by value, from the list as it stands after `j`
      removals takes out exactly that position: no earlier element equals it, since an
      equal surviving position would fire as well. */
  lemma {:induction false} DropFiringStep(cfg: Config, ps: seq<Position>, j: nat, last: real)
    requires j < |Closing(cfg, ps, last)|
    ensures Closing(cfg, ps, last)[j] in DropFiring(cfg, ps, j, last)
    ensures RemoveFirst(DropFiring(cfg, ps, j, last), Closing(cfg, ps, last)[j]) == DropFiring(cfg, ps, j + 1, last)
  {
    var x, rest := ps[0], ps[1..];
    if Fires(cfg, x, last) && j > 0 {
      DropFiringStep(cfg, rest, j - 1, last);
    } else if Fires(cfg, x, last) {
      DropFiringNone(cfg, ps, last);
      DropFiringNone(cfg, rest, last);
    } else {
      DropFiringStep(cfg, rest, j, last);
    }
  }

  /** The position opened this tick, if any: only on a positive decision, below the cap,
      and when the buy returned an order; it is bought at the last close. */
  function Opened(cfg: Config, count: nat, closes: seq<real>, windowStd: real, book: Book, buy: Option<Order>): Option<Position>
    requires ValidConfig(cfg) && |closes| >= 1 && AllPositive(closes)
  {
    var price := closes[|closes| - 1];
    if CanEnter(cfg, closes, windowStd, book).Enter? && count < cfg.maxConcurrentPositions && buy.Some?
    then Some(Position(price, SizeForOrder(cfg, price), buy.value))
    else None
  }

  /** The open positions after the entry step of a tick. */
  function WithEntry(cfg: Config, before: seq<Position>, closes: seq<real>, windowStd: real, book: Book, buy: Option<Order>): seq<Position>
    requires ValidConfig(cfg) && |closes| >= 1 && AllPositive(closes)
  {
    var entry := Opened(cfg, |before|, closes, windowStd, book, buy);
    before + if entry.Some? then [entry.value] else []
  }

  /** The open positions after a whole tick: the exit step keeps the survivors. */
  function AfterTick(cfg: Config, before: seq<Position>, closes: seq<real>, windowStd: real, book: Book, buy: Option<Order>): seq<Position>
    requires ValidConfig(cfg) && |closes| >= 1 && AllPositive(closes)
  {
    Survivors(cfg, WithEntry(cfg, before, closes, windowStd, book, buy), closes[|closes| - 1])
  }

  /** A tick appends at most one position, and only a position bought at the last close
      after a positive decision, below the cap and with a filled buy. */
  lemma TickOpensAtMostOne(cfg: Config, before: seq<Position>, closes: seq<real>, windowStd: real, book: Book, buy: Option<Order>)
    requires ValidConfig(cfg) && |closes| >= 1 && AllPositive(closes)
    ensures var w := WithEntry(cfg, before, closes, windowStd, book, buy);
      && w[..|before|] == before
      && |before| <= |w| <= |before| + 1
      && (|w| == |before| + 1 <==>
            CanEnter(cfg, closes, windowStd, book).Enter? && |before| < cfg.maxConcurrentPositions && buy.Some?)
      && (|w| == |before| + 1 ==>
            w[|before|] == Position(closes[|closes| - 1], SizeForOrder(cfg, closes[|closes| - 1]), buy.value))
  {
  }

  /** Repeated ticks never hold more than `max_concurrent_positions` positions. */
  lemma TickRespectsCap(cfg: Config, before: seq<Position>, closes: seq<real>, windowStd: real, book: Book, buy: Option<Order>)
    requires ValidConfig(cfg) && |closes| >= 1 && AllPositive(closes)
    requires |before| <= cfg.maxConcurrentPositions
    ensures |AfterTick(cfg, before, closes, windowStd, book, buy)| <= cfg.maxConcurrentPositions
  {
  }

  /** With a positive take-profit and a negative stop-loss a position opened in a tick is
      still open at its end, as the last entry of the list. */
  lemma NewPositionSurvivesItsTick(cfg: Config, before: seq<Position>, closes: seq<real>, windowStd: real, book: Book, buy: Option<Order>)
    requires ValidConfig(cfg) && |closes| >= 1 && AllPositive(closes)
    requires cfg.takeProfitPct > 0.0 && cfg.stopLossPct < 0.0
    requires Opened(cfg, |before|, closes, windowStd, book, buy).Some?
    ensures AfterTick(cfg, before, closes, windowStd, book, buy)
         == Survivors(cfg, before, closes[|closes| - 1]) + [Opened(cfg, |before|, closes, windowStd, book, buy).value]
  {
    var p := Opened(cfg, |before|, closes, windowStd, book, buy).value;
    ExitBand(cfg, p.entryPrice);
    SurvivorsAppend(cfg, before, p, closes[|closes| - 1]);
  }

  /** The live trader of one symbol: `open_positions` and the configuration it was
      started with. */
  class Trader {
    const cfg: Config
    var openPositions: seq<Position>

    ghost predicate Valid()
      reads this
    {
      ValidConfig(cfg) && |openPositions| <= cfg.maxConcurrentPositions
    }

    constructor (cfg: Config)
      requires ValidConfig(cfg)
      ensures Valid() && this.cfg == cfg && openPositions == []
    {
      this.cfg := cfg;
      openPositions := [];
    }

    /** The exit management of a tick: every open position whose take-profit or
        stop-loss fires at `lastPrice` is sold and removed from `open_positions`, in list
        order. Returns the positions a market sell was placed for; they are removed
        whatever the sell returns. */
    method ManagePositions(lastPrice: real) returns (sold: seq<Position>)
      modifies this
      ensures openPositions == Survivors(cfg, old(openPositions), lastPrice)
      ensures sold == Closing(cfg, old(openPositions), lastPrice)
    {
      ghost var before := openPositions;
      sold := [];
      if |openPositions| > 0 {
        var toClose: seq<Position> := [];
        for k := 0 to |openPositions|
          invariant openPositions == before
          invariant toClose == Closing(cfg, openPositions[..k], lastPrice)
        {
          var pos := openPositions[k];
          ClosingAppend(cfg, openPositions[..k], pos, lastPrice);
          assert openPositions[..k + 1] == openPositions[..k] + [pos];
          if lastPrice >= TakeProfitLevel(cfg, pos.entryPrice) {
            toClose := toClose + [pos];
          } else if lastPrice <= StopLossLevel(cfg, pos.entryPrice) {
            toClose := toClose + [pos];
          }
        }
        assert openPositions[..|openPositions|] == before;
        DropFiringNone(cfg, before, lastPrice);
        for j := 0 to |toClose|
          invariant openPositions == DropFiring(cfg, before, j, lastPrice)
        {
          DropFiringStep(cfg, before, j, lastPrice);
          openPositions := RemoveFirst(openPositions, toClose[j]);
        }
        DropFiringAll(cfg, before, lastPrice);
        sold := toClose;
      }
    }

    /** One polling tick of `main_loop` on the fetched closes. `book` is the order book the
        exchange would return and `buy` what the market buy would return (`None`: failed).
        Returns the positions a market sell was placed for. */
    method Tick(closes: seq<real>, windowStd: real, book: Book, buy: Option<Order>) returns (sold: seq<Position>)
      requires Valid() && |closes| >= 1 && AllPositive(closes)
      modifies this
      ensures Valid()
      ensures openPositions == AfterTick(cfg, old(openPositions), closes, windowStd, book, buy)
      ensures sold == Closing(cfg, WithEntry(cfg, old(openPositions), closes, windowStd, book, buy), closes[|closes| - 1])
    {
      var can := CanEnter(cfg, closes, windowStd, book);
      if can.Enter? && |openPositions| < cfg.maxConcurrentPositions {
        var price := closes[|closes| - 1];
        var size := SizeForOrder(cfg, price);
        if buy.Some? {
          openPositions := openPositions + [Position(price, size, buy.value)];
        }
      }
      assert openPositions == WithEntry(cfg, old(openPositions), closes, windowStd, book, buy);
      var lastPrice := closes[|closes| - 1];
      sold := ManagePositions(lastPrice);
      TickRespectsCap(cfg, old(openPositions), closes, windowStd, book, buy);
    }
  }
}
