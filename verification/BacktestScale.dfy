/** Quoting every price in another unit changes nothing but the prices and the number of units. */
module BacktestScale {
  import opened Wrappers
  import opened Rounding
  import opened Bars
  import opened Ledger
  import opened Backtest
  import opened BacktestBooks
  import opened BacktestCosts
  import opened BacktestAccounting
  import BacktestSegments
  import opened Signals
  import Drawdown

  function ScaleBar(c: real, b: Bar): Bar
    requires c > 0.0
  {
    ScaledBarIsBar(c, b);
    b.(open := Times(c, b.open), high := Times(c, b.high), low := Times(c, b.low), close := Times(c, b.close))
  }

  lemma ScaledBarIsBar(c: real, b: Bar)
    requires c > 0.0
    ensures IsBar(b.(open := Times(c, b.open), high := Times(c, b.high),
                     low := Times(c, b.low), close := Times(c, b.close)))
  {
    hide Times;
    PositiveTimes(c, b.open);
    PositiveTimes(c, b.high);
    PositiveTimes(c, b.low);
    PositiveTimes(c, b.close);
    ScaleKeepsOrder(c, b.open, b.low);
    ScaleKeepsOrder(c, b.high, b.open);
    ScaleKeepsOrder(c, b.close, b.low);
    ScaleKeepsOrder(c, b.high, b.close);
  }

  function ScaleBars(c: real, bars: seq<Bar>): seq<Bar>
    requires c > 0.0
  {
    seq(|bars|, i requires 0 <= i < |bars| => ScaleBar(c, bars[i]))
  }

  function ScaleInputs(c: real, r: Inputs): Inputs
    requires c > 0.0
  {
    r.(bars := ScaleBars(c, r.bars))
  }

  /** Units under the scaled prices. */
  function Share(c: real, quantity: real): real
    requires c > 0.0
  {
    quantity / c
  }

  function ScalePoint(c: real, point: EquityPoint): EquityPoint
    requires c > 0.0
  {
    point.(quantity := Share(c, point.quantity), close := Times(c, point.close))
  }

  function ScaleTrade(c: real, t: Trade): Trade
    requires c > 0.0
  {
    t.(entryPrice := Times(c, t.entryPrice), exitPrice := Times(c, t.exitPrice), quantity := Share(c, t.quantity))
  }

  function ScaleCurve(c: real, curve: seq<EquityPoint>): seq<EquityPoint>
    requires c > 0.0
  {
    seq(|curve|, i requires 0 <= i < |curve| => ScalePoint(c, curve[i]))
  }

  function ScaleTrades(c: real, trades: seq<Trade>): seq<Trade>
    requires c > 0.0
  {
    seq(|trades|, i requires 0 <= i < |trades| => ScaleTrade(c, trades[i]))
  }

  function ScaleAccount(c: real, a: Account): Account
    requires c > 0.0
  {
    a.(quantity := Share(c, a.quantity), entryPrice := Times(c, a.entryPrice),
       entryQuantity := Share(c, a.entryQuantity), curve := ScaleCurve(c, a.curve), trades := ScaleTrades(c, a.trades))
  }

  // ---- The arithmetic

  lemma ShareTimes(c: real, quantity: real, price: real)
    requires c > 0.0
    ensures Gross(Share(c, quantity), Times(c, price)) == Gross(quantity, price)
  {
  }

  lemma ShareSign(c: real, quantity: real)
    requires c > 0.0
    ensures Share(c, quantity) == 0.0 <==> quantity == 0.0
    ensures Share(c, quantity) > 0.0 <==> quantity > 0.0
  {
  }

  lemma TimesPrice(c: real, open: real, rate: real)
    ensures Adjusted(Times(c, open), rate) == Times(c, Adjusted(open, rate))
  {
  }

  lemma PricesScale(c: real, bar: Bar, config: Config)
    requires c > 0.0
    ensures BuyPrice(ScaleBar(c, bar), config) == Times(c, BuyPrice(bar, config))
    ensures SellPrice(ScaleBar(c, bar), config) == Times(c, SellPrice(bar, config))
    ensures UnitCost(ScaleBar(c, bar), config) == Times(c, UnitCost(bar, config))
  {
    hide Times, Adjusted;
    TimesPrice(c, bar.open, 1.0 + config.slippageRate);
    TimesPrice(c, bar.open, 1.0 - config.slippageRate);
    TimesPrice(c, BuyPrice(bar, config), 1.0 + config.feeRate);
  }

  lemma ShareOfQuotient(c: real, cash: real, cost: real)
    requires c > 0.0 && cost > 0.0 && Times(c, cost) > 0.0
    ensures cash / Times(c, cost) == Share(c, cash / cost)
  {
  }

  lemma BuyScales(c: real, cash: real, bar: Bar, config: Config)
    requires c > 0.0
    ensures var b := Buy(cash, bar, config, Exact);
            Buy(cash, ScaleBar(c, bar), config, Exact) == b.(quantity := Share(c, b.quantity))
  {
    PricesScale(c, bar, config);
    hide Times, UnitCost, BuyPrice, Gross, FeeOn, Share, Round, ScaleBar;
    PositiveTimes(c, UnitCost(bar, config));
    ShareOfQuotient(c, cash, UnitCost(bar, config));
    ShareTimes(c, cash / UnitCost(bar, config), BuyPrice(bar, config));
    AllExact();
  }

  lemma AllExact()
    ensures forall x: real :: Round(Exact, x) == x
  {
  }

  lemma SellScales(c: real, quantity: real, bar: Bar, config: Config)
    requires c > 0.0
    ensures var s := Sell(quantity, bar, config, Exact);
            Sell(Share(c, quantity), ScaleBar(c, bar), config, Exact) == s.(price := Times(c, s.price))
  {
    PricesScale(c, bar, config);
    hide Times, SellPrice, Gross, FeeOn, Share, Round, ScaleBar;
    ShareTimes(c, quantity, SellPrice(bar, config));
    AllExact();
  }

  lemma OutlayScales(c: real, quantity: real, price: real, fee: real)
    requires c > 0.0
    ensures Outlay(Share(c, quantity), Times(c, price), fee) == Outlay(quantity, price, fee)
  {
  }

  // ---- The run

  lemma BarTimesSurvive(c: real, b: Bar)
    requires c > 0.0
    ensures BarDate(ScaleBar(c, b)) == BarDate(b) && BarTimestamp(ScaleBar(c, b)) == BarTimestamp(b)
    ensures ScaleBar(c, b).MarketBar? == b.MarketBar?
    ensures b.MarketBar? ==> ScaleBar(c, b).timestamp == b.timestamp
    ensures ScaleBar(c, b).close == Times(c, b.close)
  {
  }

  lemma TradeScales(c: real, r: Inputs, k: nat, a: Account)
    requires c > 0.0 && r.p == Exact && k < |r.bars| && EntryInRange(r, a)
    ensures ClosedTrade(ScaleInputs(c, r), k, ScaleAccount(c, a)) == ScaleTrade(c, ClosedTrade(r, k, a))
  {
    hide Sell, Outlay, Share, Times, ScaleBar, BarDate, BarTimestamp, ReturnPct, Round;
    SellScales(c, a.quantity, r.bars[k], r.config);
    OutlayScales(c, a.entryQuantity, a.entryPrice, a.entryFee);
    BarTimesSurvive(c, r.bars[k]);
    AllExact();
    if a.entryIndex.Some? {
      BarTimesSurvive(c, r.bars[a.entryIndex.value]);
    }
  }

  lemma ZeroShare(c: real)
    requires c > 0.0
    ensures Share(c, 0.0) == 0.0 && Times(c, 0.0) == 0.0
  {
  }

  lemma FillScales(c: real, r: Inputs, k: nat, a: Account)
    requires c > 0.0 && r.p == Exact && k < |r.bars| && EntryInRange(r, a)
    ensures Fill(ScaleInputs(c, r), k, ScaleAccount(c, a)) == ScaleAccount(c, Fill(r, k, a))
  {
    var s, b := ScaleInputs(c, r), ScaleAccount(c, a);
    hide Buy, Sell, Share, Times, ScaleBar, ClosedTrade, BuyPrice, BarDate, Round, ScaleTrade, ScalePoint;
    ShareSign(c, a.quantity);
    PricesScale(c, r.bars[k], r.config);
    BuyScales(c, a.cash, r.bars[k], r.config);
    SellScales(c, a.quantity, r.bars[k], r.config);
    BarTimesSurvive(c, r.bars[k]);
    TradeScales(c, r, k, a);
    ZeroShare(c);
    if NextAction(a) == Sold {
      assert ScaleTrades(c, a.trades + [ClosedTrade(r, k, a)])
          == ScaleTrades(c, a.trades) + [ScaleTrade(c, ClosedTrade(r, k, a))];
    }
  }

  lemma MarkScales(c: real, r: Inputs, k: nat, a: Account)
    requires c > 0.0 && r.p == Exact && k < |r.bars|
    ensures Mark(ScaleInputs(c, r), k, ScaleAccount(c, a)) == ScalePoint(c, Mark(r, k, a))
  {
    hide Gross, Share, Times, ScaleBar, BarDate, BarTimestamp, Round;
    AllExact();
    BarTimesSurvive(c, r.bars[k]);
    ShareTimes(c, a.quantity, r.bars[k].close);
  }

  lemma ClosesScale(c: real, bars: seq<Bar>)
    requires c > 0.0
    ensures Closes(ScaleBars(c, bars)) == Scale(c, Closes(bars))
  {
  }

  lemma SettleScales(c: real, r: Inputs, k: nat, a: Account)
    requires c > 0.0 && r.p == Exact && k < |r.bars|
    ensures Settle(ScaleInputs(c, r), k, ScaleAccount(c, a)) == ScaleAccount(c, Settle(r, k, a))
  {
    hide Mark, Share, Times, ScaleBars, Scale, DesiredPosition, ScalePoint, ScaleTrades, Closes;
    MarkScales(c, r, k, a);
    ShareSign(c, a.quantity);
    ClosesScale(c, r.bars);
    ScaledLength(c, r.bars);
    SignalIsScaleFree(c, Closes(r.bars), r.strategy, k, a.pendingLong && a.quantity != 0.0);
    var point := Mark(r, k, a);
    assert ScaleCurve(c, a.curve + [point]) == ScaleCurve(c, a.curve) + [ScalePoint(c, point)];
  }

  lemma ScaledLength(c: real, bars: seq<Bar>)
    requires c > 0.0
    ensures |ScaleBars(c, bars)| == |bars| == |Closes(bars)|
  {
  }

  lemma {:induction false} RunScales(c: real, r: Inputs, k: nat)
    requires c > 0.0 && r.p == Exact && r.start <= k <= |r.bars|
    ensures After(ScaleInputs(c, r), k) == ScaleAccount(c, After(r, k))
  {
    hide Fill, Settle, ScaleAccount;
    if k == r.start {
      OpeningScales(c, r.config);
    } else {
      RunScales(c, r, k - 1);
      FillScales(c, r, k - 1, After(r, k - 1));
      SettleScales(c, r, k - 1, Filled(r, k - 1));
    }
  }

  lemma OpeningScales(c: real, config: Config)
    requires c > 0.0
    ensures ScaleAccount(c, Opening(config)) == Opening(config)
  {
  }

  // ---- The metrics

  lemma {:induction false} CountsScale(c: real, curve: seq<EquityPoint>, trades: seq<Trade>)
    requires c > 0.0
    ensures InvestedBars(ScaleCurve(c, curve)) == InvestedBars(curve)
    ensures Winners(ScaleTrades(c, trades)) == Winners(trades) && Losers(ScaleTrades(c, trades)) == Losers(trades)
    decreases |curve| + |trades|
  {
    hide Share, Times;
    if curve != [] {
      var n := |curve| - 1;
      assert ScaleCurve(c, curve)[..n] == ScaleCurve(c, curve[..n]);
      ShareSign(c, curve[n].quantity);
      CountsScale(c, curve[..n], trades);
    } else if trades != [] {
      var n := |trades| - 1;
      assert ScaleTrades(c, trades)[..n] == ScaleTrades(c, trades[..n]);
      CountsScale(c, curve, trades[..n]);
    }
  }

  lemma MetricsScale(c: real, curve: seq<EquityPoint>, trades: seq<Trade>, config: Config, n: nat, p: Precision)
    requires c > 0.0
    ensures Drawdown.MetricsOf(ScaleCurve(c, curve), ScaleTrades(c, trades), config, n, p)
         == Drawdown.MetricsOf(curve, trades, config, n, p)
  {
    hide Round, Drawdown.MaxDrawdown, Drawdown.Return, Share, Times, Winners, Losers, InvestedBars;
    CountsScale(c, curve, trades);
    assert Equities(ScaleCurve(c, curve)) == Equities(curve);
    LastPoint(c, curve);
  }

  lemma LastPoint(c: real, curve: seq<EquityPoint>)
    requires c > 0.0
    ensures |ScaleCurve(c, curve)| == |curve|
    ensures curve != [] ==> ScaleCurve(c, curve)[|curve| - 1].equity == curve[|curve| - 1].equity
  {
  }

  /** Price scale invariance, for every strategy family: the same fills and equity at every bar, the
      same profit on every trade and the same metrics, with 1/c of the units at c times the price. */
  lemma ScaleInvariance(c: real, r: Inputs)
    requires c > 0.0 && r.p == Exact && r.start <= |r.bars|
    ensures var a, b := Outcome(r), Outcome(ScaleInputs(c, r));
            && b.curve == ScaleCurve(c, a.curve)
            && b.trades == ScaleTrades(c, a.trades)
            && b.metrics == a.metrics
    ensures forall i | 0 <= i < |Outcome(r).curve| ::
              && Outcome(ScaleInputs(c, r)).curve[i].equity == Outcome(r).curve[i].equity
              && (Outcome(ScaleInputs(c, r)).curve[i].quantity > 0.0 <==> Outcome(r).curve[i].quantity > 0.0)
  {
    hide After, Drawdown.MetricsOf, Share, Times, ScaleBar;
    var n := |r.bars|;
    RunScales(c, r, n);
    var a := After(r, n);
    MetricsScale(c, a.curve, a.trades, r.config, |a.curve|, r.p);
    LastPoint(c, a.curve);
    forall i | 0 <= i < |a.curve|
      ensures ScaleCurve(c, a.curve)[i].quantity > 0.0 <==> a.curve[i].quantity > 0.0
    {
      ShareSign(c, a.curve[i].quantity);
    }
  }

  // ---- Positions

  lemma ScaledSignals(c: real, r: Inputs, s: Inputs)
    requires c > 0.0 && s.bars == ScaleBars(c, r.bars) && r.strategy == s.strategy && r.start == s.start
    ensures SameSignals(r, s)
  {
    hide ScaleBars, DesiredPosition, Closes, Scale;
    ClosesScale(c, r.bars);
    ScaledLength(c, r.bars);
    forall i: nat, long: bool | i < |r.bars|
      ensures SignalAt(r, i, long) == SignalAt(s, i, long)
    {
      SignalIsScaleFree(c, Closes(r.bars), r.strategy, i, long);
    }
  }

  /** With rounding too, and with any cash and costs, the scaled run holds the asset at the same bars, as
      long as neither run makes a fill too small for the rounding. */
  lemma PositionsAreScaleFree(c: real, r: Inputs, s: Inputs)
    requires c > 0.0 && s.bars == ScaleBars(c, r.bars) && r.strategy == s.strategy && r.start == s.start
    requires r.start <= |r.bars| && |s.bars| == |r.bars|
    requires EveryFillBuys(r, |r.bars|) && EveryFillBuys(s, |s.bars|)
    ensures SamePositions(Outcome(r).curve, Outcome(s).curve)
  {
    hide After, EveryFillBuys, SameSignals, ScaleBars;
    ScaledSignals(c, r, s);
    PositionsIgnoreCosts(r, s, |r.bars|);
  }

  // ---- Where rounding breaks it

  const DOWN := 0.000000000001

  lemma QuietStart(r: Inputs, k: nat)
    requires r.start == 0 && k == 2 < |r.bars|
    requires !SignalAt(r, 0, false) && SignalAt(r, 1, false)
    ensures After(r, k).cash == r.config.initialCash && After(r, k).quantity == 0.0 && After(r, k).pendingLong
  {
    assert After(r, 0) == Opening(r.config);
    hide After, DesiredPosition;
    QuietBar(r, 0);
    QuietBar(r, 1);
  }

  lemma FreeCost(bar: Bar, config: Config)
    requires config.feeRate == 0.0 && config.slippageRate == 0.0
    ensures UnitCost(bar, config) == bar.open
  {
  }

  lemma TinyOpens(r: Inputs, s: Inputs, k: nat)
    requires r == TinyRun() && s == ScaleInputs(DOWN, r) && k == 2
    ensures |s.bars| == |r.bars| == 3 && r.config == s.config
    ensures r.config.initialCash == 1.0 && r.config.feeRate == 0.0 && r.config.slippageRate == 0.0
    ensures r.bars[k].open == HIGH && s.bars[k].open == 5.0
  {
    assert r.bars[k].open == HIGH;
  }

  lemma OneOverFive(cash: real, cost: real)
    requires cash == 1.0 && cost == 5.0
    ensures cash / cost > HALF_UNIT
  {
  }

  lemma OnlyOneBuys(config: Config, dear: Bar, cheap: Bar)
    requires config.initialCash == 1.0 && config.feeRate == 0.0 && config.slippageRate == 0.0
    requires dear.open == HIGH && cheap.open == 5.0
    ensures config.initialCash / UnitCost(dear, config) <= HALF_UNIT
    ensures config.initialCash / UnitCost(cheap, config) > HALF_UNIT
  {
    FreeCost(dear, config);
    FreeCost(cheap, config);
    hide *;
    OneOverHigh(config.initialCash, UnitCost(dear, config));
    OneOverFive(config.initialCash, UnitCost(cheap, config));
  }

  lemma DifferentPositions(a: seq<EquityPoint>, b: seq<EquityPoint>, k: nat)
    requires k < |a| && k < |b| && !(a[k].quantity > 0.0) && b[k].quantity > 0.0
    ensures !SamePositions(a, b)
  {
  }

  lemma TinySignalsScale(r: Inputs, s: Inputs)
    requires r == TinyRun() && s == ScaleInputs(DOWN, r)
    ensures |s.bars| == |r.bars| == 3 && r.start == s.start == 0 && r.p == s.p == Decimals12
    ensures !SignalAt(r, 0, false) && SignalAt(r, 1, false)
    ensures !SignalAt(s, 0, false) && SignalAt(s, 1, false)
  {
    TinySignals();
    assert !SignalAt(r, 0, false) && SignalAt(r, 1, false);
    hide ScaleBars, DesiredPosition, Closes;
    ScaledSignals(DOWN, r, s);
    assert SignalAt(s, 0, false) == SignalAt(r, 0, false) && SignalAt(s, 1, false) == SignalAt(r, 1, false);
  }

  lemma OutcomeLength(r: Inputs)
    requires r.start <= |r.bars|
    ensures |Outcome(r).curve| == |r.bars| - r.start
  {
  }

  /** The third point of a run that signals at its second bar shows units if the cash buys enough. */
  lemma FillIsShown(r: Inputs, k: nat)
    requires r.start == 0 && k == 2 < |r.bars| && r.p == Decimals12
    requires !SignalAt(r, 0, false) && SignalAt(r, 1, false)
    ensures |Outcome(r).curve| == |r.bars|
    ensures Outcome(r).curve[k].quantity > 0.0
       <==> r.config.initialCash / UnitCost(r.bars[k], r.config) > HALF_UNIT
  {
    QuietStart(r, k);
    BacktestSegments.ShownQuantity(r, k);
    OutcomeLength(r);
    hide After, Filled, SignalAt, UnitCost, Outcome;
    assert NextAction(After(r, k)) == Bought;
  }

  lemma TinyRunsDiffer(r: Inputs, s: Inputs, k: nat)
    requires r == TinyRun() && s == ScaleInputs(DOWN, r) && k == 2
    ensures r.start <= |r.bars| && s.start <= |s.bars|
    ensures !SamePositions(Outcome(r).curve, Outcome(s).curve)
  {
    hide *;
    TinySignalsScale(r, s);
    TinyOpens(r, s, k);
    FillIsShown(r, k);
    FillIsShown(s, k);
    OnlyOneBuys(r.config, r.bars[k], s.bars[k]);
    DifferentPositions(Outcome(r).curve, Outcome(s).curve, k);
  }

  /** With twelve decimals the law fails: a run loses its fill, and with every price a million millionth of
      what it was the same run buys. */
  lemma RoundingIsNotScaleFree() returns (c: real, r: Inputs)
    ensures c > 0.0 && r.p == Decimals12 && Accept(r.bars, r.strategy, r.config, r.start, None, r.p) == Ok(r)
    ensures r.start <= |r.bars| == |ScaleInputs(c, r).bars|
    ensures !SamePositions(Outcome(r).curve, Outcome(ScaleInputs(c, r)).curve)
  {
    hide TinyRun, Accept, Outcome, SamePositions;
    c, r := DOWN, TinyRun();
    TinyRunIsAccepted(r);
    TinyPrice(r, 2);
    TinyRunsDiffer(r, ScaleInputs(c, r), 2);
  }
}
