/** Every holding segment is the buy-and-hold benchmark of its slice, and growth is a product. */
module BacktestSegments {
  import opened Wrappers
  import opened Rounding
  import opened Bars
  import opened Ledger
  import opened Backtest
  import opened BacktestBooks
  import Signals
  import Drawdown

  /** The curve keeps the mark of every bar. */
  lemma {:induction false} CurveIsMarks(r: Inputs, i: nat, n: nat)
    requires r.start <= i < n <= |r.bars|
    ensures After(r, n).curve[i - r.start] == Mark(r, i, Filled(r, i))
  {
    hide Fill, Filled, Mark, Signals.DesiredPosition;
    OneBar(r, n - 1);
    if i < n - 1 {
      CurveIsMarks(r, i, n - 1);
    }
  }

  /** The point of a bar shows the units held after its fill. */
  lemma ShownQuantity(r: Inputs, k: nat)
    requires r.start <= k < |r.bars|
    ensures Outcome(r).curve[k - r.start].quantity == Filled(r, k).quantity
    ensures Filled(r, k).quantity >= 0.0
    ensures Filled(r, k).quantity > 0.0 <==> After(r, k).pendingLong && BuysEnough(r, k, After(r, k))
  {
    hide After, Filled, Round, Worth, BarDate, BarTimestamp, Drawdown.MetricsOf, BuysEnough;
    CurveIsMarks(r, k, |r.bars|);
    AlwaysBalanced(r, k);
  }

  lemma OpenFacts(r: Inputs, a: Account, k: nat)
    requires Balanced(r, a, k) && a.quantity > 0.0
    ensures a.cash == 0.0 && IsRounded(r.p, a.quantity)
    ensures a.entryIndex.Some? && r.start <= a.entryIndex.value < k <= |r.bars|
    ensures a.entryPrice == BuyPrice(r.bars[a.entryIndex.value], r.config) && a.entryQuantity == a.quantity
  {
  }

  lemma KeptFill(r: Inputs, k: nat)
    requires r.start <= k < |r.bars| && Filled(r, k).quantity > 0.0
    ensures NextAction(After(r, k)) == Bought ==> Filled(r, k).entryIndex == Some(k)
    ensures NextAction(After(r, k)) != Bought ==> Filled(r, k) == After(r, k)
  {
    hide After, Buy;
  }

  /** The same units, and no cash, at every bar from `e` to `j`. */
  ghost predicate HeldFrom(r: Inputs, e: nat, j: nat)
    requires r.start <= e <= j < |r.bars|
  {
    forall i | e <= i <= j :: Filled(r, i).quantity == Filled(r, j).quantity && Filled(r, i).cash == 0.0
  }

  /** A position open at bar `j` was bought at its entry bar and unchanged since. */
  lemma {:induction false} HeldSinceEntry(r: Inputs, j: nat)
    requires r.start <= j < |r.bars| && Filled(r, j).quantity > 0.0
    ensures Filled(r, j).entryIndex.Some?
    ensures var e := Filled(r, j).entryIndex.value;
            r.start <= e <= j && NextAction(After(r, e)) == Bought && HeldFrom(r, e, j)
  {
    hide After, Fill, Balanced, Filled, Mark, Signals.DesiredPosition;
    AlwaysBalanced(r, j);
    OpenFacts(r, Filled(r, j), j + 1);
    KeptFill(r, j);
    if NextAction(After(r, j)) != Bought {
      AfterOpening(r);
      OneBar(r, j - 1);
      HeldSinceEntry(r, j - 1);
    }
  }

  lemma AfterOpening(r: Inputs)
    requires r.start <= |r.bars|
    ensures After(r, r.start).quantity == 0.0
  {
  }

  /** The units held are those the benchmark buys with the cash at entry. */
  lemma EntryPurchase(r: Inputs, e: nat)
    requires r.start <= e < |r.bars| && NextAction(After(r, e)) == Bought && Filled(r, e).quantity > 0.0
    ensures After(r, e).cash > 0.0
    ensures var b := Buy(After(r, e).cash, r.bars[e], r.config, r.p);
            Filled(r, e).quantity == b.quantity && b.cash == 0.0
  {
    AlwaysBalanced(r, e);
    hide After, Buy;
    var cash := After(r, e).cash;
    BuyFacts(cash, r.bars[e], r.config, r.p);
    if cash == 0.0 {
      NothingBuysNothing(r.bars[e], r.config, r.p);
    }
  }

  lemma PricesReadRates(bar: Bar, a: Config, b: Config)
    requires a.feeRate == b.feeRate && a.slippageRate == b.slippageRate
    ensures BuyPrice(bar, a) == BuyPrice(bar, b) && UnitCost(bar, a) == UnitCost(bar, b)
    ensures forall gross: real :: FeeOn(gross, a) == FeeOn(gross, b)
  {
  }

  lemma BuyReadsRates(cash: real, bar: Bar, a: Config, b: Config, p: Precision)
    requires a.feeRate == b.feeRate && a.slippageRate == b.slippageRate
    ensures Buy(cash, bar, a, p) == Buy(cash, bar, b, p)
  {
    hide BuyPrice, UnitCost, FeeOn, Gross, Round;
    PricesReadRates(bar, a, b);
  }

  /** The point of a bar that holds units and no cash. */
  function HeldPoint(bar: Bar, quantity: real, market: bool, p: Precision): EquityPoint {
    EquityPoint(BarDate(bar), Round(p, 0.0), quantity, bar.close, Round(p, Worth(0.0, quantity, bar.close)),
                if market then BarTimestamp(bar) else None)
  }

  lemma MarkOfHeld(r: Inputs, k: nat, a: Account)
    requires k < |r.bars| && a.cash == 0.0 && IsRounded(r.p, a.quantity)
    ensures Mark(r, k, a) == HeldPoint(r.bars[k], a.quantity, r.market, r.p)
  {
  }

  lemma BenchmarkPoint(bars: seq<Bar>, config: Config, market: bool, p: Precision, m: nat)
    requires m < |bars| && Buy(config.initialCash, bars[0], config, p).cash == 0.0
    ensures |BenchmarkCurve(bars, config, market, p)| == |bars|
    ensures BenchmarkCurve(bars, config, market, p)[m]
         == HeldPoint(bars[m], Buy(config.initialCash, bars[0], config, p).quantity, market, p)
  {
  }

  /** From entry to bar `j`, the run's curve is the benchmark's curve on those bars, started with the
      cash held at entry; in both precisions. */
  lemma SegmentIsBenchmark(r: Inputs, j: nat)
    requires r.start <= j < |r.bars| && Filled(r, j).quantity > 0.0
    ensures Filled(r, j).entryIndex.Some?
    ensures var e := Filled(r, j).entryIndex.value;
            && r.start <= e <= j && After(r, e).cash > 0.0
            && After(r, j + 1).curve[e - r.start..]
            == BenchmarkCurve(r.bars[e..j + 1], r.config.(initialCash := After(r, e).cash), r.market, r.p)
  {
    hide Mark, Filled, After, Buy, HeldPoint, BenchmarkCurve, Round, Balanced;
    HeldSinceEntry(r, j);
    var e, q := Filled(r, j).entryIndex.value, Filled(r, j).quantity;
    EntryPurchase(r, e);
    AlwaysBalanced(r, j);
    OpenFacts(r, Filled(r, j), j + 1);
    var config: Config := r.config.(initialCash := After(r, e).cash);
    BuyReadsRates(config.initialCash, r.bars[e], r.config, config, r.p);
    var slice, curve := r.bars[e..j + 1], After(r, j + 1).curve[e - r.start..];
    assert slice[0] == r.bars[e];
    BenchmarkPoint(slice, config, r.market, r.p, 0);
    forall m | 0 <= m < |slice|
      ensures curve[m] == BenchmarkCurve(slice, config, r.market, r.p)[m]
    {
      CurveIsMarks(r, e + m, j + 1);
      MarkOfHeld(r, e + m, Filled(r, e + m));
      BenchmarkPoint(slice, config, r.market, r.p, m);
    }
  }

  /** The benchmark that publishes that curve is defined unless its rounded outlay is zero. */
  lemma SegmentIsPublishedBenchmark(r: Inputs, j: nat)
    requires r.start <= j < |r.bars| && Filled(r, j).quantity > 0.0
    ensures Filled(r, j).entryIndex.Some?
    ensures var e := Filled(r, j).entryIndex.value;
            && r.start <= e <= j && After(r, e).cash > 0.0
            && var benchmark := BuyAndHold(r.bars[e..j + 1], r.config.(initialCash := After(r, e).cash), r.market, r.p);
            && (r.p == Exact ==> benchmark.Ok?)
            && (benchmark.Ok? ==> benchmark.value.curve == After(r, j + 1).curve[e - r.start..])
  {
    SegmentIsBenchmark(r, j);
    var e := Filled(r, j).entryIndex.value;
    var config: Config := r.config.(initialCash := After(r, e).cash);
    BuyFacts(config.initialCash, r.bars[e], config, r.p);
    assert r.bars[e..j + 1][0] == r.bars[e];
    ExactRound(BuyPrice(r.bars[e], config));
    hide After, Filled, Buy, Round, BenchmarkCurve, Outlay, BuyPrice, Gross;
  }

  lemma NothingInvested(quantity: real, price: real, fee: real)
    requires quantity >= 0.0 && price >= 0.0 && fee >= 0.0
    ensures Outlay(quantity, price, fee) == 0.0 <==> fee == 0.0 && (quantity == 0.0 || price == 0.0)
  {
  }

  /** The benchmark divides by zero exactly when its fee, and its units or its price, are each at most half
      a rounding unit; in exact arithmetic it never does. */
  lemma BenchmarkFailsIff(bars: seq<Bar>, config: Config, market: bool, p: Precision)
    ensures BuyAndHold(bars, config, market, p).Err? <==>
            && p == Decimals12 && bars != []
            && var price := BuyPrice(bars[0], config);
            && var units := config.initialCash / UnitCost(bars[0], config);
            && FeeOn(Gross(units, price), config) <= HALF_UNIT && (units <= HALF_UNIT || price <= HALF_UNIT)
  {
    if bars != [] {
      hide BuyPrice, UnitCost, Round, Gross, FeeOn, BenchmarkCurve;
      var price, units := BuyPrice(bars[0], config), config.initialCash / UnitCost(bars[0], config);
      var fee := FeeOn(Gross(units, price), config);
      FeeSign(config.initialCash, bars[0], config);
      SpendsEverything(config.initialCash, bars[0], config);
      RoundsToZero(units);
      RoundsToZero(fee);
      RoundsToZero(price);
      NothingInvested(Round(p, units), Round(p, price), Round(p, fee));
      ExactRound(units);
      ExactRound(price);
      ExactRound(fee);
    }
  }

  const TENTH_OF_A_UNIT := 0.0000000000001

  /** A price that rounds to nothing, traded without costs. */
  lemma TinyPriceWithoutCosts(bar: Bar, config: Config, units: real)
    requires bar.open == TENTH_OF_A_UNIT && config.feeRate == 0.0 && config.slippageRate == 0.0
    ensures BuyPrice(bar, config) <= HALF_UNIT && FeeOn(Gross(units, BuyPrice(bar, config)), config) <= HALF_UNIT
  {
    NoFee(Gross(units, BuyPrice(bar, config)), config);
  }

  lemma NoFee(gross: real, config: Config)
    requires config.feeRate == 0.0
    ensures FeeOn(gross, config) == 0.0
  {
  }

  /** One daily bar at a tenth of a rounding unit, and one unit of cash: the benchmark divides by zero. */
  lemma BenchmarkCanFail() returns (bars: seq<Bar>, config: Config)
    ensures Validate(bars, None).Ok? && BuyAndHold(bars, config, false, Decimals12) == Err(DivisionByZero)
  {
    var p := TENTH_OF_A_UNIT;
    bars, config := [DailyBar(0, p, p, p, p)], RawConfig.Config(1.0, 0.0, 0.0);
    TinyPriceWithoutCosts(bars[0], config, config.initialCash / UnitCost(bars[0], config));
    BenchmarkFailsIff(bars, config, false, Decimals12);
    hide BuyAndHold, BuyPrice, FeeOn, Gross, UnitCost;
  }

  lemma FeeSign(cash: real, bar: Bar, config: Config)
    requires cash >= 0.0
    ensures FeeOn(Gross(cash / UnitCost(bar, config), BuyPrice(bar, config)), config) >= 0.0
  {
  }

  // ---- Growth as a product

  /** What one unit of cash becomes over a closed trade. */
  function TradeFactor(r: Inputs, t: Trade): real
    requires t.entryIndex < |r.bars| && t.exitIndex < |r.bars|
  {
    UnitProceeds(r.bars[t.exitIndex], r.config) / UnitCost(r.bars[t.entryIndex], r.config)
  }

  ghost predicate TradesInRange(r: Inputs, trades: seq<Trade>) {
    forall t | t in trades :: t.entryIndex < |r.bars| && t.exitIndex < |r.bars|
  }

  function Growth(r: Inputs, trades: seq<Trade>): real
    requires TradesInRange(r, trades)
  {
    if trades == [] then 1.0
    else Signals.Times(Growth(r, trades[..|trades| - 1]), TradeFactor(r, trades[|trades| - 1]))
  }

  /** Initial cash times the factors of the closed trades: held as cash when flat, as units at cost when long. */
  ghost predicate Grown(r: Inputs, a: Account) {
    && TradesInRange(r, a.trades)
    && (a.quantity == 0.0 ==> a.cash == Signals.Times(r.config.initialCash, Growth(r, a.trades)))
    && (a.quantity > 0.0 ==>
          && a.entryIndex.Some? && a.entryIndex.value < |r.bars|
          && Gross(a.quantity, UnitCost(r.bars[a.entryIndex.value], r.config))
          == Signals.Times(r.config.initialCash, Growth(r, a.trades)))
  }

  lemma UnitsTimesRatio(initial: real, growth: real, units: real, cost: real, proceeds: real)
    requires cost > 0.0 && Gross(units, cost) == Signals.Times(initial, growth)
    ensures Gross(units, proceeds) == Signals.Times(initial, Signals.Times(growth, proceeds / cost))
  {
  }

  lemma SellGrows(r: Inputs, k: nat, a: Account)
    requires r.p == Exact && k < |r.bars| && EntryInRange(r, a) && Balanced(r, a, k) && Grown(r, a)
    requires NextAction(a) == Sold
    ensures Grown(r, Fill(r, k, a))
  {
    var t := ClosedTrade(r, k, a);
    assert t.exitIndex == k && t.entryIndex == a.entryIndex.value;
    var trades := a.trades + [t];
    assert trades[..|a.trades|] == a.trades;
    SellFacts(a.quantity, r.bars[k], r.config, Exact);
    UnitsTimesRatio(r.config.initialCash, Growth(r, a.trades), a.quantity,
                    UnitCost(r.bars[t.entryIndex], r.config), UnitProceeds(r.bars[k], r.config));
    assert Growth(r, trades) == Signals.Times(Growth(r, a.trades), TradeFactor(r, t));
    hide Sell, Gross, UnitCost, UnitProceeds, ClosedTrade, Signals.Times, Growth;
  }

  lemma BuyGrows(r: Inputs, k: nat, a: Account)
    requires r.p == Exact && k < |r.bars| && EntryInRange(r, a) && Balanced(r, a, k) && Grown(r, a)
    requires NextAction(a) == Bought
    ensures Grown(r, Fill(r, k, a))
  {
    BuyFacts(a.cash, r.bars[k], r.config, Exact);
    hide Buy, Gross, UnitCost, Growth, Signals.Times;
  }

  lemma FillGrows(r: Inputs, k: nat)
    requires r.p == Exact && r.start <= k < |r.bars| && Grown(r, After(r, k))
    ensures Grown(r, Filled(r, k))
  {
    AlwaysBalanced(r, k);
    hide After, Fill, Grown, Balanced;
    match NextAction(After(r, k))
    case Bought => BuyGrows(r, k, After(r, k));
    case Sold => SellGrows(r, k, After(r, k));
    case Kept => FillKept(r, k, After(r, k));
  }

  lemma SettleGrows(r: Inputs, k: nat)
    requires r.start <= k < |r.bars| && Grown(r, Filled(r, k))
    ensures Grown(r, After(r, k + 1))
  {
    OneBar(r, k);
    hide After, Filled, Growth, Gross, UnitCost, Signals.Times;
  }

  lemma OpeningGrows(r: Inputs)
    requires r.start <= |r.bars|
    ensures Grown(r, After(r, r.start))
  {
  }

  lemma {:induction false} AlwaysGrown(r: Inputs, k: nat)
    requires r.p == Exact && r.start <= k <= |r.bars|
    ensures Grown(r, After(r, k))
    ensures k < |r.bars| ==> Grown(r, Filled(r, k))
  {
    hide After, Filled, Grown;
    if k == r.start {
      OpeningGrows(r);
    } else {
      AlwaysGrown(r, k - 1);
      SettleGrows(r, k - 1);
    }
    if k < |r.bars| {
      FillGrows(r, k);
    }
  }

  /** What one unit of cash spent at the open entry is worth at the close of bar `k`. */
  function OpenFactor(r: Inputs, k: nat, a: Account): real
    requires k < |r.bars| && EntryInRange(r, a)
  {
    if a.quantity > 0.0 && a.entryIndex.Some?
    then r.bars[k].close / UnitCost(r.bars[a.entryIndex.value], r.config)
    else 1.0
  }

  lemma GrownIsProduct(r: Inputs, k: nat, f: Account)
    requires r.p == Exact && k < |r.bars| && Balanced(r, f, k + 1) && Grown(r, f) && EntryInRange(r, f)
    ensures TradesInRange(r, f.trades)
    ensures Mark(r, k, f).equity
         == Signals.Times(r.config.initialCash, Signals.Times(Growth(r, f.trades), OpenFactor(r, k, f)))
  {
    if f.quantity > 0.0 {
      UnitsTimesRatio(r.config.initialCash, Growth(r, f.trades), f.quantity,
                      UnitCost(r.bars[f.entryIndex.value], r.config), r.bars[k].close);
      hide Growth, UnitCost, Gross, Signals.Times, BuyPrice;
    } else {
      TimesOne(Growth(r, f.trades));
      NoUnits(r.bars[k].close);
      hide Growth, UnitCost, Gross, Signals.Times, BuyPrice;
    }
  }

  lemma TimesOne(x: real)
    ensures Signals.Times(x, 1.0) == x
  {
  }

  lemma NoUnits(price: real)
    ensures Gross(0.0, price) == 0.0
  {
  }

  /** Exact equity is the initial cash times one factor a closed trade, times the open segment's factor. */
  lemma EquityIsProduct(r: Inputs, k: nat)
    requires r.p == Exact && r.start <= k < |r.bars|
    ensures TradesInRange(r, Filled(r, k).trades)
    ensures var f := Filled(r, k);
            After(r, k + 1).curve[k - r.start].equity
            == Signals.Times(r.config.initialCash, Signals.Times(Growth(r, f.trades), OpenFactor(r, k, f)))
  {
    hide After, Filled, Balanced, Grown;
    AlwaysGrown(r, k);
    AlwaysBalanced(r, k);
    CurveIsMarks(r, k, k + 1);
    GrownIsProduct(r, k, Filled(r, k));
  }
}
