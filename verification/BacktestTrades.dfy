/** What the published records of a run and of its benchmark say about money. */
module BacktestTrades {
  import opened Wrappers
  import opened Rounding
  import opened Bars
  import opened Ledger
  import opened Backtest
  import opened BacktestBooks
  import opened BacktestSegments
  import Drawdown
  import Signals

  /** Fees are the rate on each gross amount, profit is what came in less what went out, and the return is
      what one unit of cash became, less that unit. */
  ghost predicate IsPriced(r: Inputs, t: Trade) {
    && t.entryIndex < |r.bars| && t.exitIndex < |r.bars|
    && var bought, sold := Gross(t.quantity, t.entryPrice), Gross(t.quantity, t.exitPrice);
    && t.quantity > 0.0
    && t.entryPrice == BuyPrice(r.bars[t.entryIndex], r.config)
    && t.exitPrice == SellPrice(r.bars[t.exitIndex], r.config)
    && t.entryFee == FeeOn(bought, r.config) && t.exitFee == FeeOn(sold, r.config)
    && t.pnl == (sold - t.exitFee) - (bought + t.entryFee)
    && t.returnPct == TradeFactor(r, t) - 1.0
  }

  ghost predicate AllPriced(r: Inputs, a: Account) {
    && (forall t | t in a.trades :: IsPriced(r, t))
    && (a.quantity > 0.0 ==> a.entryFee == FeeOn(Gross(a.entryQuantity, a.entryPrice), r.config))
  }

  lemma ReturnIsFactor(quantity: real, cost: real, proceeds: real)
    requires quantity > 0.0 && cost > 0.0
    ensures Gross(quantity, cost) > 0.0
    ensures (Gross(quantity, proceeds) - Gross(quantity, cost)) / Gross(quantity, cost) == proceeds / cost - 1.0
  {
    GrossSign(quantity, cost);
    var x, y := Gross(quantity, proceeds), Gross(quantity, cost);
    Signals.RatioScales(quantity, proceeds, cost);
    assert x / y == proceeds / cost;
    GainIsRatioLessOne(x, y);
  }

  lemma GainIsRatioLessOne(x: real, y: real)
    requires y > 0.0
    ensures (x - y) / y == x / y - 1.0
  {
    var q := x / y;
    assert q * y == x;
    QuotientIs(x - y, y, q - 1.0);
  }

  lemma QuotientIs(x: real, y: real, q: real)
    requires y > 0.0 && q * y == x
    ensures x / y == q
  {
  }

  /** An exact sale, field by field. */
  lemma SaleFields(r: Inputs, k: nat, a: Account)
    requires r.p == Exact && k < |r.bars| && EntryInRange(r, a) && Balanced(r, a, k) && NextAction(a) == Sold
    ensures var t, price := ClosedTrade(r, k, a), SellPrice(r.bars[k], r.config);
            var sold, outlay := Gross(a.quantity, price), Outlay(a.quantity, a.entryPrice, a.entryFee);
            && t.entryIndex == a.entryIndex.value && t.exitIndex == k
            && t.quantity == a.quantity && t.entryPrice == a.entryPrice && t.entryFee == a.entryFee
            && t.exitPrice == price && t.exitFee == FeeOn(sold, r.config)
            && t.pnl == sold - t.exitFee - outlay
            && t.returnPct == (if outlay != 0.0 then t.pnl / outlay else 0.0)
  {
  }

  /** One unit's cost and proceeds are its price with the fee added or taken off. */
  lemma UnitsAtCost(quantity: real, bar: Bar, config: Config)
    ensures var bought, sold := Gross(quantity, BuyPrice(bar, config)), Gross(quantity, SellPrice(bar, config));
            && Gross(quantity, UnitCost(bar, config)) == bought + FeeOn(bought, config)
            && Gross(quantity, UnitProceeds(bar, config)) == sold - FeeOn(sold, config)
  {
    FeeSplits(quantity, BuyPrice(bar, config), config.feeRate);
    FeeSplits(quantity, SellPrice(bar, config), config.feeRate);
  }

  lemma SaleIsPriced(r: Inputs, k: nat, a: Account)
    requires r.p == Exact && k < |r.bars| && EntryInRange(r, a) && Balanced(r, a, k) && AllPriced(r, a)
    requires NextAction(a) == Sold
    ensures IsPriced(r, ClosedTrade(r, k, a))
  {
    hide ClosedTrade, UnitCost, UnitProceeds, BuyPrice, SellPrice, FeeOn, Gross, BarDate;
    var entry, bar := r.bars[a.entryIndex.value], r.bars[k];
    SaleFields(r, k, a);
    UnitsAtCost(a.quantity, entry, r.config);
    UnitsAtCost(a.quantity, bar, r.config);
    ReturnIsFactor(a.quantity, UnitCost(entry, r.config), UnitProceeds(bar, r.config));
  }

  lemma PurchaseIsPriced(r: Inputs, k: nat, a: Account)
    requires r.p == Exact && k < |r.bars| && EntryInRange(r, a) && Balanced(r, a, k) && AllPriced(r, a)
    requires NextAction(a) == Bought
    ensures AllPriced(r, Fill(r, k, a))
  {
  }

  lemma FillKeepsPrices(r: Inputs, k: nat)
    requires r.p == Exact && r.start <= k < |r.bars| && AllPriced(r, After(r, k))
    ensures AllPriced(r, Filled(r, k))
  {
    AlwaysBalanced(r, k);
    var a := After(r, k);
    hide After, Balanced, IsPriced, ClosedTrade, Buy, Sell, BuyPrice;
    match NextAction(a)
    case Bought => PurchaseIsPriced(r, k, a);
    case Sold => SaleIsPriced(r, k, a);
    case Kept => FillKept(r, k, a);
  }

  lemma OpeningPriced(r: Inputs)
    requires r.start <= |r.bars|
    ensures AllPriced(r, After(r, r.start))
  {
  }

  lemma SettleKeepsPrices(r: Inputs, k: nat)
    requires r.start <= k < |r.bars| && AllPriced(r, Filled(r, k))
    ensures AllPriced(r, After(r, k + 1))
  {
    OneBar(r, k);
    hide After, Filled, IsPriced, FeeOn, Gross;
  }

  lemma {:induction false} AlwaysPriced(r: Inputs, k: nat)
    requires r.p == Exact && r.start <= k <= |r.bars|
    ensures AllPriced(r, After(r, k))
  {
    hide After, Filled, AllPriced;
    if k == r.start {
      OpeningPriced(r);
    } else {
      AlwaysPriced(r, k - 1);
      FillKeepsPrices(r, k - 1);
      SettleKeepsPrices(r, k - 1);
    }
  }

  /** Every published trade is priced by its two fill bars. */
  lemma TradesArePriced(r: Inputs, t: Trade)
    requires r.p == Exact && r.start <= |r.bars| && t in Outcome(r).trades
    ensures IsPriced(r, t)
  {
    hide After, IsPriced;
    AlwaysPriced(r, |r.bars|);
  }

  /** Every measured bar has one point, with that bar's date, time and close, and with an equity that is the
      rounded worth of the cash and units it shows. */
  lemma CurveFollowsBars(r: Inputs, k: nat)
    requires r.start <= k < |r.bars|
    ensures |Outcome(r).curve| == |r.bars| - r.start
    ensures var point, bar := Outcome(r).curve[k - r.start], r.bars[k];
            && point.date == BarDate(bar) && point.close == bar.close
            && point.timestamp == (if r.market then BarTimestamp(bar) else None)
            && point.equity == Round(r.p, Worth(point.cash, point.quantity, point.close))
  {
    hide After, Filled, Balanced, Worth, BarDate, BarTimestamp, Round, Drawdown.MetricsOf, BuysEnough;
    CurveIsMarks(r, k, |r.bars|);
    AlwaysBalanced(r, k);
    var f := Filled(r, k);
    BalancedWorth(r, f, k + 1, r.bars[k].close);
  }

  /** Rounding what is held first does not change its rounded worth: one of the two is nothing, and units
      are already rounded. */
  lemma BalancedWorth(r: Inputs, a: Account, k: nat, close: real)
    requires Balanced(r, a, k)
    ensures Round(r.p, Worth(Round(r.p, a.cash), Round(r.p, a.quantity), close))
         == Round(r.p, Worth(a.cash, a.quantity, close))
  {
    hide Round;
    RoundOfZero(r.p);
    RoundIsIdempotent(r.p, a.cash);
    NoUnits(close);
    hide Gross;
  }

  lemma GrossOfSum(quantity: real, a: real, b: real)
    ensures Gross(quantity, a - b) == Gross(quantity, a) - Gross(quantity, b)
  {
  }

  lemma BenchmarkTradeGains(bars: seq<Bar>, config: Config, market: bool)
    requires bars != []
    ensures var trade := BenchmarkTrade(bars, config, market, Exact);
            var final := Gross(Buy(config.initialCash, bars[0], config, Exact).quantity, bars[|bars| - 1].close);
            && trade.Ok? && trade.value.pnl == final - config.initialCash
            && trade.value.returnPct == Drawdown.Return(config.initialCash, final)
  {
    var bought, last := Buy(config.initialCash, bars[0], config, Exact), bars[|bars| - 1];
    var price := BuyPrice(bars[0], config);
    BuyFacts(config.initialCash, bars[0], config, Exact);
    GrossOfSum(bought.quantity, last.close, price);
    GainIsRatioLessOne(Gross(bought.quantity, last.close), config.initialCash);
    hide Buy, BuyPrice, UnitCost, Gross, BarDate, BarTimestamp, ElapsedSeconds;
  }

  lemma BenchmarkEnds(bars: seq<Bar>, config: Config, market: bool)
    requires bars != []
    ensures var curve := BenchmarkCurve(bars, config, market, Exact);
            var bought := Buy(config.initialCash, bars[0], config, Exact);
            && |curve| == |bars| && curve[|bars| - 1].equity == Gross(bought.quantity, bars[|bars| - 1].close)
            && InvestedBars(curve) == |curve|
  {
    BuyFacts(config.initialCash, bars[0], config, Exact);
    hide Buy, BuyPrice, UnitCost, Gross, BarDate, BarTimestamp;
    HeldThroughout(BenchmarkCurve(bars, config, market, Exact),
                   Buy(config.initialCash, bars[0], config, Exact).quantity);
  }

  /** The benchmark's one trade earns what its equity gained, and returns what its metrics report. */
  lemma BenchmarkTradeIsItsGain(bars: seq<Bar>, config: Config, market: bool)
    requires bars != []
    ensures BuyAndHold(bars, config, market, Exact).Ok?
    ensures var result := BuyAndHold(bars, config, market, Exact).value;
            && |result.trades| == 1
            && result.trades[0].pnl == result.metrics.finalEquity - config.initialCash
            && result.trades[0].returnPct == result.metrics.totalReturn
            && result.metrics.exposure == 1.0
  {
    hide Buy, Gross, BenchmarkTrade, BenchmarkCurve, Drawdown.MetricsOf, Drawdown.Return;
    BenchmarkTradeGains(bars, config, market);
    BenchmarkEnds(bars, config, market);
    var curve := BenchmarkCurve(bars, config, market, Exact);
    HeldMetrics(curve, [BenchmarkTrade(bars, config, market, Exact).value], config);
  }

  lemma HeldMetrics(curve: seq<EquityPoint>, trades: seq<Trade>, config: Config)
    requires curve != [] && InvestedBars(curve) == |curve|
    ensures var m, final := Drawdown.MetricsOf(curve, trades, config, |curve|, Exact), curve[|curve| - 1].equity;
            m.finalEquity == final && m.totalReturn == Drawdown.Return(config.initialCash, final) && m.exposure == 1.0
  {
    hide InvestedBars, Drawdown.MaxDrawdown, Drawdown.Return, Winners, Losers, Equities;
    QuotientIs(|curve| as real, |curve| as real, 1.0);
  }

  lemma {:induction false} HeldThroughout(curve: seq<EquityPoint>, quantity: real)
    requires quantity > 0.0 && forall i | 0 <= i < |curve| :: curve[i].quantity == quantity
    ensures InvestedBars(curve) == |curve|
  {
    if curve != [] {
      HeldThroughout(curve[..|curve| - 1], quantity);
    }
  }

  /** The benchmark's one trade is bought at the first bar's open and marked at the last bar's close, with the
      dates and times of those bars, and pays no exit fee. */
  lemma BenchmarkTradeIsDocumented(bars: seq<Bar>, config: Config, market: bool, p: Precision)
    requires bars != [] && BuyAndHold(bars, config, market, p).Ok?
    ensures |BuyAndHold(bars, config, market, p).value.trades| == 1
    ensures var t := BuyAndHold(bars, config, market, p).value.trades[0];
            HasBenchmarkAmounts(t, bars, config, p) && HasBenchmarkTimes(t, bars, market)
  {
    hide HasBenchmarkAmounts, HasBenchmarkTimes, BenchmarkTrade, BenchmarkCurve, Drawdown.MetricsOf;
    BenchmarkAmounts(bars, config, market, p);
    BenchmarkTimes(bars, config, market, p);
    assert BuyAndHold(bars, config, market, p).value.trades == [BenchmarkTrade(bars, config, market, p).value];
  }

  ghost predicate HasBenchmarkAmounts(t: Trade, bars: seq<Bar>, config: Config, p: Precision)
    requires bars != []
  {
    && t.entryPrice == Round(p, BuyPrice(bars[0], config)) && t.exitPrice == bars[|bars| - 1].close
    && t.quantity == Buy(config.initialCash, bars[0], config, p).quantity
    && t.entryFee == Buy(config.initialCash, bars[0], config, p).fee && t.exitFee == 0.0
    && t.pnl == Round(p, Gross(t.quantity, t.exitPrice - t.entryPrice) - t.entryFee)
  }

  ghost predicate HasBenchmarkTimes(t: Trade, bars: seq<Bar>, market: bool)
    requires bars != []
  {
    var first, last := bars[0], bars[|bars| - 1];
    && t.entryIndex == 0 && t.exitIndex == |bars| - 1
    && t.entryDate == BarDate(first) && t.exitDate == BarDate(last)
    && t.entryTimestamp == (if market then BarTimestamp(first) else None)
    && t.exitTimestamp == (if market then BarTimestamp(last) else None)
    && t.holdingBars == (if market then Some(|bars| - 1) else None)
    && t.holdingElapsedSeconds == (if market then ElapsedSeconds(first, last) else None)
  }

  lemma BenchmarkAmounts(bars: seq<Bar>, config: Config, market: bool, p: Precision)
    requires bars != [] && BenchmarkTrade(bars, config, market, p).Ok?
    ensures HasBenchmarkAmounts(BenchmarkTrade(bars, config, market, p).value, bars, config, p)
  {
    hide Buy, BuyPrice, Outlay, BarDate, BarTimestamp, ElapsedSeconds, Round, Gross;
  }

  lemma BenchmarkTimes(bars: seq<Bar>, config: Config, market: bool, p: Precision)
    requires bars != [] && BenchmarkTrade(bars, config, market, p).Ok?
    ensures HasBenchmarkTimes(BenchmarkTrade(bars, config, market, p).value, bars, market)
  {
    hide Buy, BuyPrice, Outlay, BarDate, BarTimestamp, ElapsedSeconds, Round, Gross;
  }
}
