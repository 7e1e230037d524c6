/** What every account keeps, at every bar and in both precisions. */
module BacktestBooks {
  import opened Wrappers
  import opened Rounding
  import opened Bars
  import opened Ledger
  import opened Backtest
  import Signals

  /** What one unit brings in after the fee. */
  function UnitProceeds(bar: Bar, config: Config): (proceeds: real)
    ensures proceeds > 0.0
  {
    Adjusted(SellPrice(bar, config), 1.0 - config.feeRate)
  }

  lemma Quotient(x: real, y: real)
    requires x >= 0.0 && y > 0.0
    ensures x / y >= 0.0 && x / y * y == x
    ensures x / y == 0.0 <==> x == 0.0
  {
  }

  lemma ProductSign(x: real, y: real)
    requires x >= 0.0 && y > 0.0
    ensures x * y >= 0.0
    ensures x * y == 0.0 <==> x == 0.0
  {
  }

  /** The gross is linear in the units. */
  lemma GrossOfDifference(a: real, b: real, price: real)
    ensures Gross(a, price) - Gross(b, price) == Gross(a - b, price)
  {
  }

  lemma GrossOfRounding(error: real, price: real)
    requires -HALF_UNIT <= error <= HALF_UNIT && price > 0.0
    ensures -Gross(HALF_UNIT, price) <= Gross(error, price) <= Gross(HALF_UNIT, price)
  {
  }

  lemma GrossSign(quantity: real, price: real)
    requires quantity >= 0.0 && price > 0.0
    ensures Gross(quantity, price) >= 0.0
    ensures Gross(quantity, price) == 0.0 <==> quantity == 0.0
  {
  }

  lemma FeeSplits(quantity: real, fill: real, rate: real)
    ensures quantity * (fill * (1.0 + rate)) == quantity * fill + quantity * fill * rate
    ensures quantity * (fill * (1.0 - rate)) == quantity * fill - quantity * fill * rate
  {
  }

  /** The exact amounts behind a purchase: gross and fee together are all the cash. */
  lemma SpendsEverything(cash: real, bar: Bar, config: Config)
    requires cash >= 0.0
    ensures var q := cash / UnitCost(bar, config);
            var gross := Gross(q, BuyPrice(bar, config));
            q >= 0.0 && Gross(q, UnitCost(bar, config)) == cash && (q == 0.0 <==> cash == 0.0)
            && gross + FeeOn(gross, config) == cash
  {
    Quotient(cash, UnitCost(bar, config));
    FeeSplits(cash / UnitCost(bar, config), BuyPrice(bar, config), config.feeRate);
  }

  /** A purchase spends all the cash, up to the rounding of units and fee. */
  lemma BuyFacts(cash: real, bar: Bar, config: Config, p: Precision)
    requires cash >= 0.0
    ensures var b, fill := Buy(cash, bar, config, p), BuyPrice(bar, config);
            && b.cash == 0.0 && b.quantity >= 0.0 && IsRounded(p, b.quantity)
            && (p == Exact ==> Gross(b.quantity, UnitCost(bar, config)) == cash && (b.quantity == 0.0 <==> cash == 0.0))
            && (p == Exact ==> Outlay(b.quantity, fill, b.fee) == cash)
            && var error := Gross(HALF_UNIT, fill) + HALF_UNIT;
            && -error <= Outlay(b.quantity, fill, b.fee) - cash <= error
  {
    SpendsEverything(cash, bar, config);
    hide BuyPrice, UnitCost, Round, Gross, FeeOn;
    var q, fill := cash / UnitCost(bar, config), BuyPrice(bar, config);
    var fee := FeeOn(Gross(q, fill), config);
    ExactRound(q);
    ExactRound(fee);
    RoundIsNear(p, q);
    RoundIsNear(p, fee);
    RoundIsIdempotent(p, q);
    RoundOfZero(p);
    RoundIsMonotone(p, 0.0, q);
    GrossOfDifference(Round(p, q), q, fill);
    GrossOfRounding(Round(p, q) - q, fill);
  }

  lemma ExactRound(x: real)
    ensures Round(Exact, x) == x
  {
  }

  /** A sale brings in units times unit proceeds, rounded. */
  lemma SellFacts(quantity: real, bar: Bar, config: Config, p: Precision)
    requires quantity >= 0.0
    ensures var s, net := Sell(quantity, bar, config, p), Gross(quantity, UnitProceeds(bar, config));
            && s.proceeds == Round(p, net) && s.proceeds >= 0.0 && IsRounded(p, s.proceeds)
            && (p == Exact ==> s.proceeds == net)
            && (quantity > 0.0 ==> net > 0.0)
  {
    FeeSplits(quantity, SellPrice(bar, config), config.feeRate);
    var net := Gross(quantity, UnitProceeds(bar, config));
    var gross := Gross(quantity, SellPrice(bar, config));
    assert gross - FeeOn(gross, config) == net;
    GrossSign(quantity, UnitProceeds(bar, config));
    assert Sell(quantity, bar, config, p).proceeds == Round(p, net);
    hide Sell, SellPrice, UnitProceeds, Round, Gross, FeeOn;
    ExactRound(net);
    RoundOfZero(p);
    RoundIsMonotone(p, 0.0, net);
    RoundIsIdempotent(p, net);
  }

  /** A purchase fills at the open plus slippage, a sale at the open less slippage. */
  lemma FillPrices(bar: Bar, config: Config)
    ensures BuyPrice(bar, config) == bar.open * (1.0 + config.slippageRate)
    ensures SellPrice(bar, config) == bar.open * (1.0 - config.slippageRate)
  {
  }

  /** An exact purchase spends the cash on units at the open plus slippage, and the fee on top; an exact sale
      brings in the open less slippage, less the fee. */
  lemma ExactFills(cash: real, quantity: real, bar: Bar, config: Config)
    requires cash >= 0.0 && quantity >= 0.0
    ensures var b := Buy(cash, bar, config, Exact);
            && b.quantity * (bar.open * (1.0 + config.slippageRate)) * (1.0 + config.feeRate) == cash && b.cash == 0.0
            && b.fee == b.quantity * (bar.open * (1.0 + config.slippageRate)) * config.feeRate
    ensures var s := Sell(quantity, bar, config, Exact);
            && s.price == bar.open * (1.0 - config.slippageRate)
            && s.fee == quantity * s.price * config.feeRate
            && s.proceeds == quantity * s.price - s.fee
  {
    FillPrices(bar, config);
    ExactPurchase(cash, bar, config);
    ExactSale(quantity, bar, config);
    hide Buy, Sell, BuyPrice, SellPrice;
  }

  lemma ExactPurchase(cash: real, bar: Bar, config: Config)
    requires cash >= 0.0
    ensures var b, fill := Buy(cash, bar, config, Exact), BuyPrice(bar, config);
            b.quantity * fill * (1.0 + config.feeRate) == cash && b.cash == 0.0
            && b.fee == b.quantity * fill * config.feeRate
  {
    BuyFacts(cash, bar, config, Exact);
    var q, fill := Buy(cash, bar, config, Exact).quantity, BuyPrice(bar, config);
    PaidInFull(q, fill, config.feeRate);
    hide BuyPrice;
  }

  lemma ExactSale(quantity: real, bar: Bar, config: Config)
    ensures var s := Sell(quantity, bar, config, Exact);
            && s.price == SellPrice(bar, config) && s.fee == quantity * s.price * config.feeRate
            && s.proceeds == quantity * s.price - s.fee
  {
    hide SellPrice;
  }

  lemma PaidInFull(quantity: real, fill: real, rate: real)
    ensures quantity * fill * (1.0 + rate) == quantity * (fill * (1.0 + rate))
  {
  }

  /** Cash and units are never negative and never both held; an open position remembers its entry. */
  ghost predicate Balanced(r: Inputs, a: Account, k: nat) {
    && a.cash >= 0.0 && a.quantity >= 0.0 && IsRounded(r.p, a.quantity)
    && (r.p == Exact ==> a.cash > 0.0 || a.quantity > 0.0)
    && (a.quantity > 0.0 ==>
          && a.cash == 0.0
          && a.entryIndex.Some? && r.start <= a.entryIndex.value < k <= |r.bars|
          && a.entryDate == Some(BarDate(r.bars[a.entryIndex.value]))
          && a.entryQuantity == a.quantity
          && a.entryPrice == BuyPrice(r.bars[a.entryIndex.value], r.config))
  }

  /** The fill of bar `k` buys nothing, or more than rounding loses. */
  predicate BuysEnough(r: Inputs, k: nat, a: Account)
    requires k < |r.bars|
  {
    r.p == Exact || NextAction(a) != Bought || a.cash / UnitCost(r.bars[k], r.config) > HALF_UNIT
  }

  /** No fill before bar `n` is too small for the rounding; in exact arithmetic none ever is. */
  ghost predicate EveryFillBuys(r: Inputs, n: nat)
    requires n <= |r.bars|
  {
    forall k | r.start <= k < n :: BuysEnough(r, k, After(r, k))
  }

  lemma BoughtSomething(cash: real, bar: Bar, config: Config, p: Precision)
    requires cash >= 0.0
    ensures Buy(cash, bar, config, p).quantity > 0.0
       <==> if p == Exact then cash > 0.0 else cash / UnitCost(bar, config) > HALF_UNIT
  {
    BuyFacts(cash, bar, config, p);
    SpendsEverything(cash, bar, config);
    RoundsToZero(cash / UnitCost(bar, config));
    hide Round, BuyPrice, UnitCost, Gross, FeeOn;
  }

  lemma FillKeepsBalance(r: Inputs, k: nat, a: Account)
    requires k < |r.bars| && r.start <= k && EntryInRange(r, a) && Balanced(r, a, k)
    ensures Balanced(r, Fill(r, k, a), k + 1)
    ensures Fill(r, k, a).quantity > 0.0 <==> a.pendingLong && BuysEnough(r, k, a)
  {
    hide Buy, Sell, BuyPrice, Round, BarDate, ClosedTrade, UnitProceeds, UnitCost, Gross;
    match NextAction(a)
    case Bought =>
      BuyFacts(a.cash, r.bars[k], r.config, r.p);
      BoughtSomething(a.cash, r.bars[k], r.config, r.p);
    case Sold =>
      SellFacts(a.quantity, r.bars[k], r.config, r.p);
      RoundOfZero(r.p);
      SaleKeepsCash(r.p, a.cash, Sell(a.quantity, r.bars[k], r.config, r.p).proceeds);
    case Kept =>
  }

  /** Proceeds arrive on an empty balance, so adding them rounds nothing away. */
  lemma SaleKeepsCash(p: Precision, cash: real, proceeds: real)
    requires IsRounded(p, proceeds) && cash == 0.0
    ensures Round(p, cash + proceeds) == proceeds
  {
  }

  /** The invariant of the whole run, before and after each fill.  The account is long after the fill
      exactly when the last signal asked for it and a purchase, if it takes one, outlasts the rounding. */
  lemma {:induction false} AlwaysBalanced(r: Inputs, k: nat)
    requires r.start <= k <= |r.bars|
    ensures Balanced(r, After(r, k), k)
    ensures k < |r.bars| ==> Balanced(r, Filled(r, k), k + 1)
    ensures k < |r.bars| ==>
              (Filled(r, k).quantity > 0.0 <==> After(r, k).pendingLong && BuysEnough(r, k, After(r, k)))
  {
    hide BuysEnough, Fill, BuyPrice, BarDate, Round;
    if k == r.start {
      assert IsRounded(r.p, 0.0) by { RoundOfZero(r.p); }
    } else {
      AlwaysBalanced(r, k - 1);
    }
    if k < |r.bars| {
      FillKeepsBalance(r, k, After(r, k));
    }
  }

  /** What one more bar does to the account: its fill, one curve point, the next signal. */
  lemma OneBar(r: Inputs, k: nat)
    requires r.start <= k < |r.bars|
    ensures var before, filled, after := After(r, k), Filled(r, k), After(r, k + 1);
            && filled.pendingLong == before.pendingLong
            && after == filled.(curve := before.curve + [Mark(r, k, filled)], pendingLong := after.pendingLong)
            && var long := filled.pendingLong && filled.quantity != 0.0;
            && after.pendingLong == Signals.DesiredPosition(Closes(r.bars), r.strategy, k, long)
  {
    hide Mark, Signals.DesiredPosition, Buy, Sell, ClosedTrade, Round;
  }

  lemma FillKept(r: Inputs, k: nat, a: Account)
    requires k < |r.bars| && EntryInRange(r, a) && NextAction(a) == Kept
    ensures Fill(r, k, a) == a
  {
  }

  lemma NothingBuysNothing(bar: Bar, config: Config, p: Precision)
    ensures Buy(0.0, bar, config, p).quantity == 0.0 && Buy(0.0, bar, config, p).cash == 0.0
  {
    BuyFacts(0.0, bar, config, p);
    SpendsEverything(0.0, bar, config);
    RoundOfZero(p);
  }
}
