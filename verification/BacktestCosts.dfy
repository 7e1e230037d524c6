/** Fees and slippage never change what is held, and never help. */
module BacktestCosts {
  import opened Rounding
  import Signals
  import opened Bars
  import opened Ledger
  import opened Backtest
  import opened BacktestBooks

  /** The two runs hold the asset at the same bars. */
  ghost predicate SamePositions(a: seq<EquityPoint>, b: seq<EquityPoint>) {
    |a| == |b| && forall i | 0 <= i < |a| :: a[i].quantity > 0.0 <==> b[i].quantity > 0.0
  }

  /** Every equity of `a` is at most the equity of `b` at the same bar. */
  ghost predicate NeverAbove(a: seq<EquityPoint>, b: seq<EquityPoint>) {
    |a| == |b| && forall i | 0 <= i < |a| :: a[i].equity <= b[i].equity
  }

  lemma PositionAfterFill(r: Inputs, k: nat)
    requires r.start <= k < |r.bars| && BuysEnough(r, k, After(r, k))
    ensures Filled(r, k).quantity > 0.0 <==> After(r, k).pendingLong
    ensures Filled(r, k).pendingLong == After(r, k).pendingLong
    ensures Mark(r, k, Filled(r, k)).quantity == Filled(r, k).quantity >= 0.0
    ensures After(r, k).quantity >= 0.0
  {
    hide Balanced, BuysEnough, Round;
    AlwaysBalanced(r, k);
    BalancedQuantity(r, After(r, k), k);
    BalancedQuantity(r, Filled(r, k), k + 1);
  }

  lemma BalancedQuantity(r: Inputs, a: Account, k: nat)
    requires Balanced(r, a, k)
    ensures a.quantity >= 0.0 && a.cash >= 0.0 && (a.quantity > 0.0 ==> a.cash == 0.0) && IsRounded(r.p, a.quantity)
  {
  }

  /** Two accounts on the same side with the same history of sides. */
  ghost predicate SameSides(a: Account, b: Account) {
    && a.pendingLong == b.pendingLong
    && (a.quantity > 0.0 <==> b.quantity > 0.0)
    && SamePositions(a.curve, b.curve)
  }

  /** The two runs read the same signals from the same bar on. */
  ghost predicate SameSignals(r: Inputs, s: Inputs) {
    && |r.bars| == |s.bars| && r.start == s.start
    && forall i: nat, long: bool | i < |r.bars| :: SignalAt(r, i, long) == SignalAt(s, i, long)
  }

  function SignalAt(r: Inputs, i: nat, long: bool): bool
    requires i < |r.bars|
  {
    Signals.DesiredPosition(Closes(r.bars), r.strategy, i, long)
  }

  lemma SameBarsSignalAlike(r: Inputs, s: Inputs)
    requires r.bars == s.bars && r.strategy == s.strategy && r.start == s.start
    ensures SameSignals(r, s)
  {
  }

  lemma BarKeepsSides(r: Inputs, s: Inputs, k: nat)
    requires SameSignals(r, s) && r.start <= k < |r.bars|
    requires BuysEnough(r, k, After(r, k)) && BuysEnough(s, k, After(s, k))
    requires SameSides(After(r, k), After(s, k))
    ensures SameSides(After(r, k + 1), After(s, k + 1))
  {
    hide After, Filled, Mark, Signals.DesiredPosition, BuysEnough;
    PositionAfterFill(r, k);
    PositionAfterFill(s, k);
    OneBar(r, k);
    OneBar(s, k);
    var long := After(r, k).pendingLong;
    assert SignalAt(r, k, long) == SignalAt(s, k, long);
  }

  lemma OpeningSides(a: Config, b: Config)
    ensures SameSides(Opening(a), Opening(b))
  {
  }

  /** Which bars are held does not depend on the cash, the fee, the slippage or the rounding, as long as
      no fill is too small for the rounding. */
  lemma {:induction false} PositionsIgnoreCosts(r: Inputs, s: Inputs, k: nat)
    requires SameSignals(r, s) && r.start <= k <= |r.bars|
    requires EveryFillBuys(r, k) && EveryFillBuys(s, k)
    ensures SameSides(After(r, k), After(s, k))
  {
    hide SameSides, Step, BuysEnough;
    if k == r.start {
      OpeningSides(r.config, s.config);
    } else {
      PositionsIgnoreCosts(r, s, k - 1);
      BarKeepsSides(r, s, k - 1);
    }
  }

  ghost predicate Costlier(a: Config, b: Config) {
    a.initialCash <= b.initialCash && a.feeRate >= b.feeRate && a.slippageRate >= b.slippageRate
  }

  lemma ProductMonotone(a: real, b: real, x: real, y: real)
    requires 0.0 <= a <= b && 0.0 <= x <= y
    ensures a * x <= b * y
  {
  }

  lemma GrossMonotone(a: real, b: real, x: real, y: real)
    requires 0.0 <= a <= b && 0.0 <= x <= y
    ensures Gross(a, x) <= Gross(b, y)
  {
  }

  lemma QuotientMonotone(x: real, y: real, a: real, b: real)
    requires 0.0 <= x <= y && 0.0 < b <= a
    ensures x / a <= y / b
  {
  }

  /** Dearer entry, cheaper exit. */
  lemma UnitPrices(bar: Bar, dear: Config, cheap: Config)
    requires Costlier(dear, cheap)
    ensures UnitCost(bar, cheap) <= UnitCost(bar, dear)
    ensures UnitProceeds(bar, dear) <= UnitProceeds(bar, cheap)
  {
    hide Adjusted;
    AdjustedMonotone(bar.open, bar.open, 1.0 + cheap.slippageRate, 1.0 + dear.slippageRate);
    AdjustedMonotone(BuyPrice(bar, cheap), BuyPrice(bar, dear), 1.0 + cheap.feeRate, 1.0 + dear.feeRate);
    AdjustedMonotone(bar.open, bar.open, 1.0 - dear.slippageRate, 1.0 - cheap.slippageRate);
    AdjustedMonotone(SellPrice(bar, dear), SellPrice(bar, cheap), 1.0 - dear.feeRate, 1.0 - cheap.feeRate);
  }

  lemma AdjustedMonotone(a: real, b: real, x: real, y: real)
    requires 0.0 <= a <= b && 0.0 <= x <= y
    ensures Adjusted(a, x) <= Adjusted(b, y)
  {
    ProductMonotone(a, b, x, y);
  }

  predicate IsEmpty(a: Account) {
    a.cash == 0.0 && a.quantity == 0.0
  }

  /** `a` holds no more than `b`; unless a lost fill has emptied it, it is on the same side. */
  ghost predicate Poorer(a: Account, b: Account) {
    && 0.0 <= a.cash <= b.cash && 0.0 <= a.quantity <= b.quantity
    && (!IsEmpty(a) ==>
          && a.pendingLong == b.pendingLong
          && (a.quantity > 0.0 <==> b.quantity > 0.0)
          && (b.quantity > 0.0 ==> b.cash == 0.0))
  }

  lemma BuyKeepsPoorer(a: real, b: real, bar: Bar, dear: Config, cheap: Config, p: Precision)
    requires 0.0 <= a <= b && Costlier(dear, cheap)
    ensures var x, y := Buy(a, bar, dear, p), Buy(b, bar, cheap, p);
            0.0 == x.cash == y.cash && 0.0 <= x.quantity <= y.quantity
  {
    BuyFacts(a, bar, dear, p);
    BuyFacts(b, bar, cheap, p);
    UnitPrices(bar, dear, cheap);
    QuotientMonotone(a, b, UnitCost(bar, dear), UnitCost(bar, cheap));
    RoundIsMonotone(p, a / UnitCost(bar, dear), b / UnitCost(bar, cheap));
    hide UnitCost, BuyPrice, Gross, FeeOn, Round;
  }

  lemma SellKeepsPoorer(a: real, b: real, bar: Bar, dear: Config, cheap: Config, p: Precision)
    requires 0.0 <= a <= b && Costlier(dear, cheap)
    ensures 0.0 <= Sell(a, bar, dear, p).proceeds <= Sell(b, bar, cheap, p).proceeds
  {
    SellFacts(a, bar, dear, p);
    SellFacts(b, bar, cheap, p);
    UnitPrices(bar, dear, cheap);
    var x, y := Gross(a, UnitProceeds(bar, dear)), Gross(b, UnitProceeds(bar, cheap));
    GrossMonotone(a, b, UnitProceeds(bar, dear), UnitProceeds(bar, cheap));
    RoundIsMonotone(p, x, y);
  }

  lemma FillKeepsPoorer(r: Inputs, s: Inputs, k: nat, a: Account, b: Account)
    requires s == r.(config := s.config) && Costlier(r.config, s.config) && k < |r.bars|
    requires EntryInRange(r, a) && EntryInRange(s, b) && Poorer(a, b) && !IsEmpty(a)
    ensures Poorer(Fill(r, k, a), Fill(s, k, b))
  {
    hide Buy, Sell, BuyPrice, ClosedTrade, Round, BarDate;
    match NextAction(a)
    case Bought => BuyKeepsPoorer(a.cash, b.cash, r.bars[k], r.config, s.config, r.p);
    case Sold =>
      SellKeepsPoorer(a.quantity, b.quantity, r.bars[k], r.config, s.config, r.p);
      var x := Sell(a.quantity, r.bars[k], r.config, r.p).proceeds;
      var y := Sell(b.quantity, r.bars[k], s.config, r.p).proceeds;
      RoundOfZero(r.p);
      RoundIsMonotone(r.p, 0.0, a.cash + x);
      RoundIsMonotone(r.p, a.cash + x, b.cash + y);
    case Kept =>
  }

  lemma EmptyFill(r: Inputs, k: nat, a: Account)
    requires k < |r.bars| && EntryInRange(r, a) && IsEmpty(a)
    ensures IsEmpty(Fill(r, k, a))
  {
    NothingBuysNothing(r.bars[k], r.config, r.p);
    hide Buy;
  }

  lemma PoorerIsWorthLess(r: Inputs, s: Inputs, k: nat, a: Account, b: Account)
    requires s == r.(config := s.config) && k < |r.bars| && Poorer(a, b)
    ensures Mark(r, k, a).equity <= Mark(s, k, b).equity
  {
    var close := r.bars[k].close;
    GrossMonotone(a.quantity, b.quantity, close, close);
    RoundIsMonotone(r.p, Worth(a.cash, a.quantity, close), Worth(b.cash, b.quantity, close));
    hide Gross, Round;
  }

  lemma FilledPoorer(r: Inputs, s: Inputs, k: nat)
    requires s == r.(config := s.config) && Costlier(r.config, s.config) && r.start <= k < |r.bars|
    requires Poorer(After(r, k), After(s, k))
    ensures Poorer(Filled(r, k), Filled(s, k))
  {
    AlwaysBalanced(s, k);
    hide After, Fill, BuysEnough;
    if IsEmpty(After(r, k)) {
      EmptyFill(r, k, After(r, k));
      BalancedQuantity(s, Filled(s, k), k + 1);
    } else {
      FillKeepsPoorer(r, s, k, After(r, k), After(s, k));
    }
  }

  /** Two accounts of which the first is no richer, now and at every bar before. */
  ghost predicate Dominated(a: Account, b: Account) {
    Poorer(a, b) && NeverAbove(a.curve, b.curve)
  }

  lemma BarKeepsDominated(r: Inputs, s: Inputs, k: nat)
    requires s == r.(config := s.config) && Costlier(r.config, s.config) && r.start <= k < |r.bars|
    requires Dominated(After(r, k), After(s, k))
    ensures Dominated(After(r, k + 1), After(s, k + 1))
  {
    hide After, Filled, Mark, Signals.DesiredPosition;
    FilledPoorer(r, s, k);
    PoorerIsWorthLess(r, s, k, Filled(r, k), Filled(s, k));
    OneBar(r, k);
    OneBar(s, k);
  }

  lemma OpeningDominated(a: Config, b: Config)
    requires Costlier(a, b)
    ensures Dominated(Opening(a), Opening(b))
  {
  }

  /** At every bar of the whole run, the costlier configuration is worth no more. */
  lemma {:induction false} CostsNeverPay(r: Inputs, s: Inputs, k: nat)
    requires s == r.(config := s.config) && Costlier(r.config, s.config) && r.start <= k <= |r.bars|
    ensures Dominated(After(r, k), After(s, k))
  {
    hide Dominated, Step;
    if k == r.start {
      OpeningDominated(r.config, s.config);
    } else {
      CostsNeverPay(r, s, k - 1);
      BarKeepsDominated(r, s, k - 1);
    }
  }

  /** Where the costlier account buys enough, the other one does. */
  lemma CheaperBuysEnough(r: Inputs, s: Inputs, k: nat, a: Account, b: Account)
    requires s == r.(config := s.config) && Costlier(r.config, s.config) && k < |r.bars|
    requires Poorer(a, b) && BuysEnough(r, k, a) && (NextAction(b) == Bought ==> NextAction(a) == Bought)
    ensures BuysEnough(s, k, b)
  {
    UnitPrices(r.bars[k], r.config, s.config);
    QuotientMonotone(a.cash, b.cash, UnitCost(r.bars[k], r.config), UnitCost(r.bars[k], s.config));
    hide UnitCost;
  }

  lemma NoFillsYet(r: Inputs)
    requires r.start <= |r.bars|
    ensures EveryFillBuys(r, r.start)
  {
  }

  lemma FillsBefore(r: Inputs, k: nat)
    requires r.start <= k < |r.bars|
    ensures EveryFillBuys(r, k + 1) <==> EveryFillBuys(r, k) && BuysEnough(r, k, After(r, k))
  {
    hide After, BuysEnough;
  }

  /** A run outlasts the rounding at every fill if a costlier one does. */
  lemma {:induction false} CheaperFillsBuy(r: Inputs, s: Inputs, k: nat)
    requires s == r.(config := s.config) && Costlier(r.config, s.config) && r.start <= k <= |r.bars|
    requires EveryFillBuys(r, k)
    ensures EveryFillBuys(s, k)
  {
    hide After, BuysEnough, EveryFillBuys, SameSides, Dominated, Poorer, NextAction, SameSignals;
    if k == r.start {
      NoFillsYet(s);
    } else {
      FillsBefore(r, k - 1);
      FillsBefore(s, k - 1);
      CheaperFillsBuy(r, s, k - 1);
      SameBarsSignalAlike(r, s);
      PositionsIgnoreCosts(r, s, k - 1);
      CostsNeverPay(r, s, k - 1);
      SameAction(After(r, k - 1), After(s, k - 1));
      CheaperBuysEnough(r, s, k - 1, After(r, k - 1), After(s, k - 1));
    }
  }

  lemma SameAction(a: Account, b: Account)
    requires SameSides(a, b) && Dominated(a, b)
    ensures NextAction(a) == NextAction(b) && Poorer(a, b)
  {
  }

  /** Cost monotonicity of the published results: with fee and slippage at least as large and no more cash,
      no point of the curve is higher, in both precisions.  As long as no fill of the dearer run is too
      small for the rounding, which in exact arithmetic none ever is, both hold the asset at the same bars. */
  lemma CheaperRunDominates(r: Inputs, cheap: Config)
    requires r.start <= |r.bars| && Costlier(r.config, cheap)
    ensures NeverAbove(Outcome(r).curve, Outcome(r.(config := cheap)).curve)
    ensures r.p == Exact ==> EveryFillBuys(r, |r.bars|)
    ensures EveryFillBuys(r, |r.bars|) ==>
              SamePositions(Outcome(r).curve, Outcome(r.(config := cheap)).curve)
  {
    hide After, EveryFillBuys;
    var s := r.(config := cheap);
    CostsNeverPay(r, s, |r.bars|);
    ExactFillsBuy(r, |r.bars|);
    if EveryFillBuys(r, |r.bars|) {
      CheaperFillsBuy(r, s, |r.bars|);
      SameBarsSignalAlike(r, s);
      PositionsIgnoreCosts(r, s, |r.bars|);
    }
  }

  lemma ExactFillsBuy(r: Inputs, n: nat)
    requires n <= |r.bars|
    ensures r.p == Exact ==> EveryFillBuys(r, n)
  {
  }
}
