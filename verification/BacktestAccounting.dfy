/** Conservation of money over a whole run, in exact arithmetic and with 12 decimals. */
module BacktestAccounting {
  import opened Wrappers
  import opened Rounding
  import opened Bars
  import opened Ledger
  import opened Backtest
  import opened BacktestBooks
  import Signals

  function Profit(trades: seq<Trade>): real {
    if trades == [] then 0.0 else Profit(trades[..|trades| - 1]) + trades[|trades| - 1].pnl
  }

  /** The error of one rounding. */
  function HalfUnit(p: Precision): real {
    if p == Exact then 0.0 else HALF_UNIT
  }

  /** The error of rounding a number of units at this price, and of `roundings` amounts beside it. */
  function Tolerance(p: Precision, price: real, roundings: real): real {
    if p == Exact then 0.0 else Gross(HALF_UNIT, price) + HALF_UNIT * roundings
  }

  /** The rounding a list of closed trades may have accumulated. */
  function Slack(r: Inputs, trades: seq<Trade>): real
    requires forall t | t in trades :: t.entryIndex < |r.bars|
  {
    if trades == [] then 0.0
    else
      var last := trades[|trades| - 1];
      Slack(r, trades[..|trades| - 1]) + Tolerance(r.p, BuyPrice(r.bars[last.entryIndex], r.config), 2.0)
  }

  /** The fill of bar `k` pays cash for units that round to nothing. */
  predicate LosesFill(r: Inputs, k: nat)
    requires r.start <= k < |r.bars|
  {
    var a := After(r, k);
    NextAction(a) == Bought && a.cash > 0.0 && Filled(r, k).quantity == 0.0
  }

  /** The cash such fills have destroyed before bar `k`. */
  function Lost(r: Inputs, k: nat): real
    requires r.start <= k <= |r.bars|
  {
    if k == r.start then 0.0
    else Lost(r, k - 1) + if LosesFill(r, k - 1) then After(r, k - 1).cash else 0.0
  }

  predicate Within(x: real, tolerance: real) {
    -tolerance <= x <= tolerance
  }

  /** What the account holds at cost, plus what it lost, is the initial cash plus the closed profits. */
  ghost predicate Conserved(r: Inputs, a: Account, lost: real) {
    && (forall t | t in a.trades :: t.entryIndex < |r.bars|)
    && (a.quantity == 0.0 ==>
          Within(a.cash + lost - (r.config.initialCash + Profit(a.trades)), Slack(r, a.trades)))
    && (a.quantity > 0.0 ==>
          Within(Invested(a) + lost - (r.config.initialCash + Profit(a.trades)),
                 Slack(r, a.trades) + Tolerance(r.p, a.entryPrice, 1.0)))
  }

  lemma ProfitOfAppend(trades: seq<Trade>, t: Trade)
    ensures Profit(trades + [t]) == Profit(trades) + t.pnl
  {
  }

  lemma SlackOfAppend(r: Inputs, trades: seq<Trade>, t: Trade)
    requires forall s | s in trades + [t] :: s.entryIndex < |r.bars|
    ensures forall s | s in trades :: s.entryIndex < |r.bars|
    ensures Slack(r, trades + [t])
         == Slack(r, trades) + Tolerance(r.p, BuyPrice(r.bars[t.entryIndex], r.config), 2.0)
  {
  }

  lemma RoundWithin(p: Precision, x: real)
    ensures Within(Round(p, x) - x, HalfUnit(p))
  {
  }

  lemma OutlayWithin(cash: real, bar: Bar, config: Config, p: Precision)
    requires cash >= 0.0
    ensures var b, fill := Buy(cash, bar, config, p), BuyPrice(bar, config);
            Within(Outlay(b.quantity, fill, b.fee) - cash, Tolerance(p, fill, 1.0))
  {
    BuyFacts(cash, bar, config, p);
    hide Outlay, BuyPrice, Buy, Gross;
  }

  lemma BuyConserves(r: Inputs, k: nat, a: Account, lost: real)
    requires k < |r.bars| && EntryInRange(r, a) && Balanced(r, a, k)
    requires Conserved(r, a, lost) && NextAction(a) == Bought
    ensures var f := Fill(r, k, a);
            Conserved(r, f, lost + if a.cash > 0.0 && f.quantity == 0.0 then a.cash else 0.0)
  {
    OutlayWithin(a.cash, r.bars[k], r.config, r.p);
    BuyFacts(a.cash, r.bars[k], r.config, r.p);
    hide Buy, BuyPrice, Outlay, Profit, Slack, Round;
  }

  lemma SellConserves(r: Inputs, k: nat, a: Account, lost: real)
    requires k < |r.bars| && EntryInRange(r, a) && Balanced(r, a, k)
    requires Conserved(r, a, lost) && NextAction(a) == Sold
    ensures Conserved(r, Fill(r, k, a), lost)
  {
    var t := ClosedTrade(r, k, a);
    var proceeds := Sell(a.quantity, r.bars[k], r.config, r.p).proceeds;
    assert t.pnl == Round(r.p, proceeds - Invested(a));
    hide Sell, BuyPrice, Outlay, Round;
    RoundWithin(r.p, proceeds - Invested(a));
    SellFacts(a.quantity, r.bars[k], r.config, r.p);
    ProfitOfAppend(a.trades, t);
    SlackOfAppend(r, a.trades, t);
    hide Profit, Slack, ClosedTrade;
  }

  lemma FillConserves(r: Inputs, k: nat)
    requires r.start <= k < |r.bars| && Conserved(r, After(r, k), Lost(r, k))
    ensures Conserved(r, Filled(r, k), Lost(r, k + 1))
  {
    AlwaysBalanced(r, k);
    hide After, Fill;
    var a := After(r, k);
    match NextAction(a)
    case Bought => BuyConserves(r, k, a, Lost(r, k));
    case Sold => SellConserves(r, k, a, Lost(r, k));
    case Kept => FillKept(r, k, a);
  }

  lemma OpeningConserves(r: Inputs)
    requires r.start <= |r.bars|
    ensures Conserved(r, After(r, r.start), Lost(r, r.start))
  {
  }

  lemma SettleConserves(r: Inputs, k: nat)
    requires r.start <= k < |r.bars| && Conserved(r, Filled(r, k), Lost(r, k + 1))
    ensures Conserved(r, After(r, k + 1), Lost(r, k + 1))
  {
    OneBar(r, k);
    hide After, Filled, Lost, Profit, Slack, Tolerance, Outlay;
  }

  /** The law of the whole run, before and after each fill. */
  lemma {:induction false} AlwaysConserved(r: Inputs, k: nat)
    requires r.start <= k <= |r.bars|
    ensures Conserved(r, After(r, k), Lost(r, k))
    ensures k < |r.bars| ==> Conserved(r, Filled(r, k), Lost(r, k + 1))
  {
    hide After, Filled, Lost, Conserved;
    if k == r.start {
      OpeningConserves(r);
    } else {
      AlwaysConserved(r, k - 1);
      SettleConserves(r, k - 1);
    }
    if k < |r.bars| {
      FillConserves(r, k);
    }
  }

  /** The money held at bar `k` beyond what was paid for it. */
  function OpenGain(r: Inputs, k: nat): real
    requires r.start <= k < |r.bars|
  {
    var f := Filled(r, k);
    if f.quantity > 0.0 then Gross(f.quantity, r.bars[k].close) - Invested(f) else 0.0
  }

  /** The rounding bar `k` may show: that of its closed trades, of its open entry and of its own equity. */
  function EquitySlack(r: Inputs, k: nat): real
    requires r.start <= k < |r.bars|
    requires forall t | t in Filled(r, k).trades :: t.entryIndex < |r.bars|
  {
    var f := Filled(r, k);
    Slack(r, f.trades) + (if f.quantity > 0.0 then Tolerance(r.p, f.entryPrice, 1.0) else 0.0) + HalfUnit(r.p)
  }

  /** At every bar, equity plus lost cash is initial cash plus closed profits plus the open gain, to the
      rounding; in exact arithmetic nothing is lost and both sides are equal. */
  lemma EquityIsAccounted(r: Inputs, k: nat)
    requires r.start <= k < |r.bars|
    ensures forall t | t in Filled(r, k).trades :: t.entryIndex < |r.bars|
    ensures var point := After(r, k + 1).curve[k - r.start];
            Within(point.equity + Lost(r, k + 1)
                   - (r.config.initialCash + Profit(Filled(r, k).trades) + OpenGain(r, k)),
                   EquitySlack(r, k))
    ensures r.p == Exact ==> Lost(r, k + 1) == 0.0 && EquitySlack(r, k) == 0.0
  {
    hide After, Filled, Gross, Outlay, Round, Lost, Profit, Slack, Balanced;
    AlwaysConserved(r, k);
    AlwaysBalanced(r, k);
    OneBar(r, k);
    NothingLostExactly(r, k + 1);
    var f := Filled(r, k);
    HeldOneWay(r, f, k + 1);
    RoundWithin(r.p, Worth(f.cash, f.quantity, r.bars[k].close));
    GrossOfNothing(r.bars[k].close);
    ExactSlack(r, f.trades);
  }

  lemma HeldOneWay(r: Inputs, a: Account, k: nat)
    requires Balanced(r, a, k)
    ensures a.quantity >= 0.0 && (a.quantity > 0.0 ==> a.cash == 0.0)
  {
  }

  lemma GrossOfNothing(price: real)
    ensures Gross(0.0, price) == 0.0
  {
  }

  lemma {:induction false} ExactSlack(r: Inputs, trades: seq<Trade>)
    requires forall t | t in trades :: t.entryIndex < |r.bars|
    ensures r.p == Exact ==> Slack(r, trades) == 0.0
  {
    if trades != [] {
      ExactSlack(r, trades[..|trades| - 1]);
    }
  }

  lemma BoughtIsPending(a: Account)
    ensures NextAction(a) == Bought ==> a.pendingLong
  {
  }

  lemma ExactFillLosesNothing(r: Inputs, k: nat)
    requires r.p == Exact && r.start <= k < |r.bars|
    ensures !LosesFill(r, k)
  {
    hide After, Filled, Balanced;
    AlwaysBalanced(r, k);
    BoughtIsPending(After(r, k));
  }

  lemma {:induction false} NothingLostExactly(r: Inputs, k: nat)
    requires r.start <= k <= |r.bars|
    ensures r.p == Exact ==> Lost(r, k) == 0.0
  {
    hide After, LosesFill;
    if k > r.start && r.p == Exact {
      NothingLostExactly(r, k - 1);
      ExactFillLosesNothing(r, k - 1);
    }
  }

  /** Whenever the account is flat after a fill, its cash and its losses differ from initial cash plus
      profits by at most half a unit for each closed trade's entry price plus two. */
  lemma FlatCashIsConserved(r: Inputs, k: nat)
    requires r.start <= k < |r.bars| && Filled(r, k).quantity == 0.0
    ensures forall t | t in Filled(r, k).trades :: t.entryIndex < |r.bars|
    ensures var f := Filled(r, k);
            Within(f.cash + Lost(r, k + 1) - (r.config.initialCash + Profit(f.trades)), Slack(r, f.trades))
  {
    AlwaysConserved(r, k);
  }

  /** A fill destroys cash exactly when the cash buys at most half a rounding unit. */
  lemma FillLostIffTooSmall(r: Inputs, k: nat)
    requires r.start <= k < |r.bars|
    ensures var a := After(r, k);
            LosesFill(r, k) <==>
            r.p == Decimals12 && NextAction(a) == Bought && 0.0 < a.cash
            && a.cash / UnitCost(r.bars[k], r.config) <= HALF_UNIT
  {
    AlwaysBalanced(r, k);
    var a := After(r, k);
    if NextAction(a) == Bought {
      var q := a.cash / UnitCost(r.bars[k], r.config);
      SpendsEverything(a.cash, r.bars[k], r.config);
      RoundsToZero(q);
    }
  }

  /** After such a fill the account is empty for the rest of the run and closes no trade. */
  lemma {:induction false} LostForGood(r: Inputs, j: nat, k: nat)
    requires r.start <= j < k <= |r.bars| && LosesFill(r, j)
    ensures After(r, k).cash == 0.0 && After(r, k).quantity == 0.0
    ensures After(r, k).trades == After(r, j).trades
  {
    hide After, Fill;
    if k == j + 1 {
      LosingFillEmpties(r, j);
    } else {
      LostForGood(r, j, k - 1);
      EmptyStaysEmpty(r, k - 1, After(r, k - 1));
    }
    OneBar(r, k - 1);
  }

  lemma LosingFillEmpties(r: Inputs, j: nat)
    requires r.start <= j < |r.bars| && LosesFill(r, j)
    ensures var f := Filled(r, j); f.cash == 0.0 && f.quantity == 0.0 && f.trades == After(r, j).trades
  {
    hide After, Buy;
    BuyFacts(After(r, j).cash, r.bars[j], r.config, r.p);
  }

  lemma EmptyStaysEmpty(r: Inputs, k: nat, a: Account)
    requires k < |r.bars| && EntryInRange(r, a) && a.cash == 0.0 && a.quantity == 0.0
    ensures var f := Fill(r, k, a); f.cash == 0.0 && f.quantity == 0.0 && f.trades == a.trades
  {
  }

  /** A flat bar with nothing pending only reads its signal. */
  lemma QuietBar(r: Inputs, k: nat)
    requires r.start <= k < |r.bars|
    requires After(r, k).quantity == 0.0 && !After(r, k).pendingLong
    ensures var a, b := After(r, k), After(r, k + 1);
            && !LosesFill(r, k) && b.cash == a.cash && b.quantity == 0.0 && b.trades == a.trades
            && b.pendingLong == Signals.DesiredPosition(Closes(r.bars), r.strategy, k, false)
  {
    OneBar(r, k);
    hide After;
    FillKept(r, k, After(r, k));
  }

  const LOW := 4000000000000.0
  const HIGH := 5000000000000.0

  /** One unit of cash and a breakout at a price it cannot buy half a rounding unit of. */
  function TinyRun(): Inputs {
    Inputs([DailyBar(0, LOW, LOW, LOW, LOW), DailyBar(1, HIGH, HIGH, HIGH, HIGH), DailyBar(2, HIGH, HIGH, HIGH, HIGH)],
           Signals.Breakout(1), RawConfig.Config(1.0, 0.0, 0.0), 0, false, Decimals12)
  }

  lemma TinySignals()
    ensures var closes := Closes(TinyRun().bars);
            && !Signals.DesiredPosition(closes, Signals.Breakout(1), 0, false)
            && Signals.DesiredPosition(closes, Signals.Breakout(1), 1, false)
  {
  }

  lemma TinyRunReachesBuy(r: Inputs, k: nat)
    requires r == TinyRun() && k == 2
    ensures && After(r, k).cash == 1.0 && After(r, k).quantity == 0.0 && After(r, k).trades == []
            && After(r, k).pendingLong && Lost(r, k) == 0.0
  {
    TinySignals();
    assert After(r, 0) == Opening(r.config);
    hide After, Signals.DesiredPosition;
    QuietBar(r, 0);
    QuietBar(r, 1);
    assert Lost(r, 0) == 0.0;
    assert Lost(r, 1) == 0.0;
  }

  lemma OneUnitIsTooLittle(r: Inputs, k: nat)
    requires r.start <= k < |r.bars| && r.p == Decimals12 && NextAction(After(r, k)) == Bought
    requires After(r, k).cash == 1.0 && UnitCost(r.bars[k], r.config) == HIGH
    ensures LosesFill(r, k)
  {
    hide After, UnitCost, LosesFill;
    FillLostIffTooSmall(r, k);
    OneOverHigh(After(r, k).cash, UnitCost(r.bars[k], r.config));
  }

  lemma OneOverHigh(cash: real, cost: real)
    requires cash == 1.0 && cost == HIGH
    ensures cash / cost <= HALF_UNIT
  {
  }

  lemma TinyRunIsAccepted(r: Inputs)
    requires r == TinyRun()
    ensures Accept(r.bars, r.strategy, r.config, r.start, None, r.p) == Ok(r)
  {
  }

  lemma TinyPrice(r: Inputs, k: nat)
    requires r == TinyRun() && k == 2
    ensures r.start <= k < |r.bars| && r.p == Decimals12 && r.config.initialCash == 1.0
    ensures UnitCost(r.bars[k], r.config) == HIGH
  {
  }

  /** Flat after bar `k`, without a closed trade, and yet without the initial cash. */
  ghost predicate BreaksPlainLaw(r: Inputs, k: nat)
    requires r.start <= k < |r.bars|
  {
    var f := Filled(r, k);
    f.quantity == 0.0 && f.trades == [] && !Within(f.cash - (r.config.initialCash + Profit([])), Slack(r, []))
  }

  /** Where the first fill of a run is lost, the law without the lost cash is false. */
  lemma FirstLossBreaksBound(r: Inputs, k: nat)
    requires r.start <= k < |r.bars| && LosesFill(r, k) && After(r, k).trades == [] && Lost(r, k) == 0.0
    requires After(r, k).cash == r.config.initialCash
    ensures Lost(r, k + 1) == r.config.initialCash && BreaksPlainLaw(r, k)
  {
    LosingFillEmpties(r, k);
    hide After, Filled, LosesFill;
  }

  /** Such a run exists: cash can vanish into a fill. */
  lemma CashCanVanish() returns (run: Inputs, at: nat)
    ensures Accept(run.bars, run.strategy, run.config, run.start, None, run.p) == Ok(run)
    ensures run.start <= at < |run.bars| && run.p == Decimals12 && LosesFill(run, at)
    ensures BreaksPlainLaw(run, at)
  {
    hide Accept, After, Filled, LosesFill, Lost, Slack, UnitCost, TinyRun, Profit, BreaksPlainLaw;
    run, at := TinyRun(), 2;
    TinyRunIsAccepted(run);
    TinyPrice(run, at);
    TinyRunReachesBuy(run, at);
    OneUnitIsTooLittle(run, at);
    FirstLossBreaksBound(run, at);
  }
}
