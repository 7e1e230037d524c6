/** The side a run carries, and the trades it makes. */
module BacktestPositions {
  import opened Wrappers
  import opened Rounding
  import opened Bars
  import opened Ledger
  import opened Backtest
  import opened BacktestBooks
  import Signals

  function DecisionAt(r: Inputs, i: nat): Option<bool>
    requires i < |r.bars|
  {
    Signals.Decision(Closes(r.bars), r.strategy, i)
  }

  /** `side` is the last decision taken on the bars from `start` to before `k`; cash if there is none. */
  ghost predicate LatestDecision(r: Inputs, k: nat, side: bool)
    requires r.start <= k <= |r.bars|
  {
    || (side == false && forall i | r.start <= i < k :: DecisionAt(r, i).None?)
    || (exists i | r.start <= i < k ::
          DecisionAt(r, i) == Some(side) && forall j | i < j < k :: DecisionAt(r, j).None?)
  }

  lemma PendingStep(r: Inputs, k: nat)
    requires r.start <= k < |r.bars| && BuysEnough(r, k, After(r, k))
    ensures After(r, k + 1).pendingLong
         == match DecisionAt(r, k) case Some(side) => side case None => After(r, k).pendingLong
    ensures After(r, k + 1).quantity > 0.0 <==> After(r, k).pendingLong
  {
    hide Signals.DesiredPosition;
    AlwaysBalanced(r, k);
    OneBar(r, k);
    hide After, Filled;
    Signals.DecisionOrCarry(Closes(r.bars), r.strategy, k, After(r, k).pendingLong);
  }

  /** The pending side at every bar is the latest decision since measurement began, and the account
      holds the asset exactly when it said long one bar before; as long as no fill is too small for the
      rounding. */
  lemma {:induction false} CarriesLatestDecision(r: Inputs, k: nat)
    requires r.start <= k <= |r.bars| && EveryFillBuys(r, k)
    ensures LatestDecision(r, k, After(r, k).pendingLong)
    ensures k > r.start ==> (After(r, k).quantity > 0.0 <==> After(r, k - 1).pendingLong)
  {
    hide DecisionAt, LatestDecision, Step, BuysEnough;
    if k == r.start {
      NothingDecided(r);
    } else {
      CarriesLatestDecision(r, k - 1);
      PendingStep(r, k - 1);
      hide After;
      if DecisionAt(r, k - 1).None? {
        ExtendUndecided(r, k - 1, After(r, k).pendingLong);
      } else {
        JustDecided(r, k - 1, After(r, k).pendingLong);
      }
    }
  }

  lemma NothingDecided(r: Inputs)
    requires r.start <= |r.bars|
    ensures LatestDecision(r, r.start, false)
  {
  }

  lemma JustDecided(r: Inputs, k: nat, side: bool)
    requires r.start <= k < |r.bars| && DecisionAt(r, k) == Some(side)
    ensures LatestDecision(r, k + 1, side)
  {
  }

  lemma ExtendUndecided(r: Inputs, k: nat, side: bool)
    requires r.start <= k < |r.bars| && DecisionAt(r, k).None? && LatestDecision(r, k, side)
    ensures LatestDecision(r, k + 1, side)
  {
    hide DecisionAt;
  }

  /** At most one side is the latest decision. */
  lemma LatestDecisionIsUnique(r: Inputs, s: Inputs, k: nat, decided: nat, a: bool, b: bool)
    requires r.bars == s.bars && r.strategy == s.strategy
    requires r.start <= decided < k <= |r.bars| && s.start <= decided
    requires DecisionAt(r, decided).Some?
    requires LatestDecision(r, k, a) && LatestDecision(s, k, b)
    ensures a == b
  {
    assert forall i | 0 <= i < |r.bars| :: DecisionAt(r, i) == DecisionAt(s, i);
    hide DecisionAt;
    var i :| r.start <= i < k && DecisionAt(r, i) == Some(a) && forall j | i < j < k :: DecisionAt(r, j).None?;
    var j :| s.start <= j < k && DecisionAt(s, j) == Some(b) && forall i | j < i < k :: DecisionAt(s, i).None?;
    assert i == j;
  }

  /** Runs that start measuring at different bars, with whatever cash, costs and rounding, hold the same
      side once one decision has been taken past the later start. */
  lemma StartsConverge(r: Inputs, s: Inputs, decided: nat, k: nat)
    requires r.bars == s.bars && r.strategy == s.strategy
    requires r.start <= decided && s.start <= decided < k <= |r.bars|
    requires DecisionAt(r, decided).Some? && EveryFillBuys(r, k) && EveryFillBuys(s, k)
    ensures After(r, k).pendingLong == After(s, k).pendingLong
    ensures k < |r.bars| && BuysEnough(r, k, After(r, k)) && BuysEnough(s, k, After(s, k)) ==>
              (Filled(r, k).quantity > 0.0 <==> Filled(s, k).quantity > 0.0)
  {
    hide BuysEnough, EveryFillBuys;
    CarriesLatestDecision(r, k);
    CarriesLatestDecision(s, k);
    LatestDecisionIsUnique(r, s, k, decided, After(r, k).pendingLong, After(s, k).pendingLong);
    if k < |r.bars| {
      AlwaysBalanced(r, k);
      AlwaysBalanced(s, k);
    }
  }

  // ---- Trades

  /** Trades follow one another without touching, and all end before bar `k`. */
  ghost predicate Ordered(r: Inputs, trades: seq<Trade>, k: nat) {
    && (forall i | 0 <= i < |trades| :: r.start <= trades[i].entryIndex < trades[i].exitIndex < k)
    && (forall i, j | 0 <= i < j < |trades| :: trades[i].exitIndex < trades[j].entryIndex)
  }

  function HeldBars(trades: seq<Trade>): int {
    if trades == [] then 0
    else HeldBars(trades[..|trades| - 1]) + trades[|trades| - 1].exitIndex - trades[|trades| - 1].entryIndex
  }

  function OpenBars(a: Account, k: nat): int {
    if a.quantity > 0.0 && a.entryIndex.Some? then k - a.entryIndex.value else 0
  }

  /** Every trade carries the dates, times and prices of its two fill bars. */
  ghost predicate Documented(r: Inputs, t: Trade) {
    && t.entryIndex < |r.bars| && t.exitIndex < |r.bars|
    && var entry, exit := r.bars[t.entryIndex], r.bars[t.exitIndex];
    && t.entryDate == BarDate(entry) && t.exitDate == BarDate(exit)
    && t.entryPrice == Round(r.p, BuyPrice(entry, r.config))
    && t.exitPrice == Round(r.p, SellPrice(exit, r.config))
    && t.holdingBars == (if r.market then Some(t.exitIndex - t.entryIndex) else None)
    && t.holdingElapsedSeconds == (if r.market then ElapsedSeconds(entry, exit) else None)
  }

  /** The trades end before bar `bound` and before any open entry; with the bars held open until
      `marked` they account for every invested point of the curve. */
  ghost predicate TradeLog(r: Inputs, a: Account, bound: nat, marked: nat) {
    && Ordered(r, a.trades, bound)
    && (forall t | t in a.trades :: Documented(r, t))
    && (a.quantity > 0.0 ==>
          a.entryIndex.Some? && forall t | t in a.trades :: t.exitIndex < a.entryIndex.value)
    && InvestedBars(a.curve) == HeldBars(a.trades) + OpenBars(a, marked)
  }

  lemma SaleIsDocumented(r: Inputs, k: nat, a: Account)
    requires k < |r.bars| && EntryInRange(r, a) && Balanced(r, a, k) && NextAction(a) == Sold
    ensures Documented(r, ClosedTrade(r, k, a))
    ensures ClosedTrade(r, k, a).entryIndex == a.entryIndex.value && ClosedTrade(r, k, a).exitIndex == k
  {
    hide BuyPrice, SellPrice, Gross, FeeOn, Round, BarDate, Outlay;
  }

  lemma SaleKeepsLog(r: Inputs, k: nat, a: Account)
    requires r.start <= k < |r.bars| && EntryInRange(r, a) && Balanced(r, a, k) && TradeLog(r, a, k, k)
    requires NextAction(a) == Sold
    ensures TradeLog(r, Fill(r, k, a), k + 1, k)
  {
    SaleIsDocumented(r, k, a);
    var t := ClosedTrade(r, k, a);
    assert Fill(r, k, a).trades == a.trades + [t] && Fill(r, k, a).quantity == 0.0;
    assert Fill(r, k, a).curve == a.curve;
    hide Fill, ClosedTrade, Documented, Balanced, InvestedBars;
    HeldWithOneMore(a.trades, t);
    hide HeldBars;
    OrderedWithOneMore(r, a.trades, t, k);
  }

  lemma HeldWithOneMore(trades: seq<Trade>, t: Trade)
    ensures HeldBars(trades + [t]) == HeldBars(trades) + t.exitIndex - t.entryIndex
  {
  }

  lemma OrderedWithOneMore(r: Inputs, trades: seq<Trade>, t: Trade, k: nat)
    requires Ordered(r, trades, k) && r.start <= t.entryIndex < t.exitIndex == k
    requires forall s | s in trades :: s.exitIndex < t.entryIndex
    ensures Ordered(r, trades + [t], k + 1)
  {
  }

  lemma PurchaseKeepsLog(r: Inputs, k: nat, a: Account)
    requires r.start <= k < |r.bars| && EntryInRange(r, a) && TradeLog(r, a, k, k)
    requires NextAction(a) == Bought
    ensures TradeLog(r, Fill(r, k, a), k + 1, k)
  {
    hide Documented, InvestedBars, HeldBars, Buy, BuyPrice, BarDate;
  }

  lemma FillKeepsLog(r: Inputs, k: nat)
    requires r.start <= k < |r.bars| && TradeLog(r, After(r, k), k, k)
    ensures TradeLog(r, Filled(r, k), k + 1, k)
  {
    AlwaysBalanced(r, k);
    WiderBound(r, After(r, k), k);
    hide After, Fill, TradeLog, Balanced;
    match NextAction(After(r, k))
    case Sold => SaleKeepsLog(r, k, After(r, k));
    case Bought => PurchaseKeepsLog(r, k, After(r, k));
    case Kept => FillKept(r, k, After(r, k));
  }

  lemma WiderBound(r: Inputs, a: Account, k: nat)
    requires TradeLog(r, a, k, k)
    ensures TradeLog(r, a, k + 1, k)
  {
  }

  lemma OpeningLogged(r: Inputs)
    requires r.start <= |r.bars|
    ensures TradeLog(r, After(r, r.start), r.start, r.start)
  {
  }

  lemma SettleKeepsLog(r: Inputs, k: nat)
    requires r.start <= k < |r.bars| && TradeLog(r, Filled(r, k), k + 1, k)
    ensures TradeLog(r, After(r, k + 1), k + 1, k + 1)
  {
    var a, f, b := After(r, k), Filled(r, k), After(r, k + 1);
    AlwaysBalanced(r, k);
    OneBar(r, k);
    FillKeepsCurve(r, k);
    assert b.curve[..|a.curve|] == a.curve;
    assert b.curve[|a.curve|].quantity == Round(r.p, f.quantity) == f.quantity;
    hide After, Filled, Documented, HeldBars, Round, Mark;
  }

  lemma FillKeepsCurve(r: Inputs, k: nat)
    requires r.start <= k < |r.bars|
    ensures Filled(r, k).curve == After(r, k).curve
  {
    hide After;
  }

  lemma {:induction false} AlwaysLogged(r: Inputs, k: nat)
    requires r.start <= k <= |r.bars|
    ensures TradeLog(r, After(r, k), k, k)
  {
    hide After, Filled, TradeLog;
    if k == r.start {
      OpeningLogged(r);
    } else {
      AlwaysLogged(r, k - 1);
      FillKeepsLog(r, k - 1);
      SettleKeepsLog(r, k - 1);
    }
  }

  /** The published trades are disjoint and in order, carry their fill bars, and with the open tail
      account for every invested bar. */
  lemma TradesPartitionInvestedBars(r: Inputs)
    requires r.start <= |r.bars|
    ensures Ordered(r, Outcome(r).trades, |r.bars|)
    ensures forall t | t in Outcome(r).trades :: Documented(r, t)
    ensures InvestedBars(Outcome(r).curve) == HeldBars(Outcome(r).trades) + OpenBars(After(r, |r.bars|), |r.bars|)
  {
    AlwaysLogged(r, |r.bars|);
  }

  /** A published market trade lasts at least its holding bars times the interval. */
  lemma HoldingCoversIntervals(bars: seq<Bar>, strategy: Strategy, config: Config, start: nat,
                               cadence: Cadence, p: Precision, t: Trade)
    requires Accept(bars, strategy, config, start, Some(cadence), p).Ok?
    requires Validate(bars, Some(cadence)).value.market
    requires t in Outcome(Accept(bars, strategy, config, start, Some(cadence), p).value).trades
    ensures t.holdingBars.Some? && t.holdingElapsedSeconds.Some?
    ensures t.holdingBars.value > 0
    ensures t.holdingElapsedSeconds.value >= t.holdingBars.value * IntervalSeconds(cadence.interval)
  {
    hide Validate, After, ElapsedSeconds, BarDate;
    var r := Accept(bars, strategy, config, start, Some(cadence), p).value;
    TradesPartitionInvestedBars(r);
    var i :| 0 <= i < |Outcome(r).trades| && Outcome(r).trades[i] == t;
    ElapsedCoversInterval(bars, cadence, t.entryIndex, t.exitIndex);
  }
}
