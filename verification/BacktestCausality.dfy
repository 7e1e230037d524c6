/** No look-ahead: what a run shows before a bar does not depend on that bar or any later one. */
module BacktestCausality {
  import opened Wrappers
  import opened Rounding
  import opened Bars
  import opened Ledger
  import opened Backtest
  import opened BacktestBooks
  import Signals
  import Drawdown

  /** Two runs of one strategy whose bars agree before bar `k`. */
  ghost predicate AgreeBefore(r: Inputs, s: Inputs, k: nat) {
    && s == r.(bars := s.bars)
    && r.start <= k <= |r.bars| && k <= |s.bars|
    && r.bars[..k] == s.bars[..k]
  }

  lemma AgreeEarlier(r: Inputs, s: Inputs, k: nat, i: nat)
    requires AgreeBefore(r, s, k) && i <= k
    ensures r.bars[..i] == s.bars[..i]
    ensures i < k ==> r.bars[i] == s.bars[i]
  {
  }

  lemma OpenEntry(r: Inputs, k: nat)
    requires r.start <= k <= |r.bars| && After(r, k).quantity > 0.0
    ensures After(r, k).entryIndex.Some? && After(r, k).entryIndex.value < k
  {
    AlwaysBalanced(r, k);
  }

  /** Bars of one time that open alike, whatever their high, low and close. */
  predicate SameOpen(a: Bar, b: Bar) {
    && a.open == b.open
    && if a.DailyBar? then b.DailyBar? && a.day == b.day else b.MarketBar? && a.timestamp == b.timestamp
  }

  lemma OpensAlike(a: Bar, b: Bar, entry: Bar, config: Config)
    requires SameOpen(a, b)
    ensures BuyPrice(a, config) == BuyPrice(b, config) && SellPrice(a, config) == SellPrice(b, config)
    ensures UnitCost(a, config) == UnitCost(b, config)
    ensures BarDate(a) == BarDate(b) && BarTimestamp(a) == BarTimestamp(b)
    ensures ElapsedSeconds(entry, a) == ElapsedSeconds(entry, b)
  {
  }

  /** A fill reads the account, the open of its own bar and the bar of the open entry. */
  lemma FillReadsTwoBars(r: Inputs, s: Inputs, k: nat, a: Account)
    requires s == r.(bars := s.bars) && k < |r.bars| && k < |s.bars| && SameOpen(r.bars[k], s.bars[k])
    requires EntryInRange(r, a) && EntryInRange(s, a)
    requires a.quantity > 0.0 && a.entryIndex.Some? ==> r.bars[a.entryIndex.value] == s.bars[a.entryIndex.value]
    ensures Fill(r, k, a) == Fill(s, k, a)
  {
    hide BuyPrice, SellPrice, UnitCost, Gross, FeeOn, Round, Outlay, ReturnPct, BarDate, BarTimestamp, ElapsedSeconds;
    var entry := if a.entryIndex.Some? then r.bars[a.entryIndex.value] else r.bars[k];
    OpensAlike(r.bars[k], s.bars[k], entry, r.config);
  }

  lemma SameFill(r: Inputs, s: Inputs, k: nat)
    requires AgreeBefore(r, s, k + 1) && r.start <= k && After(r, k) == After(s, k)
    ensures Filled(r, k) == Filled(s, k)
    ensures Mark(r, k, Filled(r, k)) == Mark(s, k, Filled(s, k))
  {
    hide After, Fill, Mark;
    AgreeEarlier(r, s, k + 1, k);
    var a := After(r, k);
    if a.quantity > 0.0 {
      OpenEntry(r, k);
      AgreeEarlier(r, s, k + 1, a.entryIndex.value);
    }
    FillReadsTwoBars(r, s, k, a);
    MarkReadsOneBar(r, s, k, Filled(r, k));
  }

  lemma MarkReadsOneBar(r: Inputs, s: Inputs, k: nat, a: Account)
    requires s == r.(bars := s.bars) && k < |r.bars| && k < |s.bars| && r.bars[k] == s.bars[k]
    ensures Mark(r, k, a) == Mark(s, k, a)
  {
  }

  lemma {:induction false} SamePast(r: Inputs, s: Inputs, k: nat)
    requires AgreeBefore(r, s, k)
    ensures After(r, k) == After(s, k)
  {
    if k > r.start {
      var i := k - 1;
      AgreeEarlier(r, s, k, i);
      SamePast(r, s, i);
      SameFill(r, s, i);
      forall j | 0 <= j < k
        ensures Closes(r.bars)[j] == Closes(s.bars)[j]
      {
        AgreeEarlier(r, s, k, j);
      }
      assert Closes(r.bars)[..i + 1] == Closes(s.bars)[..i + 1];
      var f := Filled(r, i);
      Signals.SignalIsCausal(Closes(r.bars), Closes(s.bars), r.strategy, i, f.pendingLong && f.quantity != 0.0);
      hide Fill, Filled, Signals.DesiredPosition, Mark;
      OneBar(r, i);
      OneBar(s, i);
    }
  }

  /** What bar `k` fills, and at what price, depends on the bars before it and on its own open: neither its
      high, low and close nor any later bar is read. */
  lemma FillReadsTheOpen(r: Inputs, s: Inputs, k: nat)
    requires AgreeBefore(r, s, k) && k < |r.bars| && k < |s.bars| && SameOpen(r.bars[k], s.bars[k])
    ensures Filled(r, k) == Filled(s, k)
  {
    hide After, Fill, SameOpen;
    SamePast(r, s, k);
    var a := After(r, k);
    if a.quantity > 0.0 {
      OpenEntry(r, k);
      AgreeEarlier(r, s, k, a.entryIndex.value);
    }
    FillReadsTwoBars(r, s, k, a);
  }

  /** The trades already closed before bar `k`. */
  function ClosedBefore(trades: seq<Trade>, k: nat): seq<Trade> {
    if trades == [] then []
    else
      var n := |trades| - 1;
      ClosedBefore(trades[..n], k) + if trades[n].exitIndex < k then [trades[n]] else []
  }

  /** Nothing was closed, or one trade at bar `k`. */
  ghost predicate GrowsBy(before: seq<Trade>, after: seq<Trade>, k: nat) {
    after == before || exists t: Trade :: t.exitIndex == k && after == before + [t]
  }

  lemma FillTrades(r: Inputs, k: nat)
    requires r.start <= k < |r.bars|
    ensures var before, after := After(r, k).trades, Filled(r, k).trades;
            GrowsBy(before, after, k)
  {
    hide After;
    var a := After(r, k);
    if NextAction(a) == Sold {
      assert ClosedTrade(r, k, a).exitIndex == k;
    }
  }

  lemma ClosedBeforeAppend(trades: seq<Trade>, t: Trade, k: nat)
    ensures ClosedBefore(trades + [t], k) == ClosedBefore(trades, k) + if t.exitIndex < k then [t] else []
  {
  }

  /** Later bars only append: the curve point by point, the trades with later exits. */
  lemma {:induction false} LaterBarsOnlyAppend(r: Inputs, k: nat, n: nat)
    requires r.start <= k <= n <= |r.bars|
    ensures After(r, n).curve[..k - r.start] == After(r, k).curve
    ensures ClosedBefore(After(r, n).trades, k) == After(r, k).trades
    decreases n
  {
    hide Fill, Filled, Signals.DesiredPosition, Mark;
    if n == r.start {
    } else if k < n {
      LaterBarsOnlyAppend(r, k, n - 1);
      OneBar(r, n - 1);
      FillTrades(r, n - 1);
      if Filled(r, n - 1).trades != After(r, n - 1).trades {
        var t: Trade :| t.exitIndex == n - 1 && Filled(r, n - 1).trades == After(r, n - 1).trades + [t];
        ClosedBeforeAppend(After(r, n - 1).trades, t, k);
      }
    } else {
      AllClosed(r, k);
      AllEarlier(After(r, k).trades, k);
    }
  }

  ghost predicate AllBefore(trades: seq<Trade>, k: nat) {
    forall t | t in trades :: t.exitIndex < k
  }

  lemma OneMoreClosed(before: seq<Trade>, after: seq<Trade>, k: nat)
    requires AllBefore(before, k) && GrowsBy(before, after, k)
    ensures AllBefore(after, k + 1)
  {
  }

  lemma NothingClosed(r: Inputs)
    requires r.start <= |r.bars|
    ensures AllBefore(After(r, r.start).trades, r.start)
  {
  }

  lemma {:induction false} AllClosed(r: Inputs, k: nat)
    requires r.start <= k <= |r.bars|
    ensures AllBefore(After(r, k).trades, k)
  {
    if k == r.start {
      NothingClosed(r);
    } else {
      hide After, Filled, AllBefore, GrowsBy, Mark, Signals.DesiredPosition;
      AllClosed(r, k - 1);
      OneBar(r, k - 1);
      FillTrades(r, k - 1);
      OneMoreClosed(After(r, k - 1).trades, Filled(r, k - 1).trades, k - 1);
    }
  }

  lemma {:induction false} AllEarlier(trades: seq<Trade>, k: nat)
    requires AllBefore(trades, k)
    ensures ClosedBefore(trades, k) == trades
  {
    if trades != [] {
      AllEarlier(trades[..|trades| - 1], k);
    }
  }

  /** Bars of one accepted call are all of one kind. */
  lemma KindOfBars(bars: seq<Bar>, cadence: Option<Cadence>)
    requires bars != [] && Validate(bars, cadence).Ok?
    ensures Validate(bars, cadence).value.market <==> bars[0].MarketBar?
  {
    assert bars[0] in bars;
  }

  /** Two accepted calls that differ only from bar `k` on publish the same points and closed trades
      before bar `k`, and bar `k` fills a buy, a sell or nothing alike. */
  lemma NoLookAhead(bars: seq<Bar>, others: seq<Bar>, strategy: Strategy, config: Config, start: nat,
                    cadence: Option<Cadence>, p: Precision, k: nat)
    requires Accept(bars, strategy, config, start, cadence, p).Ok?
    requires Accept(others, strategy, config, start, cadence, p).Ok?
    requires start <= k <= |bars| && k <= |others| && bars[..k] == others[..k]
    ensures var r := Accept(bars, strategy, config, start, cadence, p).value;
            var s := Accept(others, strategy, config, start, cadence, p).value;
            && Outcome(r).curve[..k - start] == Outcome(s).curve[..k - start]
            && ClosedBefore(Outcome(r).trades, k) == ClosedBefore(Outcome(s).trades, k)
            && (k < |bars| && k < |others| ==> NextAction(After(r, k)) == NextAction(After(s, k)))
  {
    hide Validate, Step, Fill, Drawdown.MetricsOf;
    var r := Accept(bars, strategy, config, start, cadence, p).value;
    var s := Accept(others, strategy, config, start, cadence, p).value;
    LaterBarsOnlyAppend(r, k, |r.bars|);
    LaterBarsOnlyAppend(s, k, |s.bars|);
    if k > 0 {
      assert bars[0] == bars[..k][0] == others[..k][0] == others[0];
      KindOfBars(bars, cadence);
      KindOfBars(others, cadence);
      SamePast(r, s, k);
    }
  }
}
