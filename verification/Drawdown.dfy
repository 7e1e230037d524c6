/** Reducing an equity curve and its trades to metrics. */
module Drawdown {
  import opened Rounding
  import opened Ledger
  import opened Signals

  /** The return from holding something worth `base` until it is worth `x`. */
  function Return(base: real, x: real): real
    requires base > 0.0
  {
    x / base - 1.0
  }

  /** The deepest fall below the running peak of `path`, found in one pass. */
  function MaxDrawdown(path: seq<real>): real
    requires path != [] && path[0] > 0.0
  {
    var n := |path| - 1;
    if n == 0 then 0.0
    else
      var worst := MaxDrawdown(path[..n]);
      assert Largest(path) >= path[0];
      var fall := Return(Largest(path), path[n]);
      if fall < worst then fall else worst
  }

  /** A larger base never gives a better return, and no base a better one than itself. */
  lemma LargerBase(x: real, small: real, large: real)
    requires x >= 0.0 && 0.0 < small <= large
    ensures Return(large, x) <= Return(small, x)
    ensures Return(small, small) == 0.0
  {
    var q := x / small;
    assert q >= 0.0 && q * small == x;
    assert q * (large - small) >= 0.0;
    assert q * large >= x;
  }

  lemma PeakIsNoGain(peak: real, x: real)
    requires peak > 0.0 && x <= peak
    ensures Return(peak, x) <= 0.0
    ensures x > 0.0 ==> Return(peak, x) > -1.0
  {
    var q := x / peak;
    assert q * peak == x;
    assert peak * (q - 1.0) <= 0.0;
  }

  lemma LargestOfAppend(s: seq<real>, x: real)
    requires s != []
    ensures Largest(s + [x]) == if x > Largest(s) then x else Largest(s)
  {
    var whole := s + [x];
    var all, part := Largest(whole), Largest(s);
    var i :| 0 <= i < |whole| && whole[i] == all;
    var j :| 0 <= j < |s| && s[j] == part;
    assert whole[j] <= all && whole[|s|] <= all;
    assert i < |s| ==> s[i] <= part;
  }

  lemma SmallestOfAppend(s: seq<real>, x: real)
    requires s != []
    ensures Smallest(s + [x]) == if x < Smallest(s) then x else Smallest(s)
  {
    var whole := s + [x];
    var all, part := Smallest(whole), Smallest(s);
    var i :| 0 <= i < |whole| && whole[i] == all;
    var j :| 0 <= j < |s| && s[j] == part;
    assert all <= whole[j] && all <= whole[|s|];
    assert i < |s| ==> part <= s[i];
  }

  /** `d` is no more than any return between two positions, earlier to later. */
  ghost predicate BoundsEveryReturn(d: real, path: seq<real>) {
    forall i, j | 0 <= i <= j < |path| && path[i] > 0.0 :: d <= Return(path[i], path[j])
  }

  /** `d` is the return between some two positions, earlier to later. */
  ghost predicate IsSomeReturn(d: real, path: seq<real>) {
    exists i, j | 0 <= i <= j < |path| && path[i] > 0.0 :: d == Return(path[i], path[j])
  }

  lemma {:induction false} DrawdownBoundsReturns(path: seq<real>)
    requires path != [] && path[0] > 0.0 && forall k | 0 <= k < |path| :: path[k] >= 0.0
    ensures BoundsEveryReturn(MaxDrawdown(path), path)
  {
    hide Return, MaxDrawdown;
    var n := |path| - 1;
    if n == 0 {
      DrawdownOfOne(path);
      LargerBase(path[0], path[0], path[0]);
    } else {
      DrawdownBoundsReturns(path[..n]);
      DrawdownStep(path);
      forall i | 0 <= i <= n && path[i] > 0.0
        ensures MaxDrawdown(path) <= Return(path[i], path[n])
      {
        LargerBase(path[n], path[i], Largest(path));
      }
      EarlierReturns(MaxDrawdown(path), MaxDrawdown(path[..n]), path);
    }
  }

  lemma DrawdownOfOne(path: seq<real>)
    requires |path| == 1 && path[0] > 0.0
    ensures MaxDrawdown(path) == 0.0
  {
  }

  /** A bound on the earlier returns and on those to the last position bounds them all. */
  lemma EarlierReturns(d: real, before: real, path: seq<real>)
    requires path != [] && d <= before && BoundsEveryReturn(before, path[..|path| - 1])
    requires forall i | 0 <= i < |path| && path[i] > 0.0 :: d <= Return(path[i], path[|path| - 1])
    ensures BoundsEveryReturn(d, path)
  {
  }

  lemma DrawdownStep(path: seq<real>)
    requires |path| > 1 && path[0] > 0.0
    ensures var n := |path| - 1;
            && Largest(path) > 0.0
            && MaxDrawdown(path) <= MaxDrawdown(path[..n])
            && MaxDrawdown(path) <= Return(Largest(path), path[n])
  {
  }

  lemma {:induction false} DrawdownIsSomeReturn(path: seq<real>)
    requires path != [] && path[0] > 0.0
    ensures IsSomeReturn(MaxDrawdown(path), path)
  {
    hide Return;
    var n := |path| - 1;
    if n == 0 {
      LargerBase(path[0], path[0], path[0]);
      assert MaxDrawdown(path) == Return(path[0], path[0]);
    } else if MaxDrawdown(path) == MaxDrawdown(path[..n]) {
      var before := path[..n];
      DrawdownIsSomeReturn(before);
      var i, j :| 0 <= i <= j < |before| && before[i] > 0.0 && MaxDrawdown(before) == Return(before[i], before[j]);
      assert MaxDrawdown(path) == Return(path[i], path[j]);
    } else {
      var peak := Largest(path);
      var p :| 0 <= p < |path| && path[p] == peak;
      assert path[0] <= peak;
      assert MaxDrawdown(path) == Return(path[p], path[n]);
    }
  }

  /** The one-pass result is the worst return between any two positions, earlier to later,
      the initial cash being the earliest; it is never above zero. */
  lemma MaxDrawdownIsWorstPair(path: seq<real>)
    requires path != [] && path[0] > 0.0 && forall k | 0 <= k < |path| :: path[k] >= 0.0
    ensures MaxDrawdown(path) <= 0.0
    ensures BoundsEveryReturn(MaxDrawdown(path), path)
    ensures IsSomeReturn(MaxDrawdown(path), path)
  {
    hide Return, MaxDrawdown;
    DrawdownBoundsReturns(path);
    DrawdownIsSomeReturn(path);
    LargerBase(path[0], path[0], path[0]);
    assert MaxDrawdown(path) <= Return(path[0], path[0]);
  }

  /** A curve that never reaches zero never loses everything. */
  lemma {:induction false} MaxDrawdownOfPositivePath(path: seq<real>)
    requires path != [] && forall k | 0 <= k < |path| :: path[k] > 0.0
    ensures -1.0 < MaxDrawdown(path) <= 0.0
  {
    hide Return;
    var n := |path| - 1;
    if n > 0 {
      MaxDrawdownOfPositivePath(path[..n]);
      PeakIsNoGain(Largest(path), path[n]);
    }
  }

  function MetricsOf(curve: seq<EquityPoint>, trades: seq<Trade>, config: Config, barsCount: nat, p: Precision): Metrics
  {
    var initial := config.initialCash;
    var final := if curve != [] then curve[|curve| - 1].equity else initial;
    Metrics(Round(p, initial), Round(p, final), Round(p, Return(initial, final)),
            Round(p, MaxDrawdown([initial] + Equities(curve))),
            if trades != [] then Round(p, Winners(trades) as real / |trades| as real) else 0.0,
            |trades|, Winners(trades), Losers(trades),
            if barsCount != 0 then Round(p, InvestedBars(curve) as real / barsCount as real) else 0.0)
  }

  lemma DrawdownOfAppend(path: seq<real>, x: real)
    requires path != [] && path[0] > 0.0
    ensures Largest(path + [x]) > 0.0
    ensures var fall := Return(Largest(path + [x]), x);
            MaxDrawdown(path + [x]) == if fall < MaxDrawdown(path) then fall else MaxDrawdown(path)
  {
  }

  /** What the loop knows of the path walked so far. */
  ghost predicate Tracks(peak: real, drawdowns: seq<real>, path: seq<real>)
    requires path != [] && path[0] > 0.0
  {
    && |drawdowns| == |path| - 1 && peak == Largest(path) > 0.0
    && MaxDrawdown(path) == if drawdowns == [] then 0.0 else Smallest(drawdowns)
  }

  lemma TracksStart(initial: real)
    requires initial > 0.0
    ensures Tracks(initial, [], [initial])
  {
  }

  lemma TracksNext(peak: real, drawdowns: seq<real>, path: seq<real>, equity: real)
    requires path != [] && path[0] > 0.0 && Tracks(peak, drawdowns, path)
    ensures var higher := if equity > peak then equity else peak;
            Tracks(higher, drawdowns + [Return(higher, equity)], path + [equity])
  {
    hide Return, MaxDrawdown, Largest, Smallest;
    var higher := if equity > peak then equity else peak;
    LargestOfAppend(path, equity);
    DrawdownOfAppend(path, equity);
    PeakIsNoGain(higher, equity);
    if drawdowns == [] {
      SmallestOfOne(Return(higher, equity));
      assert drawdowns + [Return(higher, equity)] == [Return(higher, equity)];
    } else {
      SmallestOfAppend(drawdowns, Return(higher, equity));
    }
  }

  lemma SmallestOfOne(x: real)
    ensures Smallest([x]) == x
  {
  }

  /** The running-peak loop computes the specified metrics. */
  method Measure(curve: seq<EquityPoint>, trades: seq<Trade>, config: Config, barsCount: nat, p: Precision)
    returns (m: Metrics)
    ensures m == MetricsOf(curve, trades, config, barsCount, p)
  {
    hide Return, Round, InvestedBars, Winners, Losers, Tracks;
    var initial := config.initialCash;
    var final := if curve != [] then curve[|curve| - 1].equity else initial;
    var drawdowns: seq<real> := [];
    var peak := initial;
    ghost var path := [initial] + Equities(curve);
    TracksStart(initial);
    assert path[..1] == [initial];
    for i := 0 to |curve|
      invariant peak > 0.0
      invariant Tracks(peak, drawdowns, path[..i + 1])
    {
      var equity := curve[i].equity;
      TracksNext(peak, drawdowns, path[..i + 1], equity);
      assert path[..i + 2] == path[..i + 1] + [equity];
      peak := if equity > peak then equity else peak;
      drawdowns := drawdowns + [Return(peak, equity)];
    }
    assert path[..|curve| + 1] == path;
    TrackedDrawdown(peak, drawdowns, path);
    var deepest := if drawdowns == [] then 0.0 else Smallest(drawdowns);
    m := Metrics(Round(p, initial), Round(p, final), Round(p, Return(initial, final)), Round(p, deepest),
                 if trades != [] then Round(p, Winners(trades) as real / |trades| as real) else 0.0,
                 |trades|, Winners(trades), Losers(trades),
                 if barsCount != 0 then Round(p, InvestedBars(curve) as real / barsCount as real) else 0.0);
  }

  lemma TrackedDrawdown(peak: real, drawdowns: seq<real>, path: seq<real>)
    requires path != [] && path[0] > 0.0 && Tracks(peak, drawdowns, path)
    ensures MaxDrawdown(path) == if drawdowns == [] then 0.0 else Smallest(drawdowns)
  {
  }

  // ---- The metrics, spelled out

  /** The places of the trades that made money. */
  function Won(trades: seq<Trade>): set<nat> {
    set i: nat | i < |trades| && trades[i].pnl > 0.0
  }

  /** The places of the points that show units. */
  function Held(curve: seq<EquityPoint>): set<nat> {
    set i: nat | i < |curve| && curve[i].quantity > 0.0
  }

  lemma {:induction false} WinnersAreCounted(trades: seq<Trade>)
    ensures Winners(trades) == |Won(trades)|
  {
    if trades == [] {
      assert Won(trades) == {};
    } else {
      var n := |trades| - 1;
      WinnersAreCounted(trades[..n]);
      assert Won(trades) == Won(trades[..n]) + if trades[n].pnl > 0.0 then {n} else {};
    }
  }

  lemma {:induction false} InvestedIsCounted(curve: seq<EquityPoint>)
    ensures InvestedBars(curve) == |Held(curve)|
  {
    if curve == [] {
      assert Held(curve) == {};
    } else {
      var n := |curve| - 1;
      InvestedIsCounted(curve[..n]);
      assert Held(curve) == Held(curve[..n]) + if curve[n].quantity > 0.0 then {n} else {};
    }
  }

  /** Final equity, total return, the trades that won or not, the win rate and the share of bars invested. */
  lemma MetricsMean(curve: seq<EquityPoint>, trades: seq<Trade>, config: Config, barsCount: nat, p: Precision)
    requires trades != [] && curve != [] && barsCount > 0
    ensures var m := MetricsOf(curve, trades, config, barsCount, p);
            var final := curve[|curve| - 1].equity;
            var won := |Won(trades)|;
            && m.initialEquity == Round(p, config.initialCash) && m.finalEquity == Round(p, final)
            && m.totalReturn == Round(p, final / config.initialCash - 1.0)
            && m.tradeCount == |trades| && m.winningTrades == won && m.losingTrades == |trades| - won
            && m.winRate == Round(p, won as real / |trades| as real)
            && m.exposure == Round(p, |Held(curve)| as real / barsCount as real)
  {
    WinnersAreCounted(trades);
    InvestedIsCounted(curve);
    EveryTradeWinsOrLoses(trades);
    hide Winners, Losers, InvestedBars, Won, Held, Round, MaxDrawdown;
  }

  lemma {:induction false} EveryTradeWinsOrLoses(trades: seq<Trade>)
    ensures Winners(trades) + Losers(trades) == |trades|
  {
    if trades != [] {
      EveryTradeWinsOrLoses(trades[..|trades| - 1]);
    }
  }

  /** Without trades and bars everything is zero but the equity, which is the initial cash. */
  lemma MetricsOfNothing(config: Config, p: Precision)
    ensures var m, initial := MetricsOf([], [], config, 0, p), Round(p, config.initialCash);
            m == Metrics(initial, initial, 0.0, 0.0, 0.0, 0, 0, 0, 0.0)
  {
    RoundOfZero(p);
    LargerBase(config.initialCash, config.initialCash, config.initialCash);
    assert [config.initialCash] + Equities([]) == [config.initialCash];
    hide Round, Return;
  }
}
