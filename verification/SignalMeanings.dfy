/** What each strategy family asks, in closes alone, and what a run then holds. */
module SignalMeanings {
  import opened Wrappers
  import opened Rounding
  import opened Bars
  import opened Ledger
  import opened Signals
  import opened Backtest
  import opened BacktestBooks
  import opened BacktestPositions
  import BacktestSegments

  /** The closes from `lo` to before `hi`, added up. */
  function Total(closes: seq<real>, lo: nat, hi: nat): real
    requires lo <= hi <= |closes|
  {
    if lo == hi then 0.0 else Total(closes, lo, hi - 1) + closes[hi - 1]
  }

  lemma {:induction false} TotalFromFront(closes: seq<real>, lo: nat, hi: nat)
    requires lo < hi <= |closes|
    ensures Total(closes, lo, hi) == closes[lo] + Total(closes, lo + 1, hi)
  {
    if lo + 1 < hi {
      TotalFromFront(closes, lo, hi - 1);
    } else {
      assert Total(closes, lo, lo) == 0.0 && Total(closes, hi, hi) == 0.0;
    }
  }

  lemma {:induction false} SumIsTotal(closes: seq<real>, lo: nat, hi: nat)
    requires lo <= hi <= |closes|
    ensures Sum(closes[lo..hi]) == Total(closes, lo, hi)
    decreases hi - lo
  {
    if lo < hi {
      SumIsTotal(closes, lo + 1, hi);
      TotalFromFront(closes, lo, hi);
      assert closes[lo..hi][1..] == closes[lo + 1..hi];
    }
  }

  lemma {:induction false} TotalSplits(closes: seq<real>, lo: nat, mid: nat, hi: nat)
    requires lo <= mid <= hi <= |closes|
    ensures Total(closes, lo, hi) == Total(closes, lo, mid) + Total(closes, mid, hi)
  {
    if mid < hi {
      TotalSplits(closes, lo, mid, hi - 1);
    }
  }

  lemma CompareMeans(a: real, m: real, b: real, n: real)
    requires m > 0.0 && n > 0.0
    ensures a / m > b / n <==> n * a > m * b
  {
    var p, q := a / m, b / n;
    assert p * m == a && q * n == b;
    assert n * a == p * (m * n) && m * b == q * (m * n);
    CompareFactors(p, q, m * n);
  }

  lemma CompareFactors(p: real, q: real, c: real)
    requires c > 0.0
    ensures p > q <==> p * c > q * c
  {
  }

  /** The average crossover: once the slow window is full, long exactly when the fast average is above the
      slow one, cross-multiplied. */
  lemma SmaAsks(closes: seq<real>, strategy: Strategy, index: nat, inLong: bool)
    requires strategy.Sma? && index < |closes|
    ensures var Sma(fast, slow) := strategy;
            && (index + 1 < slow ==> DesiredPosition(closes, strategy, index, inLong) == inLong)
            && (index + 1 >= slow ==>
                  (DesiredPosition(closes, strategy, index, inLong) <==>
                   slow as real * Total(closes, index + 1 - fast, index + 1)
                   > fast as real * Total(closes, index + 1 - slow, index + 1)))
  {
    var Sma(fast, slow) := strategy;
    if index + 1 >= slow {
      SmaComparesMeans(closes, strategy, index, inLong);
      hide DesiredPosition, Total;
      CompareMeans(Total(closes, index + 1 - fast, index + 1), fast as real,
                   Total(closes, index + 1 - slow, index + 1), slow as real);
    }
  }

  lemma SmaComparesMeans(closes: seq<real>, strategy: Strategy, index: nat, inLong: bool)
    requires strategy.Sma? && index < |closes| && strategy.slowPeriod <= index + 1
    ensures var Sma(fast, slow) := strategy;
            DesiredPosition(closes, strategy, index, inLong) <==>
            Total(closes, index + 1 - fast, index + 1) / fast as real
            > Total(closes, index + 1 - slow, index + 1) / slow as real
  {
    hide Sum, Total;
    var Sma(fast, slow) := strategy;
    SumIsTotal(closes, index + 1 - fast, index + 1);
    SumIsTotal(closes, index + 1 - slow, index + 1);
  }

  ghost predicate Rising(closes: seq<real>, lo: nat, hi: nat) {
    forall i, j | lo <= i < j < hi && j < |closes| :: closes[i] < closes[j]
  }

  ghost predicate Falling(closes: seq<real>, lo: nat, hi: nat) {
    forall i, j | lo <= i < j < hi && j < |closes| :: closes[i] > closes[j]
  }

  lemma {:induction false} TotalBounds(closes: seq<real>, lo: nat, hi: nat, least: real, most: real)
    requires lo <= hi <= |closes| && forall i | lo <= i < hi :: least <= closes[i] <= most
    ensures (hi - lo) as real * least <= Total(closes, lo, hi) <= (hi - lo) as real * most
  {
    if lo < hi {
      TotalBounds(closes, lo, hi - 1, least, most);
      OneMoreTimes((hi - 1 - lo) as real, least);
      OneMoreTimes((hi - 1 - lo) as real, most);
      assert (hi - lo) as real == (hi - 1 - lo) as real + 1.0;
    }
  }

  lemma OneMoreTimes(n: real, x: real)
    ensures (n + 1.0) * x == n * x + x
  {
  }

  /** A whole whose later part has the larger terms. */
  lemma LaterPartIsLarger(early: real, late: real, m: real, n: real, low: real, high: real)
    requires m > 0.0 && n > 0.0 && early <= m * low && n * high <= late && low < high
    ensures (m + n) * late > n * (early + late)
  {
    TimesOrder(m, n * high, late);
    TimesOrder(n, early, m * low);
    TimesStrict(m * n, low, high);
    assert m * (n * high) == m * n * high && n * (m * low) == m * n * low;
    assert (m + n) * late == m * late + n * late && n * (early + late) == n * early + n * late;
  }

  lemma TimesOrder(c: real, x: real, y: real)
    requires c > 0.0 && x <= y
    ensures c * x <= c * y
  {
  }

  lemma TimesStrict(c: real, x: real, y: real)
    requires c > 0.0 && x < y
    ensures c * x < c * y
  {
  }

  lemma EarlierPartIsLarger(early: real, late: real, m: real, n: real, low: real, high: real)
    requires m > 0.0 && n > 0.0 && m * high <= early && late <= n * low && low < high
    ensures (m + n) * late < n * (early + late)
  {
    TimesOrder(m, late, n * low);
    TimesOrder(n, m * high, early);
    TimesStrict(m * n, low, high);
    assert m * (n * low) == m * n * low && n * (m * high) == m * n * high;
    assert (m + n) * late == m * late + n * late && n * (early + late) == n * early + n * late;
  }

  lemma RisingTotals(closes: seq<real>, lo: nat, mid: nat, hi: nat)
    requires lo < mid < hi <= |closes| && Rising(closes, lo, hi)
    ensures (hi - lo) as real * Total(closes, mid, hi) > (hi - mid) as real * Total(closes, lo, hi)
  {
    hide Total;
    TotalSplits(closes, lo, mid, hi);
    TotalBounds(closes, lo, mid, closes[lo], closes[mid - 1]);
    TotalBounds(closes, mid, hi, closes[mid], closes[hi - 1]);
    hide Rising;
    var m, n := (mid - lo) as real, (hi - mid) as real;
    assert m + n == (hi - lo) as real;
    LaterPartIsLarger(Total(closes, lo, mid), Total(closes, mid, hi), m, n, closes[mid - 1], closes[mid]);
  }

  lemma FallingTotals(closes: seq<real>, lo: nat, mid: nat, hi: nat)
    requires lo < mid < hi <= |closes| && Falling(closes, lo, hi)
    ensures (hi - lo) as real * Total(closes, mid, hi) < (hi - mid) as real * Total(closes, lo, hi)
  {
    hide Total;
    TotalSplits(closes, lo, mid, hi);
    TotalBounds(closes, lo, mid, closes[mid - 1], closes[lo]);
    TotalBounds(closes, mid, hi, closes[hi - 1], closes[mid]);
    hide Falling;
    var m, n := (mid - lo) as real, (hi - mid) as real;
    assert m + n == (hi - lo) as real;
    EarlierPartIsLarger(Total(closes, lo, mid), Total(closes, mid, hi), m, n, closes[mid], closes[mid - 1]);
  }

  /** Strictly rising closes over the slow window ask for the asset, strictly falling ones for cash. */
  lemma SmaFollowsTrend(closes: seq<real>, strategy: Strategy, index: nat, inLong: bool)
    requires strategy.Sma? && index < |closes| && strategy.slowPeriod <= index + 1
    ensures Rising(closes, index + 1 - strategy.slowPeriod, index + 1) ==>
              DesiredPosition(closes, strategy, index, inLong)
    ensures Falling(closes, index + 1 - strategy.slowPeriod, index + 1) ==>
              !DesiredPosition(closes, strategy, index, inLong)
  {
    hide DesiredPosition, Total, Rising, Falling;
    var Sma(fast, slow) := strategy;
    SmaAsks(closes, strategy, index, inLong);
    if Rising(closes, index + 1 - slow, index + 1) {
      RisingTotals(closes, index + 1 - slow, index + 1 - fast, index + 1);
    }
    if Falling(closes, index + 1 - slow, index + 1) {
      FallingTotals(closes, index + 1 - slow, index + 1 - fast, index + 1);
    }
  }

  // ---- Relative strength

  /** The rises from one close to the next, of the closes after `lo` to before `hi`. */
  function TotalRise(closes: seq<real>, lo: nat, hi: nat): (total: real)
    requires lo < hi <= |closes|
    ensures total >= 0.0
  {
    if lo + 1 == hi then 0.0
    else
      var step := closes[hi - 1] - closes[hi - 2];
      TotalRise(closes, lo, hi - 1) + if step > 0.0 then step else 0.0
  }

  function TotalFall(closes: seq<real>, lo: nat, hi: nat): (total: real)
    requires lo < hi <= |closes|
    ensures total >= 0.0
  {
    if lo + 1 == hi then 0.0
    else
      var step := closes[hi - 1] - closes[hi - 2];
      TotalFall(closes, lo, hi - 1) + if step < 0.0 then -step else 0.0
  }

  lemma {:induction false} SumOfAppend(values: seq<real>, x: real)
    ensures Sum(values + [x]) == Sum(values) + x
  {
    if values == [] {
      assert [] + [x] == [x] && Sum([x][1..]) == 0.0;
    } else {
      assert (values + [x])[1..] == values[1..] + [x];
      SumOfAppend(values[1..], x);
    }
  }

  lemma {:induction false} ChangesAddUp(closes: seq<real>, period: nat, index: nat, n: nat)
    requires 0 < period <= index < |closes| && n <= period
    ensures var changes := Changes(closes, period, index)[..n];
            && Sum(Rises(changes)) == TotalRise(closes, index - period, index - period + n + 1)
            && Sum(Falls(changes)) == TotalFall(closes, index - period, index - period + n + 1)
  {
    var all := Changes(closes, period, index);
    if n == 0 {
      assert Rises(all[..0]) == [] && Falls(all[..0]) == [];
    } else {
      ChangesAddUp(closes, period, index, n - 1);
      var before, step := all[..n - 1], all[n - 1];
      assert all[..n] == before + [step];
      assert Rises(all[..n]) == Rises(before) + [if step > 0.0 then step else 0.0];
      assert Falls(all[..n]) == Falls(before) + [if -step > 0.0 then -step else 0.0];
      SumOfAppend(Rises(before), if step > 0.0 then step else 0.0);
      SumOfAppend(Falls(before), if -step > 0.0 then -step else 0.0);
    }
  }

  lemma MeansOfChanges(closes: seq<real>, period: nat, index: nat)
    requires 0 < period <= index < |closes|
    ensures var changes := Changes(closes, period, index);
            && MeanRise(changes, period) == TotalRise(closes, index - period, index + 1) / period as real
            && MeanFall(changes, period) == TotalFall(closes, index - period, index + 1) / period as real
  {
    var changes := Changes(closes, period, index);
    ChangesAddUp(closes, period, index, period);
    assert changes[..period] == changes;
  }

  lemma MeanSign(total: real, n: real)
    requires total >= 0.0 && n > 0.0
    ensures total / n >= 0.0 && (total / n == 0.0 <==> total == 0.0)
  {
  }

  lemma MeanRatio(gain: real, loss: real, n: real)
    requires gain >= 0.0 && loss > 0.0 && n > 0.0
    ensures loss / n > 0.0 && (gain / n) / (loss / n) == gain / loss
  {
    var g, l := gain / n, loss / n;
    assert g * n == gain && l * n == loss;
    MeanSign(loss, n);
    var q := g / l;
    assert q * l == g;
    assert q * loss == gain;
  }

  lemma StrengthOfRatio(gain: real, loss: real, threshold: real)
    requires gain >= 0.0 && loss > 0.0
    ensures gain / loss >= 0.0
    ensures var strength := 100.0 - 100.0 / (1.0 + gain / loss);
            && (strength <= threshold <==> 100.0 * gain <= threshold * (gain + loss))
            && (strength >= threshold <==> 100.0 * gain >= threshold * (gain + loss))
  {
    var q := gain / loss;
    assert q * loss == gain;
    MeanSign(gain, loss);
    var part := 100.0 / (1.0 + q);
    assert part * (1.0 + q) == 100.0;
    var whole := gain + loss;
    assert part * whole == 100.0 * loss by {
      assert whole == (1.0 + q) * loss;
      assert part * whole == part * (1.0 + q) * loss;
    }
    assert (100.0 - part) * whole == 100.0 * gain;
    CompareFactors(100.0 - part, threshold, whole);
    CompareFactors(threshold, 100.0 - part, whole);
  }

  /** With rises `gain` and falls `loss`, the strength is against a threshold as 100 times the rises is
      against the threshold times both; without any change it is 50. */
  lemma StrengthAgainst(gain: real, loss: real, n: real, threshold: real)
    requires gain >= 0.0 && loss >= 0.0 && n > 0.0 && 0.0 < threshold < 100.0
    ensures gain / n >= 0.0 && loss / n >= 0.0
    ensures var strength := Strength(gain / n, loss / n);
            if gain + loss > 0.0 then
              && (strength <= threshold <==> 100.0 * gain <= threshold * (gain + loss))
              && (strength >= threshold <==> 100.0 * gain >= threshold * (gain + loss))
            else strength == 50.0
  {
    MeanSign(gain, n);
    MeanSign(loss, n);
    if loss > 0.0 {
      MeanRatio(gain, loss, n);
      StrengthOfRatio(gain, loss, threshold);
    } else if gain > 0.0 {
      TimesStrict(gain, threshold, 100.0);
    }
  }

  lemma StrengthOfChanges(closes: seq<real>, period: nat, index: nat)
    requires 0 < period <= index < |closes|
    ensures var n := period as real;
            var gain := TotalRise(closes, index - period, index + 1);
            var loss := TotalFall(closes, index - period, index + 1);
            && gain / n >= 0.0 && loss / n >= 0.0
            && RelativeStrength(closes, period, index) == Some(Strength(gain / n, loss / n))
  {
    MeansOfChanges(closes, period, index);
    hide Changes, MeanRise, MeanFall, Strength, TotalRise, TotalFall;
  }

  lemma RsiReadsStrength(closes: seq<real>, strategy: Strategy, index: nat, inLong: bool)
    requires strategy.Rsi? && strategy.period <= index < |closes|
    ensures RelativeStrength(closes, strategy.period, index).Some?
    ensures var strength := RelativeStrength(closes, strategy.period, index).value;
            DesiredPosition(closes, strategy, index, inLong)
            == (strength <= strategy.oversold || (strength < strategy.overbought && inLong))
  {
    hide Strength, Changes, MeanRise, MeanFall;
  }

  /** The asset for oversold, cash for overbought, and what is held between: 100 times the rises against
      each threshold times all changes, and 50 against it if nothing changed. */
  predicate ChangesAsk(gain: real, loss: real, oversold: real, overbought: real, inLong: bool) {
    if gain + loss == 0.0 then 50.0 <= oversold || (50.0 < overbought && inLong)
    else
      || 100.0 * gain <= oversold * (gain + loss)
      || (100.0 * gain < overbought * (gain + loss) && inLong)
  }

  lemma StrengthAsks(gain: real, loss: real, n: real, oversold: real, overbought: real, inLong: bool)
    requires gain >= 0.0 && loss >= 0.0 && n > 0.0 && 0.0 < oversold < overbought < 100.0
    ensures gain / n >= 0.0 && loss / n >= 0.0
    ensures var strength := Strength(gain / n, loss / n);
            (strength <= oversold || (strength < overbought && inLong))
            == ChangesAsk(gain, loss, oversold, overbought, inLong)
  {
    hide Strength;
    StrengthAgainst(gain, loss, n, oversold);
    StrengthAgainst(gain, loss, n, overbought);
  }

  /** Relative strength asks what the rises and falls of the period ask. */
  lemma RsiAsks(closes: seq<real>, strategy: Strategy, index: nat, inLong: bool)
    requires strategy.Rsi? && index < |closes|
    ensures var Rsi(period, oversold, overbought) := strategy;
            DesiredPosition(closes, strategy, index, inLong)
            == if index < period then inLong
               else ChangesAsk(TotalRise(closes, index - period, index + 1),
                               TotalFall(closes, index - period, index + 1), oversold, overbought, inLong)
  {
    var Rsi(period, oversold, overbought) := strategy;
    if index >= period {
      var gain, loss := TotalRise(closes, index - period, index + 1), TotalFall(closes, index - period, index + 1);
      hide DesiredPosition, RelativeStrength, Strength, ChangesAsk;
      StrengthOfChanges(closes, period, index);
      RsiReadsStrength(closes, strategy, index, inLong);
      StrengthAsks(gain, loss, period as real, oversold, overbought, inLong);
    } else {
      hide ChangesAsk;
    }
  }

  // ---- Breakout

  /** Breakout: above every prior close of the period asks for the asset, below every one for cash. */
  lemma BreakoutAsks(closes: seq<real>, strategy: Strategy, index: nat, inLong: bool)
    requires strategy.Breakout? && index < |closes|
    ensures DesiredPosition(closes, strategy, index, inLong)
         == if index < strategy.period then inLong
            else if forall k | index - strategy.period <= k < index :: closes[k] < closes[index] then true
            else if forall k | index - strategy.period <= k < index :: closes[k] > closes[index] then false
            else inLong
  {
    var lo := index - strategy.period;
    if index >= strategy.period {
      var prior := closes[lo..index];
      assert forall k | lo <= k < index :: closes[k] == prior[k - lo];
      assert forall k | 0 <= k < |prior| :: prior[k] == closes[lo + k];
    }
  }

  // ---- What a run then holds

  /** Whatever the side before, the bar after a decided one shows units exactly when the decision was for
      the asset, if the fill is not too small for the rounding. */
  lemma DecidedBarIsHeld(r: Inputs, k: nat, long: bool)
    requires r.start <= k < |r.bars| - 1
    requires forall inLong :: DesiredPosition(Closes(r.bars), r.strategy, k, inLong) == long
    requires BuysEnough(r, k + 1, After(r, k + 1))
    ensures Outcome(r).curve[k + 1 - r.start].quantity > 0.0 <==> long
  {
    hide After, Filled, Mark, BuysEnough, DesiredPosition, Outcome;
    OneBar(r, k);
    BacktestSegments.ShownQuantity(r, k + 1);
  }

  /** A run on the crossover holds the asset at the next bar exactly when the fast average is above. */
  lemma SmaRunHolds(r: Inputs, k: nat)
    requires r.strategy.Sma? && r.start <= k < |r.bars| - 1 && r.strategy.slowPeriod <= k + 1
    requires BuysEnough(r, k + 1, After(r, k + 1))
    ensures var closes, Sma(fast, slow) := Closes(r.bars), r.strategy;
            Outcome(r).curve[k + 1 - r.start].quantity > 0.0
            <==> slow as real * Total(closes, k + 1 - fast, k + 1) > fast as real * Total(closes, k + 1 - slow, k + 1)
  {
    hide After, BuysEnough, DesiredPosition, Outcome, Total;
    var closes := Closes(r.bars);
    SmaAsks(closes, r.strategy, k, false);
    SmaAsks(closes, r.strategy, k, true);
    DecidedBarIsHeld(r, k, DesiredPosition(closes, r.strategy, k, false));
  }

  /** A run on the breakout holds the asset after a new high of the period, and cash after a new low. */
  lemma BreakoutRunHolds(r: Inputs, k: nat)
    requires r.strategy.Breakout? && r.start <= k < |r.bars| - 1 && r.strategy.period <= k
    requires BuysEnough(r, k + 1, After(r, k + 1))
    ensures (forall i | k - r.strategy.period <= i < k :: r.bars[i].close < r.bars[k].close) ==>
              Outcome(r).curve[k + 1 - r.start].quantity > 0.0
    ensures (forall i | k - r.strategy.period <= i < k :: r.bars[i].close > r.bars[k].close) ==>
              Outcome(r).curve[k + 1 - r.start].quantity == 0.0
  {
    hide After, BuysEnough, DesiredPosition, Outcome;
    var closes := Closes(r.bars);
    assert forall i | 0 <= i < |r.bars| :: closes[i] == r.bars[i].close;
    assert closes[k - 1] < closes[k] || !(closes[k - 1] < closes[k]);
    BreakoutAsks(closes, r.strategy, k, false);
    BreakoutAsks(closes, r.strategy, k, true);
    hide Closes;
    if DesiredPosition(closes, r.strategy, k, false) == DesiredPosition(closes, r.strategy, k, true) {
      DecidedBarIsHeld(r, k, DesiredPosition(closes, r.strategy, k, false));
    }
    BacktestSegments.ShownQuantity(r, k + 1);
  }
}
