/** The three strategy families: what a completed bar asks the next open to hold. */
module Signals {
  import opened Wrappers

  datatype RawStrategy =
    | Sma(fastPeriod: nat, slowPeriod: nat)
    | Rsi(period: nat, oversold: real, overbought: real)
    | Breakout(period: nat)

  predicate IsStrategy(s: RawStrategy) {
    match s
    case Sma(fast, slow) => 0 < fast < slow
    case Rsi(period, oversold, overbought) => 0 < period && 0.0 < oversold < overbought < 100.0
    case Breakout(period) => 0 < period
  }

  type Strategy = s: RawStrategy | IsStrategy(s) witness Breakout(1)

  function Sum(values: seq<real>): real {
    if values == [] then 0.0 else values[0] + Sum(values[1..])
  }

  function Largest(values: seq<real>): (m: real)
    requires values != []
    ensures m in values && forall k | 0 <= k < |values| :: values[k] <= m
  {
    if |values| == 1 then values[0]
    else
      var m := Largest(values[1..]);
      assert forall k | 1 <= k < |values| :: values[k] == values[1..][k - 1];
      if values[0] > m then values[0] else m
  }

  function Smallest(values: seq<real>): (m: real)
    requires values != []
    ensures m in values && forall k | 0 <= k < |values| :: m <= values[k]
  {
    if |values| == 1 then values[0]
    else
      var m := Smallest(values[1..]);
      assert forall k | 1 <= k < |values| :: values[k] == values[1..][k - 1];
      if values[0] < m then values[0] else m
  }

  function MovingAverage(values: seq<real>, period: nat, index: nat): Option<real>
    requires 0 < period && index < |values|
  {
    if index + 1 < period then None
    else Some(Sum(values[index + 1 - period..index + 1]) / period as real)
  }

  function Changes(values: seq<real>, period: nat, index: nat): seq<real>
    requires 0 < period <= index < |values|
  {
    seq(period, k requires 0 <= k < period =>
      values[index - period + 1 + k] - values[index - period + k])
  }

  function Rises(changes: seq<real>): (rises: seq<real>)
    ensures |rises| == |changes| && forall k | 0 <= k < |rises| :: rises[k] >= 0.0
  {
    seq(|changes|, k requires 0 <= k < |changes| => if changes[k] > 0.0 then changes[k] else 0.0)
  }

  function Falls(changes: seq<real>): (falls: seq<real>)
    ensures |falls| == |changes| && forall k | 0 <= k < |falls| :: falls[k] >= 0.0
  {
    seq(|changes|, k requires 0 <= k < |changes| => if -changes[k] > 0.0 then -changes[k] else 0.0)
  }

  lemma {:induction false} SumIsNonNegative(values: seq<real>)
    requires forall k | 0 <= k < |values| :: values[k] >= 0.0
    ensures Sum(values) >= 0.0
  {
    if values != [] {
      SumIsNonNegative(values[1..]);
    }
  }

  /** The two averages the index compares. */
  function MeanRise(changes: seq<real>, period: nat): (mean: real)
    requires period > 0
    ensures mean >= 0.0
  {
    SumIsNonNegative(Rises(changes));
    Sum(Rises(changes)) / period as real
  }

  function MeanFall(changes: seq<real>, period: nat): (mean: real)
    requires period > 0
    ensures mean >= 0.0
  {
    SumIsNonNegative(Falls(changes));
    Sum(Falls(changes)) / period as real
  }

  /** The relative strength the two averages stand for. */
  function Strength(gains: real, losses: real): real
    requires gains >= 0.0 && losses >= 0.0
  {
    if losses == 0.0 then (if gains != 0.0 then 100.0 else 50.0)
    else
      assert gains / losses >= 0.0;
      100.0 - 100.0 / (1.0 + gains / losses)
  }

  function RelativeStrength(values: seq<real>, period: nat, index: nat): Option<real>
    requires 0 < period && index < |values|
  {
    if index < period then None
    else
      var changes := Changes(values, period, index);
      Some(Strength(MeanRise(changes, period), MeanFall(changes, period)))
  }

  function DesiredPosition(closes: seq<real>, strategy: Strategy, index: nat, inLong: bool): bool
    requires index < |closes|
  {
    match strategy
    case Sma(fastPeriod, slowPeriod) =>
      var fast := MovingAverage(closes, fastPeriod, index);
      var slow := MovingAverage(closes, slowPeriod, index);
      if fast.None? || slow.None? then inLong else fast.value > slow.value
    case Rsi(period, oversold, overbought) =>
      var strength := RelativeStrength(closes, period, index);
      if strength.None? then inLong
      else if strength.value <= oversold then true
      else if strength.value >= overbought then false
      else inLong
    case Breakout(period) =>
      if index < period then inLong
      else if closes[index] > Largest(closes[index - period..index]) then true
      else if closes[index] < Smallest(closes[index - period..index]) then false
      else inLong
  }

  /** What a bar decides whichever side the account is on, if it decides anything. */
  function Decision(closes: seq<real>, strategy: Strategy, index: nat): Option<bool>
    requires index < |closes|
  {
    var long := DesiredPosition(closes, strategy, index, true);
    if DesiredPosition(closes, strategy, index, false) == long then Some(long) else None
  }

  /** An undecided bar keeps the position it was given; no bar reverses it. */
  lemma DecisionOrCarry(closes: seq<real>, strategy: Strategy, index: nat, inLong: bool)
    requires index < |closes|
    ensures DesiredPosition(closes, strategy, index, inLong)
         == match Decision(closes, strategy, index) case Some(side) => side case None => inLong
  {
  }

  /** A signal reads no close after its own bar. */
  lemma SignalIsCausal(a: seq<real>, b: seq<real>, strategy: Strategy, index: nat, inLong: bool)
    requires index < |a| && index < |b| && a[..index + 1] == b[..index + 1]
    ensures DesiredPosition(a, strategy, index, inLong) == DesiredPosition(b, strategy, index, inLong)
  {
    var n := index + 1;
    assert forall lo, hi | 0 <= lo <= hi <= n :: a[lo..hi] == a[..n][lo..hi] && b[lo..hi] == b[..n][lo..hi];
    assert forall k | 0 <= k < n :: a[k] == a[..n][k] && b[k] == b[..n][k];
    if strategy.Rsi? && index >= strategy.period {
      assert Changes(a, strategy.period, index) == Changes(b, strategy.period, index);
    }
  }

  // ---- Scaling every close by one positive factor

  function Times(c: real, x: real): real {
    c * x
  }

  function Scale(c: real, values: seq<real>): (scaled: seq<real>)
    ensures |scaled| == |values| && forall k | 0 <= k < |values| :: scaled[k] == Times(c, values[k])
  {
    seq(|values|, k requires 0 <= k < |values| => Times(c, values[k]))
  }

  lemma TimesDistributes(c: real, x: real, y: real)
    ensures Times(c, x + y) == Times(c, x) + Times(c, y)
    ensures Times(c, x - y) == Times(c, x) - Times(c, y)
  {
  }

  lemma {:induction false} SumScales(c: real, values: seq<real>)
    ensures Sum(Scale(c, values)) == Times(c, Sum(values))
  {
    if values != [] {
      assert Scale(c, values)[1..] == Scale(c, values[1..]);
      SumScales(c, values[1..]);
      TimesDistributes(c, values[0], Sum(values[1..]));
    }
  }

  lemma ScaleOfSlice(c: real, values: seq<real>, lo: nat, hi: nat)
    requires lo <= hi <= |values|
    ensures Scale(c, values)[lo..hi] == Scale(c, values[lo..hi])
  {
  }

  lemma PositiveTimes(c: real, x: real)
    requires c > 0.0 && x > 0.0
    ensures Times(c, x) > 0.0
  {
  }

  /** One positive factor keeps the order of two numbers. */
  lemma ScaleKeepsOrder(c: real, x: real, y: real)
    requires c > 0.0
    ensures x < y <==> Times(c, x) < Times(c, y)
  {
  }

  /** The extremes of two lists in the same order sit at the same places. */
  lemma ExtremesFollowOrder(a: seq<real>, b: seq<real>) returns (lo: nat, hi: nat)
    requires |a| == |b| > 0
    requires forall i, j | 0 <= i < |a| && 0 <= j < |a| :: a[i] < a[j] <==> b[i] < b[j]
    ensures lo < |a| && a[lo] == Smallest(a) && b[lo] == Smallest(b)
    ensures hi < |a| && a[hi] == Largest(a) && b[hi] == Largest(b)
  {
    var least, most, least', most' := Smallest(a), Largest(a), Smallest(b), Largest(b);
    lo :| 0 <= lo < |a| && a[lo] == least;
    hi :| 0 <= hi < |a| && a[hi] == most;
    var lo' :| 0 <= lo' < |b| && b[lo'] == least';
    var hi' :| 0 <= hi' < |b| && b[hi'] == most';
    assert !(a[lo'] < a[lo]) && !(b[lo] < b[lo']);
    assert !(a[hi] < a[hi']) && !(b[hi'] < b[hi]);
  }

  lemma ExtremesScale(c: real, values: seq<real>)
    requires c > 0.0 && values != []
    ensures Largest(Scale(c, values)) == Times(c, Largest(values))
    ensures Smallest(Scale(c, values)) == Times(c, Smallest(values))
  {
    forall i, j | 0 <= i < |values| && 0 <= j < |values|
      ensures values[i] < values[j] <==> Scale(c, values)[i] < Scale(c, values)[j]
    {
      ScaleKeepsOrder(c, values[i], values[j]);
    }
    var lo, hi := ExtremesFollowOrder(values, Scale(c, values));
  }

  lemma MeanScales(c: real, values: seq<real>, n: nat)
    requires n > 0
    ensures Sum(Scale(c, values)) / n as real == Times(c, Sum(values) / n as real)
  {
    SumScales(c, values);
  }

  lemma AverageScales(c: real, values: seq<real>, period: nat, index: nat)
    requires 0 < period <= index + 1 <= |values|
    ensures MovingAverage(Scale(c, values), period, index)
         == Some(Times(c, MovingAverage(values, period, index).value))
  {
    ScaleOfSlice(c, values, index + 1 - period, index + 1);
    MeanScales(c, values[index + 1 - period..index + 1], period);
  }

  lemma ChangesScale(c: real, values: seq<real>, period: nat, index: nat)
    requires 0 < period <= index < |values|
    ensures Changes(Scale(c, values), period, index) == Scale(c, Changes(values, period, index))
  {
    forall k | 0 <= k < period
      ensures Changes(Scale(c, values), period, index)[k] == Scale(c, Changes(values, period, index))[k]
    {
      TimesDistributes(c, values[index - period + 1 + k], values[index - period + k]);
    }
  }

  lemma RisesAndFallsScale(c: real, changes: seq<real>)
    requires c > 0.0
    ensures Rises(Scale(c, changes)) == Scale(c, Rises(changes))
    ensures Falls(Scale(c, changes)) == Scale(c, Falls(changes))
  {
    forall k | 0 <= k < |changes|
      ensures Rises(Scale(c, changes))[k] == Scale(c, Rises(changes))[k]
      ensures Falls(Scale(c, changes))[k] == Scale(c, Falls(changes))[k]
    {
      ScaleKeepsOrder(c, 0.0, changes[k]);
      ScaleKeepsOrder(c, changes[k], 0.0);
    }
  }

  lemma RatioScales(c: real, x: real, y: real)
    requires c > 0.0 && y > 0.0
    ensures Times(c, y) > 0.0 && Times(c, x) / Times(c, y) == x / y
  {
  }

  lemma StrengthScales(c: real, gains: real, losses: real)
    requires c > 0.0 && gains >= 0.0 && losses >= 0.0
    ensures Times(c, gains) >= 0.0 && Times(c, losses) >= 0.0
    ensures Strength(Times(c, gains), Times(c, losses)) == Strength(gains, losses)
  {
  }

  lemma RelativeStrengthScales(c: real, values: seq<real>, period: nat, index: nat)
    requires c > 0.0 && 0 < period && index < |values|
    ensures RelativeStrength(Scale(c, values), period, index) == RelativeStrength(values, period, index)
  {
    if index >= period {
      var changes := Changes(values, period, index);
      ChangesScale(c, values, period, index);
      RisesAndFallsScale(c, changes);
      MeanScales(c, Rises(changes), period);
      MeanScales(c, Falls(changes), period);
      StrengthScales(c, MeanRise(changes, period), MeanFall(changes, period));
    }
  }

  lemma AverageSignalIsScaleFree(c: real, closes: seq<real>, strategy: Strategy, index: nat, inLong: bool)
    requires c > 0.0 && index < |closes| && strategy.Sma?
    ensures DesiredPosition(Scale(c, closes), strategy, index, inLong)
         == DesiredPosition(closes, strategy, index, inLong)
  {
    var Sma(fast, slow) := strategy;
    if index + 1 >= slow {
      AverageScales(c, closes, fast, index);
      AverageScales(c, closes, slow, index);
      ScaleKeepsOrder(c, MovingAverage(closes, slow, index).value, MovingAverage(closes, fast, index).value);
    }
  }

  lemma BreakoutSignalIsScaleFree(c: real, closes: seq<real>, strategy: Strategy, index: nat, inLong: bool)
    requires c > 0.0 && index < |closes| && strategy.Breakout?
    ensures DesiredPosition(Scale(c, closes), strategy, index, inLong)
         == DesiredPosition(closes, strategy, index, inLong)
  {
    var period := strategy.period;
    if index >= period {
      var prior := closes[index - period..index];
      ScaleOfSlice(c, closes, index - period, index);
      ExtremesScale(c, prior);
      ScaleKeepsOrder(c, Largest(prior), closes[index]);
      ScaleKeepsOrder(c, closes[index], Smallest(prior));
    }
  }

  /** Every family compares prices with prices, so one factor on all closes changes no signal. */
  lemma SignalIsScaleFree(c: real, closes: seq<real>, strategy: Strategy, index: nat, inLong: bool)
    requires c > 0.0 && index < |closes|
    ensures DesiredPosition(Scale(c, closes), strategy, index, inLong)
         == DesiredPosition(closes, strategy, index, inLong)
  {
    match strategy
    case Sma(_, _) => AverageSignalIsScaleFree(c, closes, strategy, index, inLong);
    case Rsi(period, _, _) => RelativeStrengthScales(c, closes, period, index);
    case Breakout(_) => BreakoutSignalIsScaleFree(c, closes, strategy, index, inLong);
  }
}
