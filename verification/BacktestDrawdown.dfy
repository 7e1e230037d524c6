/** The published drawdown of a run. */
module BacktestDrawdown {
  import opened Rounding
  import opened Bars
  import opened Ledger
  import opened Backtest
  import opened BacktestBooks
  import opened BacktestAccounting
  import opened Drawdown
  import BacktestSegments

  /** The equity path a run is measured on: initial cash, then every bar. */
  function EquityPath(r: Inputs): seq<real>
    requires r.start <= |r.bars|
  {
    [r.config.initialCash] + Equities(Outcome(r).curve)
  }

  lemma WorthSign(r: Inputs, k: nat, a: Account)
    requires k < |r.bars| && Balanced(r, a, k + 1)
    ensures Worth(a.cash, a.quantity, r.bars[k].close) >= 0.0
    ensures r.p == Exact ==> Worth(a.cash, a.quantity, r.bars[k].close) > 0.0
  {
    GrossSign(a.quantity, r.bars[k].close);
    hide Gross;
  }

  lemma EquitySign(r: Inputs, k: nat)
    requires r.start <= k < |r.bars|
    ensures Outcome(r).curve[k - r.start].equity >= 0.0
    ensures r.p == Exact ==> Outcome(r).curve[k - r.start].equity > 0.0
  {
    AlwaysBalanced(r, k);
    BacktestSegments.CurveIsMarks(r, k, |r.bars|);
    hide After, Filled, MetricsOf, Balanced, Worth, Round;
    var f := Filled(r, k);
    WorthSign(r, k, f);
    var worth := Worth(f.cash, f.quantity, r.bars[k].close);
    RoundOfZero(r.p);
    RoundIsMonotone(r.p, 0.0, worth);
    ExactRound(worth);
  }

  lemma NoReturnBelowLoss(d: real, path: seq<real>)
    requires IsSomeReturn(d, path) && forall i | 0 <= i < |path| :: path[i] >= 0.0
    ensures d >= -1.0
  {
    var i, j :| 0 <= i <= j < |path| && path[i] > 0.0 && d == Return(path[i], path[j]);
    Quotient(path[j], path[i]);
  }

  lemma RoundedReturn(p: Precision, d: real)
    requires -1.0 <= d <= 0.0
    ensures -1.0 <= Round(p, d) <= 0.0 && Round(p, -1.0) == -1.0
  {
    assert Round(p, -1.0) == -1.0;
    RoundOfZero(p);
    RoundIsMonotone(p, -1.0, d);
    RoundIsMonotone(p, d, 0.0);
  }

  lemma PathSign(r: Inputs)
    requires r.start <= |r.bars|
    ensures forall x | x in EquityPath(r) :: x >= 0.0 && (r.p == Exact ==> x > 0.0)
  {
    hide After, MetricsOf;
    var path := EquityPath(r);
    forall i | 0 <= i < |path|
      ensures path[i] >= 0.0 && (r.p == Exact ==> path[i] > 0.0)
    {
      if i > 0 {
        EquitySign(r, r.start + i - 1);
      }
    }
  }

  /** The published drawdown is the (rounded) worst return between any two points of the path, earlier
      to later, and no less than the loss of everything, which no exact run comes to. */
  lemma DrawdownOfRun(r: Inputs)
    requires r.start <= |r.bars|
    ensures exists d :: BoundsEveryReturn(d, EquityPath(r)) && IsSomeReturn(d, EquityPath(r)) && d <= 0.0
                     && Outcome(r).metrics.maxDrawdown == Round(r.p, d)
    ensures -1.0 <= Outcome(r).metrics.maxDrawdown <= 0.0
    ensures r.p == Exact ==> -1.0 < Outcome(r).metrics.maxDrawdown
  {
    hide After, MaxDrawdown, Return, Round, BoundsEveryReturn, IsSomeReturn;
    var path := EquityPath(r);
    PathSign(r);
    assert forall i | 0 <= i < |path| :: path[i] in path;
    var d := MaxDrawdown(path);
    MaxDrawdownIsWorstPair(path);
    NoReturnBelowLoss(d, path);
    RoundedReturn(r.p, d);
    if r.p == Exact {
      MaxDrawdownOfPositivePath(path);
      ExactRound(d);
    }
    assert Outcome(r).metrics.maxDrawdown == Round(r.p, d);
  }

  lemma EmptyMark(r: Inputs, k: nat, a: Account)
    requires k < |r.bars| && a.cash == 0.0 && a.quantity == 0.0
    ensures Mark(r, k, a).equity == 0.0
  {
    RoundOfZero(r.p);
    hide Round;
  }

  lemma TotalLoss(initial: real)
    requires initial > 0.0
    ensures Return(initial, 0.0) == -1.0
  {
  }

  /** A run that loses a fill publishes the drawdown of a total loss. */
  lemma LostFillIsTotalLoss(r: Inputs, k: nat)
    requires r.start <= k < |r.bars| && LosesFill(r, k)
    ensures Outcome(r).metrics.maxDrawdown == -1.0
  {
    hide After, Filled, Mark, LosesFill, MaxDrawdown, Return, Round, IsSomeReturn;
    var path, initial := EquityPath(r), r.config.initialCash;
    LosingFillEmpties(r, k);
    EmptyMark(r, k, Filled(r, k));
    BacktestSegments.CurveIsMarks(r, k, |r.bars|);
    assert path[k - r.start + 1] == 0.0;
    PathSign(r);
    assert forall i | 0 <= i < |path| :: path[i] in path;
    var d := MaxDrawdown(path);
    MaxDrawdownIsWorstPair(path);
    NoReturnBelowLoss(d, path);
    assert d <= Return(path[0], path[k - r.start + 1]);
    TotalLoss(initial);
    RoundedReturn(r.p, d);
    assert Outcome(r).metrics.maxDrawdown == Round(r.p, d);
  }
}
