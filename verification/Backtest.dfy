/** The long/cash kernel: a signal at one close fills at the next open. */
module Backtest {
  import opened Wrappers
  import opened Rounding
  import opened Bars
  import opened Ledger
  import Signals
  import Drawdown

  type Strategy = Signals.Strategy

  datatype BacktestResult = BacktestResult(strategy: Option<Strategy>, curve: seq<EquityPoint>,
                                           trades: seq<Trade>, metrics: Metrics)

  /** Everything a run reads, once validated. */
  datatype Inputs = Inputs(bars: seq<Bar>, strategy: Strategy, config: Config, start: nat, market: bool, p: Precision)

  /** Everything the loop carries from bar to bar. */
  datatype Account = Account(cash: real, quantity: real, pendingLong: bool,
                             entryDate: Option<int>, entryPrice: real, entryQuantity: real, entryFee: real,
                             entryIndex: Option<nat>, curve: seq<EquityPoint>, trades: seq<Trade>)

  datatype Purchase = Purchase(quantity: real, cash: real, fee: real)
  datatype Sale = Sale(price: real, proceeds: real, fee: real)

  function Closes(bars: seq<Bar>): seq<real> {
    seq(|bars|, i requires 0 <= i < |bars| => bars[i].close)
  }

  /** A price with a rate added to it or taken off it. */
  function Adjusted(price: real, factor: real): (adjusted: real)
    ensures price > 0.0 && factor > 0.0 ==> adjusted > 0.0
  {
    price * factor
  }

  function BuyPrice(bar: Bar, config: Config): (price: real)
    ensures price > 0.0
  {
    Adjusted(bar.open, 1.0 + config.slippageRate)
  }

  function SellPrice(bar: Bar, config: Config): (price: real)
    ensures price > 0.0
  {
    Adjusted(bar.open, 1.0 - config.slippageRate)
  }

  /** What so many units are worth at a price. */
  function Gross(quantity: real, price: real): real {
    quantity * price
  }

  function FeeOn(gross: real, config: Config): real {
    gross * config.feeRate
  }

  /** What one unit costs with the fee. */
  function UnitCost(bar: Bar, config: Config): (cost: real)
    ensures cost > 0.0
  {
    Adjusted(BuyPrice(bar, config), 1.0 + config.feeRate)
  }

  function Buy(cash: real, bar: Bar, config: Config, p: Precision): Purchase {
    var fill := BuyPrice(bar, config);
    var quantity := cash / UnitCost(bar, config);
    var gross := Gross(quantity, fill);
    var fee := FeeOn(gross, config);
    Purchase(Round(p, quantity), Round(p, cash - gross - fee), Round(p, fee))
  }

  function Sell(quantity: real, bar: Bar, config: Config, p: Precision): Sale {
    var fill := SellPrice(bar, config);
    var gross := Gross(quantity, fill);
    var fee := FeeOn(gross, config);
    Sale(Round(p, fill), Round(p, gross - fee), Round(p, fee))
  }

  /** The entry bar recorded in an account is one of the run's bars. */
  predicate EntryInRange(r: Inputs, a: Account) {
    a.entryIndex.Some? ==> a.entryIndex.value < |r.bars|
  }

  /** What an entry took out of the cash. */
  function Outlay(quantity: real, price: real, fee: real): real {
    Gross(quantity, price) + fee
  }

  function Invested(a: Account): real {
    Outlay(a.entryQuantity, a.entryPrice, a.entryFee)
  }

  function ReturnPct(pnl: real, invested: real, p: Precision): real {
    if invested != 0.0 then Round(p, pnl / invested) else 0.0
  }

  function ClosedTrade(r: Inputs, index: nat, a: Account): Trade
    requires index < |r.bars| && EntryInRange(r, a)
  {
    var bar := r.bars[index];
    var sale := Sell(a.quantity, bar, r.config, r.p);
    var invested := Invested(a);
    var pnl := sale.proceeds - invested;
    var entry := a.entryIndex;
    var timed := r.market && entry.Some?;
    Trade(if entry.Some? then entry.value else index, index,
          if a.entryDate.Some? then a.entryDate.value else BarDate(bar), Round(r.p, a.entryPrice),
          BarDate(bar), sale.price, a.entryQuantity, a.entryFee, sale.fee,
          Round(r.p, pnl), ReturnPct(pnl, invested, r.p),
          if timed then BarTimestamp(r.bars[entry.value]) else None,
          if r.market then BarTimestamp(bar) else None,
          if timed then Some(index - entry.value) else None,
          if timed then ElapsedSeconds(r.bars[entry.value], bar) else None)
  }

  datatype Action = Bought | Sold | Kept

  /** What the open of the next bar does. */
  function NextAction(a: Account): Action {
    if a.pendingLong && a.quantity == 0.0 then Bought
    else if !a.pendingLong && a.quantity > 0.0 then Sold
    else Kept
  }

  function Fill(r: Inputs, index: nat, a: Account): (b: Account)
    requires index < |r.bars| && EntryInRange(r, a)
    ensures EntryInRange(r, b)
  {
    var bar := r.bars[index];
    match NextAction(a)
    case Bought =>
      var bought := Buy(a.cash, bar, r.config, r.p);
      a.(quantity := bought.quantity, cash := bought.cash, entryFee := bought.fee,
         entryDate := Some(BarDate(bar)), entryPrice := BuyPrice(bar, r.config),
         entryQuantity := bought.quantity, entryIndex := Some(index))
    case Sold =>
      var sale := Sell(a.quantity, bar, r.config, r.p);
      a.(cash := Round(r.p, a.cash + sale.proceeds), trades := a.trades + [ClosedTrade(r, index, a)],
         quantity := 0.0, entryDate := None, entryIndex := None)
    case Kept => a
  }

  function Worth(cash: real, quantity: real, close: real): real {
    cash + Gross(quantity, close)
  }

  function Mark(r: Inputs, index: nat, a: Account): EquityPoint
    requires index < |r.bars|
  {
    var bar := r.bars[index];
    EquityPoint(BarDate(bar), Round(r.p, a.cash), Round(r.p, a.quantity), bar.close,
                Round(r.p, Worth(a.cash, a.quantity, bar.close)),
                if r.market then BarTimestamp(bar) else None)
  }

  function Settle(r: Inputs, index: nat, a: Account): Account
    requires index < |r.bars|
  {
    a.(curve := a.curve + [Mark(r, index, a)],
       pendingLong := Signals.DesiredPosition(Closes(r.bars), r.strategy, index, a.pendingLong && a.quantity != 0.0))
  }

  /** One bar: fill at the open, mark at the close, then read the signal. */
  function Step(r: Inputs, index: nat, a: Account): (b: Account)
    requires index < |r.bars| && EntryInRange(r, a)
    ensures EntryInRange(r, b)
  {
    Settle(r, index, Fill(r, index, a))
  }

  function Opening(config: Config): Account {
    Account(config.initialCash, 0.0, false, None, 0.0, 0.0, 0.0, None, [], [])
  }

  /** The account after the bars before `k`. */
  function After(r: Inputs, k: nat): (a: Account)
    requires r.start <= k <= |r.bars|
    ensures EntryInRange(r, a) && |a.curve| == k - r.start
  {
    if k == r.start then Opening(r.config) else Step(r, k - 1, After(r, k - 1))
  }

  /** The account of bar `k` between its fill and its close. */
  function Filled(r: Inputs, k: nat): (a: Account)
    requires r.start <= k < |r.bars|
    ensures EntryInRange(r, a)
  {
    Fill(r, k, After(r, k))
  }

  function Outcome(r: Inputs): BacktestResult
    requires r.start <= |r.bars|
  {
    var a := After(r, |r.bars|);
    BacktestResult(Some(r.strategy), a.curve, a.trades, Drawdown.MetricsOf(a.curve, a.trades, r.config, |a.curve|, r.p))
  }

  /** The inputs a call accepts. */
  function Accept(bars: seq<Bar>, strategy: Strategy, config: Config, start: int, cadence: Option<Cadence>,
                  p: Precision)
    : Result<Inputs, InputError>
  {
    match Validate(bars, cadence)
    case Err(e) => Err(e)
    case Ok(checked) =>
      if 0 <= start <= |bars| then Ok(Inputs(bars, strategy, config, start, checked.market, p))
      else Err(StartOutOfRange)
  }

  method RunBacktest(bars: seq<Bar>, strategy: Strategy, config: Config, start: int, cadence: Option<Cadence>,
                     p: Precision)
    returns (result: Result<BacktestResult, InputError>)
    ensures match Accept(bars, strategy, config, start, cadence, p)
            case Err(e) => result == Err(e)
            case Ok(r) => result == Ok(Outcome(r))
  {
    hide Round, Buy, Sell, BuyPrice, SellPrice, UnitCost, Validate, BarDate, BarTimestamp, ElapsedSeconds;
    hide Signals.DesiredPosition, Drawdown.MetricsOf, Outlay, ReturnPct, Worth;
    var validated := Validate(bars, cadence);
    if validated.Err? {
      return Err(validated.error);
    }
    if !(0 <= start <= |bars|) {
      return Err(StartOutOfRange);
    }
    var market := validated.value.market;
    var cash, quantity, pendingLong := config.initialCash, 0.0, false;
    var entryDate, entryPrice, entryQuantity, entryFee := None, 0.0, 0.0, 0.0;
    var entryIndex: Option<nat> := None;
    var curve, trades := [], [];
    var closes := Closes(bars);
    ghost var r := Inputs(bars, strategy, config, start, market, p);
    for index := start to |bars|
      invariant Account(cash, quantity, pendingLong, entryDate, entryPrice, entryQuantity, entryFee, entryIndex,
                        curve, trades)
             == After(r, index)
    {
      var bar := bars[index];
      ghost var before := After(r, index);
      if pendingLong && quantity == 0.0 {
        var bought := Buy(cash, bar, config, p);
        quantity, cash, entryFee := bought.quantity, bought.cash, bought.fee;
        entryDate := Some(BarDate(bar));
        entryPrice := BuyPrice(bar, config);
        entryQuantity := quantity;
        entryIndex := Some(index);
      } else if !pendingLong && quantity > 0.0 {
        var sale := Sell(quantity, bar, config, p);
        cash := Round(p, cash + sale.proceeds);
        var invested := Outlay(entryQuantity, entryPrice, entryFee);
        var pnl := sale.proceeds - invested;
        var timed := market && entryIndex.Some?;
        var trade :=
          Trade(if entryIndex.Some? then entryIndex.value else index, index,
                if entryDate.Some? then entryDate.value else BarDate(bar), Round(p, entryPrice),
                BarDate(bar), sale.price, entryQuantity, entryFee, sale.fee,
                Round(p, pnl), ReturnPct(pnl, invested, p),
                if timed then BarTimestamp(bars[entryIndex.value]) else None,
                if market then BarTimestamp(bar) else None,
                if timed then Some(index - entryIndex.value) else None,
                if timed then ElapsedSeconds(bars[entryIndex.value], bar) else None);
        assert trade == ClosedTrade(r, index, before);
        trades := trades + [trade];
        quantity := 0.0;
        entryDate := None;
        entryIndex := None;
      }
      assert Account(cash, quantity, pendingLong, entryDate, entryPrice, entryQuantity, entryFee, entryIndex,
                     curve, trades)
          == Fill(r, index, before);
      var equity := Worth(cash, quantity, bar.close);
      curve := curve + [EquityPoint(BarDate(bar), Round(p, cash), Round(p, quantity), bar.close, Round(p, equity),
                                    if market then BarTimestamp(bar) else None)];
      pendingLong := Signals.DesiredPosition(closes, strategy, index, pendingLong && quantity != 0.0);
      assert After(r, index + 1) == Settle(r, index, Fill(r, index, before));
    }
    var metrics := Drawdown.Measure(curve, trades, config, |curve|, p);
    result := Ok(BacktestResult(Some(strategy), curve, trades, metrics));
  }

  // ---- The benchmark

  function BenchmarkCurve(bars: seq<Bar>, config: Config, market: bool, p: Precision): seq<EquityPoint>
    requires bars != []
  {
    var bought := Buy(config.initialCash, bars[0], config, p);
    seq(|bars|, i requires 0 <= i < |bars| =>
      EquityPoint(BarDate(bars[i]), Round(p, bought.cash), bought.quantity, bars[i].close,
                  Round(p, Worth(bought.cash, bought.quantity, bars[i].close)),
                  if market then BarTimestamp(bars[i]) else None))
  }

  datatype ArithmeticError = DivisionByZero

  /** The benchmark's one trade: bought at the first open, marked at the last close, never sold.  The return
      divides by the rounded amount invested, which is not guarded. */
  function BenchmarkTrade(bars: seq<Bar>, config: Config, market: bool, p: Precision): Result<Trade, ArithmeticError>
    requires bars != []
  {
    var bought := Buy(config.initialCash, bars[0], config, p);
    var last := bars[|bars| - 1];
    var entryPrice := Round(p, BuyPrice(bars[0], config));
    var invested := Outlay(bought.quantity, entryPrice, bought.fee);
    if invested == 0.0 then Err(DivisionByZero)
    else
      var gain := Gross(bought.quantity, last.close) - Gross(bought.quantity, entryPrice) - bought.fee;
      Ok(Trade(0, |bars| - 1, BarDate(bars[0]), entryPrice, BarDate(last), last.close,
               bought.quantity, bought.fee, 0.0,
               Round(p, Gross(bought.quantity, last.close - entryPrice) - bought.fee), Round(p, gain / invested),
               if market then BarTimestamp(bars[0]) else None,
               if market then BarTimestamp(last) else None,
               if market then Some(|bars| - 1) else None,
               if market then ElapsedSeconds(bars[0], last) else None))
  }

  /** Buy at the first open and hold through the last close. */
  function BuyAndHold(bars: seq<Bar>, config: Config, market: bool, p: Precision)
    : Result<BacktestResult, ArithmeticError>
  {
    if bars == [] then Ok(BacktestResult(None, [], [], Drawdown.MetricsOf([], [], config, 0, p)))
    else
      match BenchmarkTrade(bars, config, market, p)
      case Err(e) => Err(e)
      case Ok(trade) =>
        var curve := BenchmarkCurve(bars, config, market, p);
        Ok(BacktestResult(None, curve, [trade], Drawdown.MetricsOf(curve, [trade], config, |bars|, p)))
  }
}
