/** The records one backtest produces. */
module Ledger {
  import opened Wrappers

  datatype RawConfig = Config(initialCash: real, feeRate: real, slippageRate: real)

  predicate IsConfig(c: RawConfig) {
    c.initialCash > 0.0 && 0.0 <= c.feeRate < 1.0 && 0.0 <= c.slippageRate < 1.0
  }

  type Config = c: RawConfig | IsConfig(c) witness RawConfig.Config(100000.0, 0.0, 0.0)

  datatype EquityPoint = EquityPoint(date: int, cash: real, quantity: real, close: real, equity: real,
                                     timestamp: Option<int>)

  /** `entryIndex` and `exitIndex` are the positions of the two fill bars, which the
      dates and timestamps beside them identify. */
  datatype Trade = Trade(entryIndex: nat, exitIndex: nat,
                         entryDate: int, entryPrice: real, exitDate: int, exitPrice: real,
                         quantity: real, entryFee: real, exitFee: real, pnl: real, returnPct: real,
                         entryTimestamp: Option<int>, exitTimestamp: Option<int>,
                         holdingBars: Option<int>, holdingElapsedSeconds: Option<int>)

  datatype Metrics = Metrics(initialEquity: real, finalEquity: real, totalReturn: real, maxDrawdown: real,
                             winRate: real, tradeCount: nat, winningTrades: nat, losingTrades: nat,
                             exposure: real)

  function Equities(curve: seq<EquityPoint>): seq<real> {
    seq(|curve|, i requires 0 <= i < |curve| => curve[i].equity)
  }

  function Winners(trades: seq<Trade>): nat {
    if trades == [] then 0
    else Winners(trades[..|trades| - 1]) + if trades[|trades| - 1].pnl > 0.0 then 1 else 0
  }

  function Losers(trades: seq<Trade>): nat {
    if trades == [] then 0
    else Losers(trades[..|trades| - 1]) + if trades[|trades| - 1].pnl <= 0.0 then 1 else 0
  }

  function InvestedBars(curve: seq<EquityPoint>): nat {
    if curve == [] then 0
    else InvestedBars(curve[..|curve| - 1]) + if curve[|curve| - 1].quantity > 0.0 then 1 else 0
  }
}
