# Backtesting engine strategies in Dafny

This project models the two trading-strategy simulators of the Java
backtesting engine. Each simulator walks a series of closing prices once. It
holds at most one long position in mutable fields and appends trade records to
a ledger.

- `MovingAverageStrategy` computes a short and a long simple moving average
  (SMA). It walks the series from index `longPeriod`.
  - It buys on a bullish crossover, sizing the position from a risk budget
    (`balance * riskPerTrade / price`). It records a stop-loss and a
    take-profit level with the buy.
  - It sells on a bearish crossover, counting wins and losses and tracking the
    peak balance and the maximum drawdown.
  - At the end it sells an open position at the last price ("FINAL SELL").
  - It then computes the performance summary.
- `Strategy` (the threshold strategy) buys one unit when flat, at or below the
  buy threshold and affordable. Otherwise it sells when holding at or above the
  sell threshold. It keeps a running total profit and does not liquidate at the
  end.

Prices and balances are exact `real`s, dates are opaque strings, and the
three record kinds are a `TradeType`.

Layout:

- `market.dfy` (`Market`): the shared values — market data point, trade record,
  ledger counts (`Sells`, `Wins`, `SellProfits`) and sums.
- `moving_average_model.dfy` (`MovingAverageModel`): the crossover strategy as
  functions on a state value. It has one function per part of the run:
  - `Sma`, `Enter`, `Exit`, `RecordDrawdown`, `Step`, `WalkTo`, `Liquidate`,
    `RunFrom` and `Summarize`;
  - the source's arithmetic formulas, each named once (`RiskBudget`,
    `UnitsFor`, `ValueOf`, `StopLossLevel`, `TakeProfitLevel`, `DrawdownOf`).

  It also holds the lemmas about what a run does to the ledger and to the
  counters, including the peak balance and maximum drawdown read off the
  ledger (`PeakOf`, `MaxDrawdownOf`).
- `moving_average_engine.dfy` (`MovingAverageEngine`): the class with the
  source's fields. `Run` is the source's `run`, with its loop in `WalkSeries`.
  The loop body and the entry, exit, drawdown and final-sell blocks, which
  the source writes inline in `run`, are helper methods, one per block
  (`ProcessBar`, `OpenPosition`, `ClosePosition`, `UpdateDrawdown`,
  `SellAtEnd`). Each method is proved to
  leave the fields equal to the model function applied to the old fields.
  `CalculateSma` keeps the nested loops and is proved equal to `Sma`.
- `threshold_model.dfy` (`ThresholdModel`) and `threshold_engine.dfy`
  (`ThresholdEngine`) do the same for the threshold strategy.

Where a natural reading of the strategies differs from the code, the model
follows the code:

- The threshold strategy buys exactly one unit. On prices 10, 9, 8, 11, 12 with
  thresholds 9 and 11 and a balance of 100, it buys at 9 (the first price at or
  below the threshold), sells at 11 and ends at 102. It does not size a
  position from a risk budget (`ThresholdScenario`).
- On prices 1, 1, 1, 2, 3, 1 with periods 2 and 3, the averages at index 2 are
  equal (both 1). The strict "short below long" test therefore fails, and no
  crossover is ever seen (`CrossoverScenario`).
- Stop-loss and take-profit levels are only written into the "BUY" record.
  Nothing checks them while a position is held. The take-profit level is
  measured from the stop-loss level, not from the entry price.
- The `Trade` constructor in `Trade.java` takes six arguments. The crossover
  strategy passes eight and the threshold strategy five. The model uses one
  record with all eight fields; the threshold strategy leaves the last three
  at 0.

Quirks reproduced as written:

- A rejected entry still overwrites `positionSize`.
- A "FINAL SELL" resets neither `buyPrice` nor `positionSize`. It updates
  neither the counters nor the drawdown.
- A zero profit counts as a loss.
- The profit factor is a ratio of win and loss counts.
- The average profit is always 0, because `cumulativeReturn` is never updated.
- `peakBalance` starts at 0.
- With `shortPeriod > longPeriod`, the walk reads the short series' 0.0
  placeholders.

## Model

| member | source | states |
|---|---|---|
| MovingAverageModel.Start | src/main/java/org/example/engine/MovingAverageStrategy.java:19-42 | a new strategy is flat, with an empty ledger and the balance equal to the initial balance |
| MovingAverageModel.Sma | src/main/java/org/example/engine/MovingAverageStrategy.java:113-127 | the SMA series is as long as the price series; its entries are 0.0 before the window is full, then the window mean |
| MovingAverageModel.SmaWithinWindow | src/main/java/org/example/engine/MovingAverageStrategy.java:119-123 | a full-window average lies between the lowest and the highest price of its window |
| MovingAverageModel.CrossoverReadsOnlyFullWindows | src/main/java/org/example/engine/MovingAverageStrategy.java:49-55 | with shortPeriod <= longPeriod, both averages compared at i-1 are true window means, never the 0.0 placeholder |
| MovingAverageModel.Enter | src/main/java/org/example/engine/MovingAverageStrategy.java:55-70 | an entry keeps the state sound (an open position has a positive size and a non-negative balance) and keeps the initial balance |
| MovingAverageModel.EnterEffect | src/main/java/org/example/engine/MovingAverageStrategy.java:56-66 | the entry is accepted iff the balance is positive and 0 < riskPerTrade <= 1; a rejected entry changes only positionSize; an accepted one pays exactly size*price, sets buyPrice to price and appends one "BUY" record with profit 0, the size, the balance left, and the stop-loss price*(1-stopLossPercent) and take-profit stopLoss*(1+takeProfitPercent) |
| MovingAverageModel.EntryGuard | src/main/java/org/example/engine/MovingAverageStrategy.java:56-59 | for a positive price, the guard "size > 0 and capital <= balance" holds iff the balance is positive and the risk fraction lies in (0, 1] |
| MovingAverageModel.Exit | src/main/java/org/example/engine/MovingAverageStrategy.java:72-94 | an exit leaves the state sound and flat, and keeps the initial balance |
| MovingAverageModel.ExitEffect | src/main/java/org/example/engine/MovingAverageStrategy.java:73-93 | an exit credits size*price, leaving a positive balance; it appends a "SELL" record with profit size*price - size*buyPrice; it counts one more trade, a win iff price > buyPrice; it resets buyPrice and positionSize to 0; afterwards peak >= balance, and the maximum drawdown never falls |
| MovingAverageModel.RecordDrawdown | src/main/java/org/example/engine/MovingAverageStrategy.java:85-87 | with a positive balance the peak becomes the larger of the old peak and the balance; the maximum drawdown becomes the larger of its old value and the current fall (peak - balance) / peak: it is at least both, and equal to one of them; it stays below 1; nothing else changes |
| MovingAverageModel.DrawdownFraction | src/main/java/org/example/engine/MovingAverageStrategy.java:86 | the drawdown from a peak at or above a positive balance lies in [0, 1) and times the peak gives the fall |
| MovingAverageModel.Step | src/main/java/org/example/engine/MovingAverageStrategy.java:50-94 | one iteration keeps the state sound and the initial balance unchanged |
| MovingAverageModel.StepEffect | src/main/java/org/example/engine/MovingAverageStrategy.java:55-94 | one iteration appends at most one record and never lowers the drawdown; a record written while flat is a buy after a bullish cross, and one written while holding is a sell after a bearish cross, so no bar both buys and sells |
| MovingAverageModel.StepTradesOnSignal | src/main/java/org/example/engine/MovingAverageStrategy.java:55-94 | when an iteration trades, both directions: from flat it records a trade iff the short average crosses above the long one, the balance is positive and 0 < riskPerTrade <= 1; while holding it records a trade iff the short average crosses below; a trade appends exactly one record (BUY from flat, SELL while holding) at the bar's date and price and flips the position |
| MovingAverageModel.WalkTo | src/main/java/org/example/engine/MovingAverageStrategy.java:49-95 | the walk keeps the state sound and the initial balance unchanged |
| MovingAverageModel.WalkGrows | src/main/java/org/example/engine/MovingAverageStrategy.java:49-95 | the walk only appends to the ledger, never lowers the maximum drawdown, and does nothing when the series is no longer than longPeriod |
| MovingAverageModel.WalkPrefix | src/main/java/org/example/engine/MovingAverageStrategy.java:49-95 | the ledger after m bars is a prefix of the ledger after any later bar |
| MovingAverageModel.SmaPrefix | src/main/java/org/example/engine/MovingAverageStrategy.java:116-126 | an average at index i reads no price after i: the averages of a truncated price series are the truncation of the averages |
| MovingAverageModel.WalkReadsPrefix | src/main/java/org/example/engine/MovingAverageStrategy.java:49-72 | the walk to bar n reads only the first n points and averages: two inputs that agree there reach the same state |
| MovingAverageModel.Liquidate | src/main/java/org/example/engine/MovingAverageStrategy.java:97-108 | after liquidation the state is flat; an open position is sold at the last price with one "FINAL SELL" record at the last date, crediting size*lastPrice, and nothing else changes |
| MovingAverageModel.RunFrom | src/main/java/org/example/engine/MovingAverageStrategy.java:44-108 | a run from a sound flat state ends sound and flat with the same initial balance |
| MovingAverageModel.RunExtendsHistory | src/main/java/org/example/engine/MovingAverageStrategy.java:44-108 | a run keeps every earlier record as a prefix and never lowers the maximum drawdown |
| MovingAverageModel.RunCausal | src/main/java/org/example/engine/MovingAverageStrategy.java:44-108 | no decision looks ahead: walking the first m bars on their own reaches the same state as the first m bars of the whole series; that ledger is a prefix of the whole run's ledger; a run on the truncated series writes the same ledger plus at most a closing "FINAL SELL" |
| MovingAverageModel.WarmUpNoTrades | src/main/java/org/example/engine/MovingAverageStrategy.java:49 | a series no longer than longPeriod leaves the state, ledger and balance unchanged |
| MovingAverageModel.Summarize | src/main/java/org/example/engine/MovingAverageStrategy.java:129-133 | the summary reports the balance, the trade count and the maximum drawdown as they are; the total return is defined iff the initial balance is non-zero; the win rate and average profit are 0 without trades, and the profit factor is 0 without losses |
| MovingAverageModel.SummaryBounds | src/main/java/org/example/engine/MovingAverageStrategy.java:129-133 | on a sound state: the win rate is in [0, 100], 0 without trades, and otherwise satisfies winRate * trades == wins * 100; the total return, when defined, satisfies totalReturn * initialBalance == (balance - initialBalance) * 100; the average profit is 0; the drawdown is in [0, 1); the profit factor is non-negative, 0 without losses, and otherwise wins/losses; the total return is defined iff the initial balance is non-zero |
| MovingAverageModel.StepTracks | src/main/java/org/example/engine/MovingAverageStrategy.java:49-95 | one iteration keeps the fields in agreement with the ledger |
| MovingAverageModel.EnterTracks | src/main/java/org/example/engine/MovingAverageStrategy.java:55-70 | an entry keeps the fields in agreement with the ledger |
| MovingAverageModel.ExitTracks | src/main/java/org/example/engine/MovingAverageStrategy.java:72-94 | an exit keeps the fields in agreement with the ledger |
| MovingAverageModel.ShapeAppend | src/main/java/org/example/engine/MovingAverageStrategy.java:66-77 | appending a record that fits the position keeps the entry/exit alternation of the ledger |
| MovingAverageModel.WalkTracks | src/main/java/org/example/engine/MovingAverageStrategy.java:49-95 | the whole walk keeps the fields in agreement with the ledger |
| MovingAverageModel.LiquidateLedger | src/main/java/org/example/engine/MovingAverageStrategy.java:97-105 | liquidation closes the open entry with a "FINAL SELL" at the last price and date, and the ledger ends flat |
| MovingAverageModel.RunLedger | src/main/java/org/example/engine/MovingAverageStrategy.java:44-108 | a fresh run's ledger alternates entry and exit, starts with an entry and ends flat; each entry debits the risk budget and records SL/TP; each exit sells the same size; a "FINAL SELL" is only last, at the last price and date; the balance, the counters, the peak balance and the maximum drawdown agree with the ledger |
| MovingAverageModel.RunSummary | src/main/java/org/example/engine/MovingAverageStrategy.java:129-133 | the summary of a fresh run reads off its ledger: trades are "SELL" records and the win rate is their share with positive profit |
| MovingAverageModel.RunMaxDrawdown | src/main/java/org/example/engine/MovingAverageStrategy.java:85-87 | the maximum drawdown a fresh run reports is the largest fall of a "SELL" balance below the peak up to that sale, as a fraction of that peak: no sale fell further, and it is 0 or the fall of some sale |
| MovingAverageModel.DrawdownAppend | src/main/java/org/example/engine/MovingAverageStrategy.java:85-87 | a "BUY" or "FINAL SELL" record moves neither the ledger's peak nor its maximum drawdown; a "SELL" raises the peak to its balance when higher and raises the maximum drawdown to its fall from that peak when larger |
| MovingAverageModel.PeakIsLargest | src/main/java/org/example/engine/MovingAverageStrategy.java:85 | the ledger's peak is at least every "SELL" balance, and is 0 or one of them |
| MovingAverageModel.DrawdownIsLargest | src/main/java/org/example/engine/MovingAverageStrategy.java:86-87 | the ledger's maximum drawdown is at least the fall of every "SELL" below the peak up to it, and is 0 or one of those falls |
| MovingAverageModel.RoundTripBalance | src/main/java/org/example/engine/MovingAverageStrategy.java:56-77 | an exit's balance is the balance before its entry, less the capital, plus size times the exit price; its profit is size times the price difference |
| MovingAverageModel.CrossoverScenario | src/main/java/org/example/engine/MovingAverageStrategy.java:49-72 | prices 1,1,1,2,3,1 with periods 2 and 3 produce no trade and leave the state unchanged |
| MovingAverageEngine.MovingAverageStrategy.constructor | src/main/java/org/example/engine/MovingAverageStrategy.java:26-42 | the fields are the parameters and Start(initialBalance) |
| MovingAverageEngine.MovingAverageStrategy.Run | src/main/java/org/example/engine/MovingAverageStrategy.java:44-111 | the new fields are RunFrom of the old ones, the strategy stays valid (flat and sound), and the summary is Summarize of the new fields |
| MovingAverageEngine.MovingAverageStrategy.WalkSeries | src/main/java/org/example/engine/MovingAverageStrategy.java:49-95 | the loop leaves the fields equal to WalkTo of the old ones over the whole series |
| MovingAverageEngine.MovingAverageStrategy.ProcessBar | src/main/java/org/example/engine/MovingAverageStrategy.java:50-94 | one loop pass leaves the fields equal to Step of the old ones |
| MovingAverageEngine.MovingAverageStrategy.OpenPosition | src/main/java/org/example/engine/MovingAverageStrategy.java:56-69 | the entry block leaves the fields equal to Enter of the old ones |
| MovingAverageEngine.MovingAverageStrategy.ClosePosition | src/main/java/org/example/engine/MovingAverageStrategy.java:73-93 | the exit block leaves the fields equal to Exit of the old ones |
| MovingAverageEngine.MovingAverageStrategy.UpdateDrawdown | src/main/java/org/example/engine/MovingAverageStrategy.java:85-87 | the peak/drawdown block leaves the fields equal to RecordDrawdown of the old ones |
| MovingAverageEngine.MovingAverageStrategy.SellAtEnd | src/main/java/org/example/engine/MovingAverageStrategy.java:97-108 | the final-sell block leaves the fields equal to Liquidate of the old ones |
| MovingAverageEngine.MovingAverageStrategy.CalculateSma | src/main/java/org/example/engine/MovingAverageStrategy.java:113-127 | the nested loops return exactly the Sma series of the closing prices |
| MovingAverageEngine.MovingAverageStrategy.CalculatePerformanceMetrics | src/main/java/org/example/engine/MovingAverageStrategy.java:129-133 | the metrics are Summarize of the fields |
| ThresholdModel.Start | src/main/java/org/example/engine/Strategy.java:17-37 | a new strategy is flat, with an empty ledger, the balance equal to the initial balance and zero profit |
| ThresholdModel.Step | src/main/java/org/example/engine/Strategy.java:49-68 | one data point adds at most one record, keeps the initial balance, and keeps balance == initialBalance + totalProfit - (holding ? buyPrice : 0); a trade flips the position |
| ThresholdModel.StepTradesOnSignal | src/main/java/org/example/engine/Strategy.java:49-68 | when a data point trades, both directions: from flat it records a trade iff the price is at or below the buy threshold and the balance covers it; while holding iff the price is at or above the sell threshold; a trade appends one record (BUY with profit 0 from flat, SELL with profit price - buyPrice while holding) at the point's date and price, moves the price between cash and position, and flips the position |
| ThresholdModel.Walk | src/main/java/org/example/engine/Strategy.java:45-69 | n data points add at most n records, only append, and keep the initial balance and the balance identity |
| ThresholdModel.RunFrom | src/main/java/org/example/engine/Strategy.java:44-72 | a run only appends to the ledger, at most one record per data point, keeps the initial balance and keeps balance == initialBalance + totalProfit - (holding ? buyPrice : 0) |
| ThresholdModel.WalkReadsPrefix | src/main/java/org/example/engine/Strategy.java:45-68 | the loop over the first n points reads only those points: a truncated series at least n long reaches the same state |
| ThresholdModel.WalkPrefix | src/main/java/org/example/engine/Strategy.java:45-68 | the ledger after m points is a prefix of the ledger after any later point |
| ThresholdModel.RunCausal | src/main/java/org/example/engine/Strategy.java:44-72 | no decision looks ahead: a run on the first m points reaches the state the whole run has after m points, and its ledger is a prefix of the whole run's ledger |
| ThresholdModel.StepTracks | src/main/java/org/example/engine/Strategy.java:49-68 | one data point keeps the fields in agreement with the ledger |
| ThresholdModel.ShapeAppend | src/main/java/org/example/engine/Strategy.java:54-63 | appending a buy while flat, or the matching sell while holding, keeps the alternation of the ledger |
| ThresholdModel.WalkTracks | src/main/java/org/example/engine/Strategy.java:45-69 | the whole loop keeps the fields in agreement with the ledger |
| ThresholdModel.RunLedger | src/main/java/org/example/engine/Strategy.java:44-72 | a fresh run's ledger alternates BUY and SELL starting with BUY; buys are one affordable unit at or below the threshold with profit 0; sells are at or above the threshold with profit over the matching buy; totalProfit is the sum of the sell profits; the balance identity holds; the run is holding iff the ledger ends with a BUY |
| ThresholdModel.LedgerAlternates | src/main/java/org/example/engine/Strategy.java:45-69 | in a well-formed ledger the buys sit at even and the sells at odd positions |
| ThresholdModel.BalanceNonNegative | src/main/java/org/example/engine/Strategy.java:49-53 | with a non-negative start and non-negative prices the balance never becomes negative |
| ThresholdModel.EndsHolding | src/main/java/org/example/engine/Strategy.java:44-72 | there is no forced liquidation: a run whose last point triggers a buy ends holding, with a BUY last |
| ThresholdModel.ThresholdScenario | src/main/java/org/example/engine/Strategy.java:44-69 | prices 10,9,8,11,12 with thresholds 9/11 and 100 to start buy at 9 and sell at 11, ending flat at 102 with profit 2 |
| ThresholdEngine.Strategy.constructor | src/main/java/org/example/engine/Strategy.java:32-37 | the thresholds are the parameters and the fields are Start(initialBalance) |
| ThresholdEngine.Strategy.Run | src/main/java/org/example/engine/Strategy.java:44-72 | the new fields are RunFrom of the old ones, and the balance identity is preserved |

## Left out

- Reading the CSV input (`CsvReader`), writing the ledger to a file (`TradeHistoryWriter`), the wiring in `BacktestRunner` and `Main`: I/O with no decision logic.
- Console output: the `printf`/`println` calls, `printTradeSummary` and the `toString` methods.
- `getTradeHistory`: a plain accessor; the ledger is the `tradeHistory` field of the class.
- The Sharpe ratio (`MovingAverageStrategy.java:134`): it uses a square root and is undefined when `maxDrawdown == 0`.
- IEEE-754 rounding: prices and balances are exact reals, and `totalWins`/`totalLosses` are natural-number counts rather than doubles.
- MovingAverageEngine.MovingAverageStrategy.Run: requires every closing price to be positive. A zero price at an entry would make the source divide by zero (an infinite position size). The requirement also excludes inputs the source processes without that fault: negative prices, and zero prices during the warm-up or on bars where no entry is tried. Prices are taken to be positive market quotes, and the IEEE-754 infinities and NaNs a zero or negative price can produce are outside this model.
- MovingAverageEngine.MovingAverageStrategy.Run: requires a flat, sound strategy with both periods at least 1. Every run ends flat, so flatness holds after construction and after every run. The source accepts other periods, with results the model does not represent:
  - `shortPeriod == 0`: every average is `0.0 / 0`, so the short series is all NaN.
  - A negative `shortPeriod`: the window loop at `MovingAverageStrategy.java:120` runs zero times, and line 123 stores `0.0 / shortPeriod`, a series of -0.0.
  - `longPeriod < 0`: the walk starts at index `longPeriod` and reads `marketData.get(i)` at a negative index, which throws, even on an empty series.
  - `longPeriod == 0`: on a non-empty series the first iteration reads `shortSMA.get(-1)`, which throws; on an empty series the loop runs no iteration and nothing is read.
- MovingAverageEngine.MovingAverageStrategy.constructor: requires both periods at least 1, although the Java constructor (`MovingAverageStrategy.java:26-35`) accepts any `int`; the reasons are the ones listed for `Run`.
- MovingAverageModel.Summarize: the total return is `None` when the initial balance is 0, where the source produces NaN or infinity.
- Stop-loss and take-profit exits during the holding period: the source does not perform them.
