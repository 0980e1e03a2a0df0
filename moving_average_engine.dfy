/**
 * The moving-average crossover strategy as the source has it: an object whose
 * run loop updates its fields in place and appends to its trade history. Each
 * method is proved to compute what MovingAverageModel specifies.
 */
module MovingAverageEngine {
  import opened Market
  import opened MovingAverageModel

  class MovingAverageStrategy {
    const shortPeriod: int
    const longPeriod: int
    const riskPerTrade: real
    const stopLossPercent: real
    const takeProfitPercent: real

    var hasPosition: bool
    var buyPrice: real
    var positionSize: real
    var tradeHistory: seq<Trade>
    var balance: real
    var initialBalance: real

    var totalWins: nat
    var totalLosses: nat
    var maxDrawdown: real
    var peakBalance: real
    var cumulativeReturn: real
    var totalTrades: nat

    /** The fixed parameters. */
    function Parameters(): (c: Settings)
    {
      Settings(shortPeriod, longPeriod, riskPerTrade, stopLossPercent, takeProfitPercent)
    }

    /** The mutable fields as one value. */
    function State(): (s: MaState)
      reads this
    {
      MaState(hasPosition, buyPrice, positionSize, tradeHistory, balance, initialBalance,
              totalWins, totalLosses, maxDrawdown, peakBalance, cumulativeReturn, totalTrades)
    }

    /** Between runs the strategy holds no position and its fields are sound. */
    ghost predicate Valid()
      reads this
    {
      ValidSettings(Parameters()) && Sound(State()) && !hasPosition
    }

    constructor (shortPeriod: int, longPeriod: int, initialBalance: real,
                 riskPerTrade: real, stopLossPercent: real, takeProfitPercent: real)
      requires shortPeriod >= 1 && longPeriod >= 1
      ensures Valid()
      ensures Parameters() == Settings(shortPeriod, longPeriod, riskPerTrade, stopLossPercent, takeProfitPercent)
      ensures State() == Start(initialBalance)
    {
      this.shortPeriod := shortPeriod;
      this.longPeriod := longPeriod;
      this.initialBalance := initialBalance;
      this.balance := initialBalance;
      this.riskPerTrade := riskPerTrade;
      this.stopLossPercent := stopLossPercent;
      this.takeProfitPercent := takeProfitPercent;
      hasPosition := false;
      buyPrice := 0.0;
      positionSize := 0.0;
      tradeHistory := [];
      totalWins := 0;
      totalLosses := 0;
      maxDrawdown := 0.0;
      peakBalance := 0.0;
      cumulativeReturn := 0.0;
      totalTrades := 0;
    }

    /**
     * Walk the series from index longPeriod, entering on a bullish and
     * exiting on a bearish crossover, then sell any open position at the last
     * price and compute the performance summary.
     */
    method Run(marketData: seq<MarketDataPoint>) returns (summary: PerformanceSummary)
      requires Valid() && Positive(marketData)
      modifies this
      ensures Valid()
      ensures State() == RunFrom(Parameters(), old(State()), marketData)
      ensures summary == Summarize(State())
    {
      var shortSma := CalculateSma(marketData, shortPeriod);
      var longSma := CalculateSma(marketData, longPeriod);
      ghost var c := Parameters();
      ghost var s0 := State();

      WalkSeries(marketData, shortSma, longSma);
      ghost var walked := State();

      if hasPosition {
        SellAtEnd(marketData);
      }
      assert State() == RunFrom(c, s0, marketData) by {
        assert State() == Liquidate(walked, marketData);
      }

      summary := CalculatePerformanceMetrics();
    }

    /** The loop of a run: one pass at every index from longPeriod to the end of the series. */
    method WalkSeries(marketData: seq<MarketDataPoint>, shortSma: seq<real>, longSma: seq<real>)
      requires ValidSettings(Parameters()) && Sound(State()) && Positive(marketData)
      requires |shortSma| == |marketData| && |longSma| == |marketData|
      modifies this
      ensures State() == WalkTo(Parameters(), old(State()), marketData, shortSma, longSma, |marketData|)
    {
      ghost var c := Parameters();
      ghost var s0 := State();
      var i := longPeriod;
      while i < |marketData|
        invariant longPeriod <= i && (i <= |marketData| || i == longPeriod)
        invariant State() == WalkTo(c, s0, marketData, shortSma, longSma, if i <= |marketData| then i else |marketData|)
      {
        ProcessBar(marketData, shortSma, longSma, i);
        i := i + 1;
      }
    }

    /**
     * One pass of the loop at index i: enter on a bullish crossover (the short
     * average moves from below the long one to above it), then exit on a
     * bearish one.
     */
    method ProcessBar(marketData: seq<MarketDataPoint>, shortSma: seq<real>, longSma: seq<real>, i: int)
      requires Sound(State()) && 1 <= i < |marketData| && marketData[i].closePrice > 0.0
      requires |shortSma| == |marketData| && |longSma| == |marketData|
      modifies this
      ensures State() == Step(Parameters(), old(State()), marketData, shortSma, longSma, i)
    {
      var price := marketData[i].closePrice;
      var date := marketData[i].date;
      var shortMA := shortSma[i];
      var longMA := longSma[i];

      if !hasPosition && shortSma[i - 1] < longSma[i - 1] && shortMA > longMA {
        OpenPosition(price, date);
      }
      if hasPosition && shortSma[i - 1] > longSma[i - 1] && shortMA < longMA {
        ClosePosition(price, date);
      }
    }

    /**
     * The entry branch of the loop: size the position from the risk budget and
     * buy when the size is positive and the budget fits in the balance,
     * recording the stop-loss and take-profit levels.
     */
    method OpenPosition(price: real, date: string)
      requires Sound(State()) && !hasPosition && price > 0.0
      modifies this
      ensures State() == Enter(Parameters(), old(State()), price, date)
    {
      ghost var s := State();
      var capitalToInvest := RiskBudget(balance, riskPerTrade);
      positionSize := UnitsFor(capitalToInvest, price);
      if positionSize > 0.0 && capitalToInvest <= balance {
        buyPrice := price;
        hasPosition := true;
        balance := balance - capitalToInvest;
        var stopLossPrice := StopLossLevel(buyPrice, stopLossPercent);
        var takeProfitPrice := TakeProfitLevel(stopLossPrice, takeProfitPercent);
        tradeHistory := tradeHistory + [Trade(Buy, date, price, 0.0, balance, positionSize, stopLossPrice, takeProfitPrice)];
      }
    }

    /**
     * The exit branch of the loop: sell the whole position, count a win or a
     * loss, update the peak balance and the maximum drawdown, clear the position.
     */
    method ClosePosition(price: real, date: string)
      requires Sound(State()) && hasPosition && price > 0.0
      modifies this
      ensures State() == Exit(old(State()), price, date)
    {
      var sellValue := ValueOf(positionSize, price);
      var profit := sellValue - ValueOf(positionSize, buyPrice);
      balance := balance + sellValue;
      hasPosition := false;
      tradeHistory := tradeHistory + [Trade(Sell, date, price, profit, balance, positionSize, 0.0, 0.0)];

      if profit > 0.0 {
        totalWins := totalWins + 1;
      } else {
        totalLosses := totalLosses + 1;
      }
      totalTrades := totalTrades + 1;

      assert balance > 0.0 by {
        ProductSign(old(positionSize), price);
      }
      UpdateDrawdown();

      buyPrice := 0.0;
      positionSize := 0.0;
    }

    /** Raise the peak balance to the balance if it is higher, then keep the larger drawdown. */
    method UpdateDrawdown()
      requires balance > 0.0 && 0.0 <= maxDrawdown < 1.0
      modifies this
      ensures State() == RecordDrawdown(old(State()))
    {
      if balance > peakBalance {
        peakBalance := balance;
      }
      var drawdown := DrawdownOf(peakBalance, balance);
      if drawdown > maxDrawdown {
        maxDrawdown := drawdown;
      }
    }

    /** After the loop: sell a position still open at the last price, as a "FINAL SELL". */
    method SellAtEnd(marketData: seq<MarketDataPoint>)
      requires Sound(State()) && hasPosition && Positive(marketData) && |marketData| > 0
      modifies this
      ensures State() == Liquidate(old(State()), marketData)
    {
      var lastPrice := marketData[|marketData| - 1].closePrice;
      var sellValue := ValueOf(positionSize, lastPrice);
      var profit := sellValue - ValueOf(positionSize, buyPrice);
      balance := balance + sellValue;
      hasPosition := false;
      tradeHistory := tradeHistory + [Trade(FinalSell, marketData[|marketData| - 1].date,
                                            lastPrice, profit, balance, positionSize, 0.0, 0.0)];
    }

    /**
     * The moving average of the closing prices over `period` points, with the
     * window re-summed at every index as the source does.
     */
    method CalculateSma(marketData: seq<MarketDataPoint>, period: int) returns (smaValues: seq<real>)
      requires period >= 1
      ensures smaValues == Sma(Prices(marketData), period)
    {
      ghost var prices := Prices(marketData);
      ghost var sma := Sma(prices, period);
      smaValues := [];
      var i := 0;
      while i < |marketData|
        invariant 0 <= i <= |marketData|
        invariant smaValues == sma[..i]
      {
        if i < period - 1 {
          smaValues := smaValues + [0.0];
        } else {
          var sum := 0.0;
          var j := i - period + 1;
          while j <= i
            invariant i - period + 1 <= j <= i + 1
            invariant sum == Sum(prices[i - period + 1 .. j])
          {
            SumStep(prices, i - period + 1, j);
            sum := sum + marketData[j].closePrice;
            j := j + 1;
          }
          smaValues := smaValues + [sum / (period as real)];
        }
        assert smaValues == sma[..i + 1];
        i := i + 1;
      }
    }

    /**
     * The metrics printed at the end of a run, read from the fields. What they
     * mean is proved about Summarize: its bounds in SummaryBounds, and their
     * relation to a fresh run's ledger in RunSummary and RunMaxDrawdown.
     */
    method CalculatePerformanceMetrics() returns (summary: PerformanceSummary)
      ensures summary == Summarize(State())
    {
      var totalReturn := if initialBalance == 0.0 then None
                         else Some((balance - initialBalance) / initialBalance * 100.0);
      var winRate := if totalTrades > 0 then (totalWins as real / totalTrades as real) * 100.0 else 0.0;
      var avgProfitLoss := if totalTrades > 0 then cumulativeReturn / totalTrades as real else 0.0;
      var profitFactor := if totalLosses > 0 then totalWins as real / totalLosses as real else 0.0;
      summary := PerformanceSummary(totalReturn, balance, totalTrades, winRate, avgProfitLoss, maxDrawdown, profitFactor);
    }
  }
}
