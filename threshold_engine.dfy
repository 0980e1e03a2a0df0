/**
 * The threshold strategy as the source has it: an object whose run loop
 * updates its fields in place and appends to its trade history, proved to
 * compute what ThresholdModel specifies.
 */
module ThresholdEngine {
  import opened Market
  import opened ThresholdModel

  class Strategy {
    const buyThreshold: real
    const sellThreshold: real
    var hasPosition: bool
    var buyPrice: real
    var tradeHistory: seq<Trade>

    var balance: real
    var initialBalance: real
    var totalProfit: real

    /** The fixed thresholds. */
    function Limits(): (t: Thresholds)
    {
      Thresholds(buyThreshold, sellThreshold)
    }

    /** The mutable fields as one value. */
    function State(): (s: ThState)
      reads this
    {
      ThState(hasPosition, buyPrice, tradeHistory, balance, initialBalance, totalProfit)
    }

    constructor (buyThreshold: real, sellThreshold: real, initialBalance: real)
      ensures Limits() == Thresholds(buyThreshold, sellThreshold)
      ensures State() == Start(initialBalance)
      ensures Balanced(State())
    {
      this.buyThreshold := buyThreshold;
      this.sellThreshold := sellThreshold;
      this.initialBalance := initialBalance;
      this.balance := initialBalance;
      hasPosition := false;
      buyPrice := 0.0;
      tradeHistory := [];
      totalProfit := 0.0;
    }

    /** Visit every data point once, buying one unit or selling it as the thresholds allow; a position open at the end stays open. */
    method Run(marketDataPoints: seq<MarketDataPoint>)
      modifies this
      ensures State() == RunFrom(Limits(), old(State()), marketDataPoints)
      ensures Balanced(old(State())) ==> Balanced(State())
    {
      ghost var s0 := State();
      for n := 0 to |marketDataPoints|
        invariant State() == Walk(Limits(), s0, marketDataPoints, n)
      {
        var marketDataPoint := marketDataPoints[n];
        var price := marketDataPoint.closePrice;
        var date := marketDataPoint.date;

        if !hasPosition && price <= buyThreshold && balance >= price {
          buyPrice := price;
          hasPosition := true;
          balance := balance - buyPrice;
          tradeHistory := tradeHistory + [Trade(Buy, date, price, 0.0, balance, 0.0, 0.0, 0.0)];
        } else if hasPosition && price >= sellThreshold {
          var profit := price - buyPrice;
          totalProfit := totalProfit + profit;
          balance := balance + price;
          tradeHistory := tradeHistory + [Trade(Sell, date, price, profit, balance, 0.0, 0.0, 0.0)];
          hasPosition := false;
          buyPrice := 0.0;
        }
      }
    }
  }
}
