/**
 * The moving-average crossover strategy as values: the SMA series, one loop
 * step (entry, then exit), the walk over the series, the end-of-run
 * liquidation and the performance summary. The class in MovingAverageEngine
 * is proved to compute exactly these.
 */
module MovingAverageModel {
  import opened Market

  /** The constructor's fixed parameters. */
  datatype Settings = Settings(
    shortPeriod: int,
    longPeriod: int,
    riskPerTrade: real,
    stopLossPercent: real,
    takeProfitPercent: real)

  /** Both SMA windows hold at least one price; the walk then never reads index -1. */
  predicate ValidSettings(c: Settings)
  {
    c.shortPeriod >= 1 && c.longPeriod >= 1
  }

  /** The strategy's mutable fields. totalWins and totalLosses are counts (the source keeps them in doubles). */
  datatype MaState = MaState(
    hasPosition: bool,
    buyPrice: real,
    positionSize: real,
    history: seq<Trade>,
    balance: real,
    initialBalance: real,
    totalWins: nat,
    totalLosses: nat,
    maxDrawdown: real,
    peakBalance: real,
    cumulativeReturn: real,
    totalTrades: nat)

  /** The state a freshly constructed strategy holds; peakBalance starts at 0, not at the balance. */
  function Start(initialBalance: real): (s: MaState)
    ensures !s.hasPosition && s.history == [] && s.balance == s.initialBalance == initialBalance
  {
    MaState(false, 0.0, 0.0, [], initialBalance, initialBalance, 0, 0, 0.0, 0.0, 0.0, 0)
  }

  /** Every closing price is strictly positive, so position sizing never divides by zero. */
  predicate Positive(data: seq<MarketDataPoint>)
  {
    forall k :: 0 <= k < |data| ==> data[k].closePrice > 0.0
  }

  /**
   * What every reachable state satisfies: an open position has a positive
   * size and was paid for out of a non-negative balance, the drawdown is a
   * fraction in [0, 1), every closed trade is either a win or a loss, and the
   * cumulative return was never touched.
   */
  predicate Sound(s: MaState)
  {
    (s.hasPosition ==> s.positionSize > 0.0 && s.balance >= 0.0) &&
    0.0 <= s.maxDrawdown < 1.0 &&
    s.totalWins + s.totalLosses == s.totalTrades &&
    s.cumulativeReturn == 0.0
  }

  /** The simple moving average series: 0.0 until the window is full, then the mean of the last `period` prices. */
  function Sma(prices: seq<real>, period: int): (r: seq<real>)
    requires period >= 1
    ensures |r| == |prices|
  {
    seq(|prices|, i requires 0 <= i < |prices| =>
      if i < period - 1 then 0.0 else Sum(prices[i - period + 1 .. i + 1]) / (period as real))
  }

  /** A moving average lies between the lowest and the highest price of its window. */
  lemma SmaWithinWindow(prices: seq<real>, period: int, i: int, lo: real, hi: real)
    requires period >= 1 && period - 1 <= i < |prices|
    requires forall k :: i - period + 1 <= k <= i ==> lo <= prices[k] <= hi
    ensures lo <= Sma(prices, period)[i] <= hi
  {
    var w := prices[i - period + 1 .. i + 1];
    assert |w| == period;
    SumBounds(w, lo, hi);
    MeanBounds(Sum(w), period as real, lo, hi);
    assert Sma(prices, period)[i] == Sum(w) / (period as real);
  }

  /** A total between n*lo and n*hi, divided by a positive n, lies between lo and hi. */
  lemma MeanBounds(total: real, n: real, lo: real, hi: real)
    requires n > 0.0 && n * lo <= total <= n * hi
    ensures lo <= total / n <= hi
  {
    assert total / n * n == total;
  }

  /** Before the long window is full the walk never starts, and once it has started no sentinel is read when shortPeriod <= longPeriod. */
  lemma CrossoverReadsOnlyFullWindows(c: Settings, prices: seq<real>, i: int)
    requires ValidSettings(c) && c.shortPeriod <= c.longPeriod && c.longPeriod <= i < |prices|
    ensures Sma(prices, c.shortPeriod)[i - 1] == Sum(prices[i - c.shortPeriod .. i]) / (c.shortPeriod as real)
    ensures Sma(prices, c.longPeriod)[i - 1] == Sum(prices[i - c.longPeriod .. i]) / (c.longPeriod as real)
  {
  }

  // ----- The source's formulas, named once -----

  /** The capital an entry risks: the balance times the risk fraction. */
  function RiskBudget(balance: real, risk: real): (capital: real)
  {
    balance * risk
  }

  /** The number of units `amount` buys at `price`. */
  function UnitsFor(amount: real, price: real): (units: real)
    requires price != 0.0
  {
    amount / price
  }

  /** What `size` units are worth at `price`. */
  function ValueOf(size: real, price: real): (value: real)
  {
    size * price
  }

  /** The stop-loss level `percent` below an entry price. */
  function StopLossLevel(price: real, percent: real): (level: real)
  {
    price * (1.0 - percent)
  }

  /** The take-profit level, measured from the stop-loss level rather than from the entry price. */
  function TakeProfitLevel(stopLoss: real, percent: real): (level: real)
  {
    stopLoss * (1.0 + percent)
  }

  /** The fall from the peak to the balance, as a fraction of the peak. */
  function DrawdownOf(peak: real, balance: real): (fraction: real)
    requires peak != 0.0
  {
    (peak - balance) / peak
  }

  /**
   * A bullish-cross entry at `price`: size the position from the risk budget,
   * then buy only if the size is positive and the budget fits in the balance.
   * The size is written even when the entry is rejected.
   */
  function Enter(c: Settings, s: MaState, price: real, date: string): (r: MaState)
    requires Sound(s) && !s.hasPosition && price > 0.0
    ensures Sound(r) && r.initialBalance == s.initialBalance
  {
    var capital := RiskBudget(s.balance, c.riskPerTrade);
    var size := UnitsFor(capital, price);
    if size > 0.0 && capital <= s.balance then
      var bal := s.balance - capital;
      var stopLoss := StopLossLevel(price, c.stopLossPercent);
      var takeProfit := TakeProfitLevel(stopLoss, c.takeProfitPercent);
      s.(positionSize := size, buyPrice := price, hasPosition := true, balance := bal,
         history := s.history + [Trade(Buy, date, price, 0.0, bal, size, stopLoss, takeProfit)])
    else
      s.(positionSize := size)
  }

  /**
   * What an entry does: it is accepted exactly when the balance is positive
   * and the risk fraction lies in (0, 1]; a rejected entry changes only the
   * position size; an accepted one pays exactly size times price out of the
   * balance and appends one "BUY" record with that size, price and date.
   */
  lemma EnterEffect(c: Settings, s: MaState, price: real, date: string)
    requires Sound(s) && !s.hasPosition && price > 0.0
    ensures var r := Enter(c, s, price, date);
      && (r.hasPosition <==> s.balance > 0.0 && 0.0 < c.riskPerTrade <= 1.0)
      && (!r.hasPosition ==> r == s.(positionSize := r.positionSize))
      && (r.hasPosition ==>
            && r.balance + r.positionSize * price == s.balance
            && r.history == s.history + [r.history[|s.history|]]
            && EntryRecord(c, s.balance, r.history[|s.history|])
            && r.history[|s.history|].date == date
            && r.history[|s.history|].price == price
            && r.history[|s.history|].balanceAfter == r.balance
            && r.history[|s.history|].positionSize == r.positionSize
            && r == s.(hasPosition := true, buyPrice := price, positionSize := r.positionSize,
                       balance := r.balance, history := r.history))
  {
    EntryGuard(s.balance, c.riskPerTrade, price);
    CostOfPosition(s.balance * c.riskPerTrade, price);
  }

  /** Buying capital/price units at price costs exactly the capital. */
  lemma CostOfPosition(capital: real, price: real)
    requires price != 0.0
    ensures capital / price * price == capital
  {
  }

  /** With a positive price the entry guard accepts exactly when the balance is positive and the risk fraction lies in (0, 1]. */
  lemma EntryGuard(balance: real, risk: real, price: real)
    requires price > 0.0
    ensures (balance * risk / price > 0.0 && balance * risk <= balance) <==> (balance > 0.0 && 0.0 < risk <= 1.0)
  {
    var capital := balance * risk;
    assert capital / price > 0.0 <==> capital > 0.0 by {
      assert price * (capital / price) == capital;
      ProductSign(price, capital / price);
    }
    if balance > 0.0 {
      ProductSign(balance, risk);
      assert balance - capital == balance * (1.0 - risk);
      ProductSign(balance, 1.0 - risk);
    }
  }

  /**
   * A bearish-cross exit at `price`: sell the whole position, record the
   * profit, count a win or a loss, update the peak and the maximum drawdown,
   * and clear the position.
   */
  function Exit(s: MaState, price: real, date: string): (r: MaState)
    requires Sound(s) && s.hasPosition && price > 0.0
    ensures Sound(r) && !r.hasPosition && r.initialBalance == s.initialBalance
  {
    var sellValue := ValueOf(s.positionSize, price);
    var profit := sellValue - ValueOf(s.positionSize, s.buyPrice);
    var bal := s.balance + sellValue;
    ProductSign(s.positionSize, price);
    var sold := s.(balance := bal, hasPosition := false,
                   history := s.history + [Trade(Sell, date, price, profit, bal, s.positionSize, 0.0, 0.0)],
                   totalWins := if profit > 0.0 then s.totalWins + 1 else s.totalWins,
                   totalLosses := if profit > 0.0 then s.totalLosses else s.totalLosses + 1,
                   totalTrades := s.totalTrades + 1);
    RecordDrawdown(sold).(buyPrice := 0.0, positionSize := 0.0)
  }

  /**
   * The drawdown bookkeeping after a sale: the peak rises to the balance when
   * the balance is higher, and the maximum drawdown becomes the current fall
   * from the peak when that is larger. With a positive balance the result is
   * a fraction in [0, 1) that never falls, and nothing else changes.
   */
  function RecordDrawdown(s: MaState): (r: MaState)
    requires s.balance > 0.0 && 0.0 <= s.maxDrawdown < 1.0
    ensures r == s.(peakBalance := r.peakBalance, maxDrawdown := r.maxDrawdown)
    ensures r.peakBalance >= r.balance && r.peakBalance >= s.peakBalance
    ensures r.peakBalance == (if s.balance > s.peakBalance then s.balance else s.peakBalance)
    ensures r.maxDrawdown >= DrawdownOf(r.peakBalance, r.balance)
    ensures s.maxDrawdown <= r.maxDrawdown < 1.0
    ensures r.maxDrawdown == s.maxDrawdown || r.maxDrawdown == DrawdownOf(r.peakBalance, r.balance)
  {
    var peak := if s.balance > s.peakBalance then s.balance else s.peakBalance;
    var drawdown := DrawdownOf(peak, s.balance);
    DrawdownFraction(peak, s.balance);
    s.(peakBalance := peak, maxDrawdown := if drawdown > s.maxDrawdown then drawdown else s.maxDrawdown)
  }

  /**
   * What an exit does: the balance grows by size times price and stays
   * positive, the position is cleared, the peak is at least the new balance,
   * the maximum drawdown never falls, one more trade is counted and it is a
   * win exactly when the price rose above the buy price, and one "SELL"
   * record carrying the profit is appended.
   */
  lemma ExitEffect(s: MaState, price: real, date: string)
    requires Sound(s) && s.hasPosition && price > 0.0
    ensures var r := Exit(s, price, date);
      && r.balance == s.balance + s.positionSize * price > 0.0
      && r.buyPrice == 0.0 && r.positionSize == 0.0
      && r.peakBalance >= r.balance
      && s.maxDrawdown <= r.maxDrawdown
      && r.totalTrades == s.totalTrades + 1
      && r.totalWins == s.totalWins + (if price > s.buyPrice then 1 else 0)
      && r.history == s.history + [Trade(Sell, date, price, s.positionSize * price - s.positionSize * s.buyPrice,
                                         r.balance, s.positionSize, 0.0, 0.0)]
  {
    var r := Exit(s, price, date);
    ProductSign(s.positionSize, price);
    ProductSign(s.positionSize, price - s.buyPrice);
    assert s.positionSize * price - s.positionSize * s.buyPrice == s.positionSize * (price - s.buyPrice);
    assert r.history[|s.history|] == Trade(Sell, date, price, s.positionSize * price - s.positionSize * s.buyPrice,
                                          r.balance, s.positionSize, 0.0, 0.0);
  }

  /** A product with a positive factor is positive exactly when the other factor is. */
  lemma ProductSign(a: real, b: real)
    requires a > 0.0
    ensures a * b > 0.0 <==> b > 0.0
    ensures a * b < 0.0 <==> b < 0.0
  {
  }

  /** The drawdown from a peak at or above a positive balance is a fraction in [0, 1). */
  lemma DrawdownFraction(peak: real, balance: real)
    requires 0.0 < balance <= peak
    ensures 0.0 <= DrawdownOf(peak, balance) < 1.0
    ensures DrawdownOf(peak, balance) * peak == peak - balance
  {
    assert (peak - balance) / peak * peak == peak - balance;
  }

  /** One iteration of the walk at index i: a possible entry, then a possible exit, both judged on the previous and the current averages. */
  function Step(c: Settings, s: MaState, data: seq<MarketDataPoint>, ss: seq<real>, ls: seq<real>, i: int): (r: MaState)
    requires Sound(s) && 1 <= i < |data| && |ss| == |data| && |ls| == |data| && data[i].closePrice > 0.0
    ensures Sound(r) && r.initialBalance == s.initialBalance
  {
    var price := data[i].closePrice;
    var date := data[i].date;
    var entered := if !s.hasPosition && ss[i - 1] < ls[i - 1] && ss[i] > ls[i] then Enter(c, s, price, date) else s;
    if entered.hasPosition && ss[i - 1] > ls[i - 1] && ss[i] < ls[i] then Exit(entered, price, date) else entered
  }

  /**
   * One iteration appends at most one record, never lowers the maximum
   * drawdown, and an entry and an exit never happen on the same bar: the two
   * guards need opposite orders of the previous averages.
   */
  lemma StepEffect(c: Settings, s: MaState, data: seq<MarketDataPoint>, ss: seq<real>, ls: seq<real>, i: int)
    requires Sound(s) && 1 <= i < |data| && |ss| == |data| && |ls| == |data| && data[i].closePrice > 0.0
    ensures var r := Step(c, s, data, ss, ls, i);
      && s.history <= r.history && |r.history| <= |s.history| + 1
      && s.maxDrawdown <= r.maxDrawdown
      && (!s.hasPosition && r.history != s.history ==> r.hasPosition && ss[i - 1] < ls[i - 1] && ss[i] > ls[i])
      && (s.hasPosition && r.history != s.history ==> !r.hasPosition && ss[i - 1] > ls[i - 1] && ss[i] < ls[i])
  {
    var price := data[i].closePrice;
    var date := data[i].date;
    if !s.hasPosition && ss[i - 1] < ls[i - 1] && ss[i] > ls[i] {
      EnterEffect(c, s, price, date);
    } else if s.hasPosition && ss[i - 1] > ls[i - 1] && ss[i] < ls[i] {
      ExitEffect(s, price, date);
    }
  }
  /**
   * When one iteration trades. From flat it buys exactly on a bullish cross
   * with a positive balance and a risk fraction in (0, 1]; while holding it
   * sells exactly on a bearish cross. A trade appends one record of that
   * kind at the bar's date and price and flips the position.
   */
  lemma StepTradesOnSignal(c: Settings, s: MaState, data: seq<MarketDataPoint>, ss: seq<real>, ls: seq<real>, i: int)
    requires Sound(s) && 1 <= i < |data| && |ss| == |data| && |ls| == |data| && data[i].closePrice > 0.0
    ensures var r := Step(c, s, data, ss, ls, i);
      && (!s.hasPosition ==>
            (r.history != s.history <==>
               ss[i - 1] < ls[i - 1] && ss[i] > ls[i] && s.balance > 0.0 && 0.0 < c.riskPerTrade <= 1.0))
      && (s.hasPosition ==> (r.history != s.history <==> ss[i - 1] > ls[i - 1] && ss[i] < ls[i]))
      && (r.history != s.history ==>
            && |r.history| == |s.history| + 1
            && r.hasPosition == !s.hasPosition
            && r.history[|s.history|].kind == (if s.hasPosition then Sell else Buy)
            && r.history[|s.history|].date == data[i].date
            && r.history[|s.history|].price == data[i].closePrice)
  {
    var price := data[i].closePrice;
    var date := data[i].date;
    if !s.hasPosition && ss[i - 1] < ls[i - 1] && ss[i] > ls[i] {
      EnterEffect(c, s, price, date);
    } else if s.hasPosition && ss[i - 1] > ls[i - 1] && ss[i] < ls[i] {
      ExitEffect(s, price, date);
    }
  }


  /** The state after the loop has handled indices longPeriod .. n-1, starting from s. */
  function WalkTo(c: Settings, s: MaState, data: seq<MarketDataPoint>, ss: seq<real>, ls: seq<real>, n: int): (r: MaState)
    requires ValidSettings(c) && Sound(s) && Positive(data)
    requires |ss| == |data| && |ls| == |data| && n <= |data|
    ensures Sound(r) && r.initialBalance == s.initialBalance
    decreases n
  {
    if n <= c.longPeriod then s
    else Step(c, WalkTo(c, s, data, ss, ls, n - 1), data, ss, ls, n - 1)
  }

  /** The walk only appends to the ledger, never lowers the maximum drawdown, and does nothing before index longPeriod. */
  lemma {:induction false} WalkGrows(c: Settings, s: MaState, data: seq<MarketDataPoint>, ss: seq<real>, ls: seq<real>, n: int)
    requires ValidSettings(c) && Sound(s) && Positive(data)
    requires |ss| == |data| && |ls| == |data| && n <= |data|
    ensures var r := WalkTo(c, s, data, ss, ls, n);
      && s.history <= r.history
      && s.maxDrawdown <= r.maxDrawdown
      && (n <= c.longPeriod ==> r == s)
    decreases n
  {
    if n > c.longPeriod {
      WalkGrows(c, s, data, ss, ls, n - 1);
      StepEffect(c, WalkTo(c, s, data, ss, ls, n - 1), data, ss, ls, n - 1);
    }
  }
  /** The walk only appends: the ledger after m bars is a prefix of the ledger after n >= m bars. */
  lemma {:induction false} WalkPrefix(c: Settings, s: MaState, data: seq<MarketDataPoint>, ss: seq<real>, ls: seq<real>, m: int, n: int)
    requires ValidSettings(c) && Sound(s) && Positive(data)
    requires |ss| == |data| && |ls| == |data| && m <= n <= |data|
    ensures WalkTo(c, s, data, ss, ls, m).history <= WalkTo(c, s, data, ss, ls, n).history
    decreases n
  {
    if n > m && n > c.longPeriod {
      WalkPrefix(c, s, data, ss, ls, m, n - 1);
      StepEffect(c, WalkTo(c, s, data, ss, ls, n - 1), data, ss, ls, n - 1);
    }
  }

  /** An average at index i reads no price after i: the averages of a prefix are the prefix of the averages. */
  lemma SmaPrefix(prices: seq<real>, period: int, m: int)
    requires period >= 1 && 0 <= m <= |prices|
    ensures Sma(prices[..m], period) == Sma(prices, period)[..m]
  {
    forall i | 0 <= i < m
      ensures Sma(prices[..m], period)[i] == Sma(prices, period)[i]
    {
      if i >= period - 1 {
        assert prices[..m][i - period + 1 .. i + 1] == prices[i - period + 1 .. i + 1];
      }
    }
  }

  /** The walk to n reads only the first n points and averages: inputs that agree there reach the same state. */
  lemma {:induction false} WalkReadsPrefix(c: Settings, s: MaState, d1: seq<MarketDataPoint>, ss1: seq<real>, ls1: seq<real>,
                                           d2: seq<MarketDataPoint>, ss2: seq<real>, ls2: seq<real>, n: int)
    requires ValidSettings(c) && Sound(s) && Positive(d1) && Positive(d2)
    requires |ss1| == |d1| && |ls1| == |d1| && |ss2| == |d2| && |ls2| == |d2|
    requires 0 <= n <= |d1| && n <= |d2|
    requires d1[..n] == d2[..n] && ss1[..n] == ss2[..n] && ls1[..n] == ls2[..n]
    ensures WalkTo(c, s, d1, ss1, ls1, n) == WalkTo(c, s, d2, ss2, ls2, n)
    decreases n
  {
    if n > c.longPeriod {
      var i := n - 1;
      assert d1[..i] == d1[..n][..i] && d2[..i] == d2[..n][..i];
      assert ss1[..i] == ss1[..n][..i] && ss2[..i] == ss2[..n][..i];
      assert ls1[..i] == ls1[..n][..i] && ls2[..i] == ls2[..n][..i];
      WalkReadsPrefix(c, s, d1, ss1, ls1, d2, ss2, ls2, i);
      assert d1[i] == d1[..n][i] == d2[i];
      assert ss1[i] == ss1[..n][i] == ss2[i] && ss1[i - 1] == ss1[..n][i - 1] == ss2[i - 1];
      assert ls1[i] == ls1[..n][i] == ls2[i] && ls1[i - 1] == ls1[..n][i - 1] == ls2[i - 1];
    }
  }

  /** Truncating a series keeps every closing price positive. */
  lemma PositivePrefix(data: seq<MarketDataPoint>, m: int)
    requires Positive(data) && 0 <= m <= |data|
    ensures Positive(data[..m])
  {
    assert forall k :: 0 <= k < m ==> data[..m][k] == data[k];
  }


  /** After the loop: if a position is still open, sell it at the last price ("FINAL SELL"). */
  function Liquidate(s: MaState, data: seq<MarketDataPoint>): (r: MaState)
    requires Sound(s) && Positive(data) && (s.hasPosition ==> |data| > 0)
    ensures Sound(r) && !r.hasPosition
    ensures !s.hasPosition ==> r == s
    ensures s.hasPosition ==>
      && r.balance == s.balance + ValueOf(s.positionSize, data[|data| - 1].closePrice)
      && r.history == s.history + [Trade(FinalSell, data[|data| - 1].date, data[|data| - 1].closePrice,
                                         ValueOf(s.positionSize, data[|data| - 1].closePrice) - ValueOf(s.positionSize, s.buyPrice),
                                         r.balance, s.positionSize, 0.0, 0.0)]
      && r == s.(hasPosition := false, balance := r.balance, history := r.history)
  {
    if s.hasPosition then
      var last := data[|data| - 1];
      var sellValue := ValueOf(s.positionSize, last.closePrice);
      var profit := sellValue - ValueOf(s.positionSize, s.buyPrice);
      var bal := s.balance + sellValue;
      s.(balance := bal, hasPosition := false,
         history := s.history + [Trade(FinalSell, last.date, last.closePrice, profit, bal, s.positionSize, 0.0, 0.0)])
    else s
  }

  /** A whole run from a flat state: both SMA series, the walk from longPeriod, then the liquidation. */
  function RunFrom(c: Settings, s: MaState, data: seq<MarketDataPoint>): (r: MaState)
    requires ValidSettings(c) && Sound(s) && !s.hasPosition && Positive(data)
    ensures Sound(r) && !r.hasPosition && r.initialBalance == s.initialBalance
  {
    var prices := Prices(data);
    var walked := WalkTo(c, s, data, Sma(prices, c.shortPeriod), Sma(prices, c.longPeriod), |data|);
    Liquidate(walked, data)
  }

  /** A run keeps every record it started with and never lowers the maximum drawdown. */
  lemma RunExtendsHistory(c: Settings, s: MaState, data: seq<MarketDataPoint>)
    requires ValidSettings(c) && Sound(s) && !s.hasPosition && Positive(data)
    ensures s.history <= RunFrom(c, s, data).history
    ensures s.maxDrawdown <= RunFrom(c, s, data).maxDrawdown
  {
    var prices := Prices(data);
    WalkGrows(c, s, data, Sma(prices, c.shortPeriod), Sma(prices, c.longPeriod), |data|);
  }
  /**
   * No decision looks ahead. Walking the first m bars of a series on its own
   * reaches the same state as the first m bars of the whole series, and that
   * state's ledger is a prefix of the whole run's ledger. A run on the
   * truncated series writes the same ledger, plus at most its closing
   * "FINAL SELL".
   */
  lemma RunCausal(c: Settings, s: MaState, data: seq<MarketDataPoint>, m: int)
    requires ValidSettings(c) && Sound(s) && !s.hasPosition && Positive(data) && 0 <= m <= |data|
    ensures Positive(data[..m])
    ensures var d := data[..m];
      var w := WalkTo(c, s, d, Sma(Prices(d), c.shortPeriod), Sma(Prices(d), c.longPeriod), m);
      var h := RunFrom(c, s, d).history;
      && w == WalkTo(c, s, data, Sma(Prices(data), c.shortPeriod), Sma(Prices(data), c.longPeriod), m)
      && w.history <= RunFrom(c, s, data).history
      && (h == w.history || (h == w.history + [h[|h| - 1]] && h[|h| - 1].kind == FinalSell))
  {
    PositivePrefix(data, m);
    var d := data[..m];
    var prices := Prices(data);
    assert Prices(d) == prices[..m];
    SmaPrefix(prices, c.shortPeriod, m);
    SmaPrefix(prices, c.longPeriod, m);
    var ss, ls := Sma(prices, c.shortPeriod), Sma(prices, c.longPeriod);
    assert d[..m] == data[..m];
    WalkReadsPrefix(c, s, d, Sma(Prices(d), c.shortPeriod), Sma(Prices(d), c.longPeriod), data, ss, ls, m);
    WalkPrefix(c, s, data, ss, ls, m, |data|);
  }


  /** A series no longer than longPeriod is never walked: no trade is recorded and nothing changes. */
  lemma WarmUpNoTrades(c: Settings, s: MaState, data: seq<MarketDataPoint>)
    requires ValidSettings(c) && Sound(s) && !s.hasPosition && Positive(data)
    requires |data| <= c.longPeriod
    ensures RunFrom(c, s, data) == s
  {
  }

  /** The summary the source prints. totalReturn is None where the source divides by a zero initial balance. */
  datatype PerformanceSummary = PerformanceSummary(
    totalReturn: Option<real>,
    finalBalance: real,
    totalTrades: nat,
    winRate: real,
    avgProfitLoss: real,
    maxDrawdown: real,
    profitFactor: real)

  /** The performance metrics of a state (the Sharpe line is not part of this model). */
  function Summarize(s: MaState): (m: PerformanceSummary)
    ensures m.finalBalance == s.balance && m.totalTrades == s.totalTrades && m.maxDrawdown == s.maxDrawdown
    ensures m.totalReturn.Some? <==> s.initialBalance != 0.0
    ensures s.totalTrades == 0 ==> m.winRate == 0.0 && m.avgProfitLoss == 0.0
    ensures s.totalLosses == 0 ==> m.profitFactor == 0.0
  {
    PerformanceSummary(
      if s.initialBalance == 0.0 then None
      else Some((s.balance - s.initialBalance) / s.initialBalance * 100.0),
      s.balance,
      s.totalTrades,
      if s.totalTrades > 0 then (s.totalWins as real / s.totalTrades as real) * 100.0 else 0.0,
      if s.totalTrades > 0 then s.cumulativeReturn / s.totalTrades as real else 0.0,
      s.maxDrawdown,
      if s.totalLosses > 0 then s.totalWins as real / s.totalLosses as real else 0.0)
  }

  /**
   * On every reachable state the metrics are defined and bounded: the win rate
   * is a percentage (0 with no closed trade), the average profit is always 0
   * because the cumulative return is never updated, the drawdown is a
   * fraction, and the profit factor is a non-negative ratio of counts (0 with
   * no loss).
   */
  lemma SummaryBounds(s: MaState)
    requires Sound(s)
    ensures var m := Summarize(s);
      && 0.0 <= m.winRate <= 100.0
      && (s.totalTrades == 0 ==> m.winRate == 0.0)
      && (s.totalTrades > 0 ==> m.winRate * (s.totalTrades as real) == s.totalWins as real * 100.0)
      && (m.totalReturn.Some? ==> m.totalReturn.value * s.initialBalance == (s.balance - s.initialBalance) * 100.0)
      && m.avgProfitLoss == 0.0
      && 0.0 <= m.maxDrawdown < 1.0
      && m.profitFactor >= 0.0
      && (s.totalLosses == 0 ==> m.profitFactor == 0.0)
      && (s.totalLosses > 0 ==> m.profitFactor * (s.totalLosses as real) == s.totalWins as real)
      && (m.totalReturn.Some? <==> s.initialBalance != 0.0)
  {
    if s.totalTrades > 0 {
      var w := s.totalWins as real;
      var t := s.totalTrades as real;
      assert 0.0 <= w <= t;
      assert w / t * t == w;
      assert w / t <= 1.0;
    }
    if s.totalLosses > 0 {
      var w := s.totalWins as real;
      var l := s.totalLosses as real;
      assert w / l * l == w;
    }
  }

  // ----- The ledger a run writes -----

  /** A "BUY" record as the crossover strategy writes it, given the balance before it. */
  predicate EntryRecord(c: Settings, before: real, t: Trade)
  {
    && t.kind == Buy
    && t.profit == 0.0
    && t.price > 0.0
    && t.positionSize > 0.0
    && t.balanceAfter == before - RiskBudget(before, c.riskPerTrade)
    && t.positionSize == UnitsFor(RiskBudget(before, c.riskPerTrade), t.price)
    && t.stopLoss == StopLossLevel(t.price, c.stopLossPercent)
    && t.takeProfit == TakeProfitLevel(t.stopLoss, c.takeProfitPercent)
  }

  /** An exit record that closes the position opened by entry e: same size, credited at the exit price. */
  predicate ClosesEntry(e: Trade, x: Trade)
  {
    && (x.kind == Sell || x.kind == FinalSell)
    && x.positionSize == e.positionSize
    && x.profit == ValueOf(x.positionSize, x.price) - ValueOf(x.positionSize, e.price)
    && x.balanceAfter == e.balanceAfter + ValueOf(x.positionSize, x.price)
    && x.stopLoss == 0.0
    && x.takeProfit == 0.0
  }

  /** Entries at even indices, each closed by the exit that follows it. */
  predicate LedgerShape(c: Settings, opening: real, h: seq<Trade>)
  {
    && (forall k :: 0 <= k < |h| && Even(k) ==> EntryRecord(c, BalanceBefore(opening, h, k), h[k]))
    && (forall k :: 0 < k < |h| && !Even(k) ==> ClosesEntry(h[k - 1], h[k]))
  }

  /** The peak balance read off a ledger: the highest balance a "SELL" record left, or 0 before the first one. */
  function PeakOf(h: seq<Trade>): (peak: real)
  {
    if h == [] then 0.0
    else
      var p := PeakOf(h[..|h| - 1]);
      var t := h[|h| - 1];
      if t.kind == Sell && t.balanceAfter > p then t.balanceAfter else p
  }

  /**
   * The maximum drawdown read off a ledger: at each "SELL" record, the fall
   * of its balance from the peak up to and including it, as a fraction of
   * that peak; the largest such fall, or 0 before the first one.
   */
  function MaxDrawdownOf(h: seq<Trade>): (fraction: real)
  {
    if h == [] then 0.0
    else
      var m := MaxDrawdownOf(h[..|h| - 1]);
      var t := h[|h| - 1];
      var peak := PeakOf(h);
      if t.kind == Sell && peak != 0.0 && DrawdownOf(peak, t.balanceAfter) > m then DrawdownOf(peak, t.balanceAfter) else m
  }

  /** Appending a record moves the peak and the maximum drawdown only when it is a "SELL". */
  lemma DrawdownAppend(h: seq<Trade>, t: Trade)
    ensures t.kind != Sell ==> PeakOf(h + [t]) == PeakOf(h) && MaxDrawdownOf(h + [t]) == MaxDrawdownOf(h)
    ensures t.kind == Sell ==>
      && PeakOf(h + [t]) == (if t.balanceAfter > PeakOf(h) then t.balanceAfter else PeakOf(h))
      && (PeakOf(h + [t]) != 0.0 && DrawdownOf(PeakOf(h + [t]), t.balanceAfter) > MaxDrawdownOf(h) ==>
            MaxDrawdownOf(h + [t]) == DrawdownOf(PeakOf(h + [t]), t.balanceAfter))
      && (PeakOf(h + [t]) != 0.0 && DrawdownOf(PeakOf(h + [t]), t.balanceAfter) <= MaxDrawdownOf(h) ==>
            MaxDrawdownOf(h + [t]) == MaxDrawdownOf(h))
  {
    assert (h + [t])[..|h|] == h;
  }

  /** PeakOf is a maximum over the "SELL" records: no sale left a balance above it, and it is 0 or the balance some sale left. */
  lemma {:induction false} PeakIsLargest(h: seq<Trade>)
    ensures forall k :: 0 <= k < |h| && h[k].kind == Sell ==> h[k].balanceAfter <= PeakOf(h)
    ensures PeakOf(h) == 0.0 || exists k :: 0 <= k < |h| && h[k].kind == Sell && h[k].balanceAfter == PeakOf(h)
  {
    if h != [] {
      var n := |h| - 1;
      var h0 := h[..n];
      PeakIsLargest(h0);
      forall k | 0 <= k < n
        ensures h[k] == h0[k]
      {
      }
      if PeakOf(h) != PeakOf(h0) {
        assert h[n].kind == Sell && h[n].balanceAfter == PeakOf(h);
      }
    }
  }

  /**
   * MaxDrawdownOf is a maximum over the "SELL" records: no sale fell further
   * below the peak up to and including it, and it is 0 or the fall of some sale.
   */
  lemma {:induction false} DrawdownIsLargest(h: seq<Trade>)
    ensures forall k :: 0 <= k < |h| && h[k].kind == Sell && PeakOf(h[..k + 1]) != 0.0 ==>
      DrawdownOf(PeakOf(h[..k + 1]), h[k].balanceAfter) <= MaxDrawdownOf(h)
    ensures MaxDrawdownOf(h) == 0.0 ||
      exists k :: 0 <= k < |h| && h[k].kind == Sell && PeakOf(h[..k + 1]) != 0.0 &&
        DrawdownOf(PeakOf(h[..k + 1]), h[k].balanceAfter) == MaxDrawdownOf(h)
  {
    if h != [] {
      var n := |h| - 1;
      var h0 := h[..n];
      DrawdownIsLargest(h0);
      assert h[..n + 1] == h;
      forall k | 0 <= k < n
        ensures h[k] == h0[k] && h[..k + 1] == h0[..k + 1]
      {
      }
      if MaxDrawdownOf(h) != MaxDrawdownOf(h0) {
        assert h[n].kind == Sell && PeakOf(h) != 0.0 && DrawdownOf(PeakOf(h), h[n].balanceAfter) == MaxDrawdownOf(h);
      }
    }
  }

  /** During the walk the fields agree with the ledger written so far. */
  predicate Tracks(c: Settings, s: MaState)
  {
    var h := s.history;
    && LedgerShape(c, s.initialBalance, h)
    && (forall k :: 0 <= k < |h| ==> h[k].kind != FinalSell)
    && (s.hasPosition <==> !Even(|h|))
    && (s.hasPosition ==> s.buyPrice == h[|h| - 1].price && s.positionSize == h[|h| - 1].positionSize)
    && s.balance == BalanceBefore(s.initialBalance, h, |h|)
    && s.totalTrades == Sells(h)
    && s.totalWins == Wins(h)
    && s.peakBalance == PeakOf(h)
    && s.maxDrawdown == MaxDrawdownOf(h)
  }

  lemma {:induction false} StepTracks(c: Settings, s: MaState, data: seq<MarketDataPoint>, ss: seq<real>, ls: seq<real>, i: int)
    requires Sound(s) && 1 <= i < |data| && |ss| == |data| && |ls| == |data| && data[i].closePrice > 0.0
    requires Tracks(c, s)
    ensures Tracks(c, Step(c, s, data, ss, ls, i))
  {
    var price := data[i].closePrice;
    var date := data[i].date;
    var h := s.history;
    var entered := if !s.hasPosition && ss[i - 1] < ls[i - 1] && ss[i] > ls[i] then Enter(c, s, price, date) else s;
    if entered != s {
      EnterTracks(c, s, price, date);
    }
    assert Tracks(c, entered);
    if entered.hasPosition && ss[i - 1] > ls[i - 1] && ss[i] < ls[i] {
      ExitTracks(c, entered, price, date);
    }
  }

  /** Appending a record that fits its position keeps the ledger's shape. */
  lemma ShapeAppend(c: Settings, opening: real, h: seq<Trade>, t: Trade)
    requires LedgerShape(c, opening, h)
    requires Even(|h|) ==> EntryRecord(c, BalanceBefore(opening, h, |h|), t)
    requires !Even(|h|) ==> ClosesEntry(h[|h| - 1], t)
    ensures LedgerShape(c, opening, h + [t])
  {
    var h' := h + [t];
    forall k | 0 <= k < |h'| && Even(k)
      ensures EntryRecord(c, BalanceBefore(opening, h', k), h'[k])
    {
      if k < |h| {
        assert h'[k] == h[k];
        assert BalanceBefore(opening, h', k) == BalanceBefore(opening, h, k);
      }
    }
    forall k | 0 < k < |h'| && !Even(k)
      ensures ClosesEntry(h'[k - 1], h'[k])
    {
      if k < |h| {
        assert h'[k] == h[k] && h'[k - 1] == h[k - 1];
      }
    }
  }

  lemma EnterTracks(c: Settings, s: MaState, price: real, date: string)
    requires Sound(s) && !s.hasPosition && price > 0.0 && Tracks(c, s)
    ensures Tracks(c, Enter(c, s, price, date))
  {
    var r := Enter(c, s, price, date);
    EnterEffect(c, s, price, date);
    if r.hasPosition {
      var h := s.history;
      var t := r.history[|h|];
      LedgerCountsAppend(h, t);
      DrawdownAppend(h, t);
      ShapeAppend(c, s.initialBalance, h, t);
    }
  }

  lemma ExitTracks(c: Settings, s: MaState, price: real, date: string)
    requires Sound(s) && s.hasPosition && price > 0.0 && Tracks(c, s)
    ensures Tracks(c, Exit(s, price, date))
  {
    var r := Exit(s, price, date);
    ExitEffect(s, price, date);
    var h := s.history;
    var t := r.history[|h|];
    assert r.history == h + [t];
    LedgerCountsAppend(h, t);
    DrawdownAppend(h, t);
    assert ClosesEntry(h[|h| - 1], t);
    ShapeAppend(c, s.initialBalance, h, t);
  }

  lemma {:induction false} WalkTracks(c: Settings, s: MaState, data: seq<MarketDataPoint>, ss: seq<real>, ls: seq<real>, n: int)
    requires ValidSettings(c) && Sound(s) && Positive(data)
    requires |ss| == |data| && |ls| == |data| && n <= |data|
    requires Tracks(c, s)
    ensures Tracks(c, WalkTo(c, s, data, ss, ls, n))
    decreases n
  {
    if n > c.longPeriod {
      WalkTracks(c, s, data, ss, ls, n - 1);
      StepTracks(c, WalkTo(c, s, data, ss, ls, n - 1), data, ss, ls, n - 1);
    }
  }

  /**
   * The ledger of a run from a fresh strategy: entries and exits alternate,
   * starting with an entry and ending flat; each entry debits exactly the risk
   * budget and records its stop-loss and take-profit levels; each exit sells
   * the same size and credits the exit value, so its balance is the balance
   * before the entry minus the capital plus size times exit price; a
   * "FINAL SELL" can only be the last record, at the last price and date; the
   * balance is the one the last record left; and the counters agree with the
   * "SELL" records.
   */
  lemma {:induction false} RunLedger(c: Settings, initialBalance: real, data: seq<MarketDataPoint>)
    requires ValidSettings(c) && Positive(data)
    ensures var r := RunFrom(c, Start(initialBalance), data);
      var h := r.history;
      && LedgerShape(c, initialBalance, h)
      && Even(|h|)
      && (forall k :: 0 <= k < |h| - 1 ==> h[k].kind != FinalSell)
      && (|h| > 0 && h[|h| - 1].kind == FinalSell ==>
            h[|h| - 1].date == data[|data| - 1].date && h[|h| - 1].price == data[|data| - 1].closePrice)
      && r.balance == BalanceBefore(initialBalance, h, |h|)
      && r.totalTrades == Sells(h)
      && r.totalWins == Wins(h)
      && r.totalLosses == Sells(h) - Wins(h)
      && r.peakBalance == PeakOf(h)
      && r.maxDrawdown == MaxDrawdownOf(h)
  {
    var s := Start(initialBalance);
    var prices := Prices(data);
    var ss, ls := Sma(prices, c.shortPeriod), Sma(prices, c.longPeriod);
    WalkTracks(c, s, data, ss, ls, |data|);
    var w := WalkTo(c, s, data, ss, ls, |data|);
    assert RunFrom(c, s, data) == Liquidate(w, data);
    LiquidateLedger(c, w, data);
  }

  /** Liquidating a state that agrees with its ledger closes the open entry, if any, with a "FINAL SELL" at the last price. */
  lemma LiquidateLedger(c: Settings, w: MaState, data: seq<MarketDataPoint>)
    requires Sound(w) && Positive(data) && (w.hasPosition ==> |data| > 0) && Tracks(c, w)
    ensures var r := Liquidate(w, data);
      var h := r.history;
      && LedgerShape(c, w.initialBalance, h)
      && Even(|h|)
      && (forall k :: 0 <= k < |h| - 1 ==> h[k].kind != FinalSell)
      && (|h| > 0 && h[|h| - 1].kind == FinalSell ==>
            h[|h| - 1].date == data[|data| - 1].date && h[|h| - 1].price == data[|data| - 1].closePrice)
      && r.balance == BalanceBefore(w.initialBalance, h, |h|)
      && r.totalTrades == Sells(h)
      && r.totalWins == Wins(h)
      && r.totalLosses == Sells(h) - Wins(h)
      && r.peakBalance == PeakOf(h)
      && r.maxDrawdown == MaxDrawdownOf(h)
  {
    var r := Liquidate(w, data);
    var h := w.history;
    WinsAtMostSells(h);
    if w.hasPosition {
      var t := r.history[|h|];
      assert r.history == h + [t];
      LedgerCountsAppend(h, t);
      DrawdownAppend(h, t);
      assert ClosesEntry(h[|h| - 1], t);
      ShapeAppend(c, w.initialBalance, h, t);
    }
  }

  /** The metrics of a fresh run read off its ledger: trades are "SELL" records, the win rate is the share of them with a positive profit. */
  lemma RunSummary(c: Settings, initialBalance: real, data: seq<MarketDataPoint>)
    requires ValidSettings(c) && Positive(data)
    ensures var r := RunFrom(c, Start(initialBalance), data);
      var m := Summarize(r);
      && m.totalTrades == Sells(r.history)
      && (Sells(r.history) > 0 ==> m.winRate == Wins(r.history) as real / Sells(r.history) as real * 100.0)
      && (Sells(r.history) == Wins(r.history) ==> m.profitFactor == 0.0)
      && m.finalBalance == BalanceBefore(initialBalance, r.history, |r.history|)
  {
    RunLedger(c, initialBalance, data);
  }

  /**
   * The maximum drawdown a fresh run reports is the largest fall of a "SELL"
   * record's balance below the peak up to that record: no sale fell further,
   * and it is 0 or the fall of some sale. "BUY" and "FINAL SELL" records never
   * move it.
   */
  lemma RunMaxDrawdown(c: Settings, initialBalance: real, data: seq<MarketDataPoint>)
    requires ValidSettings(c) && Positive(data)
    ensures var r := RunFrom(c, Start(initialBalance), data);
      var h := r.history;
      var m := Summarize(r).maxDrawdown;
      && (forall k :: 0 <= k < |h| && h[k].kind == Sell && PeakOf(h[..k + 1]) != 0.0 ==>
            DrawdownOf(PeakOf(h[..k + 1]), h[k].balanceAfter) <= m)
      && (m == 0.0 ||
          exists k :: 0 <= k < |h| && h[k].kind == Sell && PeakOf(h[..k + 1]) != 0.0 &&
            DrawdownOf(PeakOf(h[..k + 1]), h[k].balanceAfter) == m)
  {
    RunLedger(c, initialBalance, data);
    DrawdownIsLargest(RunFrom(c, Start(initialBalance), data).history);
  }

  /**
   * Entry and exit balances of one round trip: an exit credits the entry's
   * size at the exit price to what the entry left, so it ends at the balance
   * before the entry, less the capital invested, plus size times exit price.
   */
  lemma RoundTripBalance(c: Settings, opening: real, h: seq<Trade>, k: int)
    requires LedgerShape(c, opening, h) && 0 < k < |h| && !Even(k)
    ensures Even(k - 1)
    ensures h[k].balanceAfter
            == BalanceBefore(opening, h, k - 1) - BalanceBefore(opening, h, k - 1) * c.riskPerTrade
               + h[k].positionSize * h[k].price
    ensures h[k].profit == h[k].positionSize * (h[k].price - h[k - 1].price)
  {
    assert Even(k - 1);
  }

  lemma SumOfTwo(a: real, b: real)
    ensures Sum([a, b]) == a + b
  {
    assert [a, b][..1] == [a];
    assert Sum([a]) == a by {
      assert [a][..0] == [];
    }
  }

  lemma SumOfThree(a: real, b: real, c: real)
    ensures Sum([a, b, c]) == a + b + c
  {
    assert [a, b, c][..2] == [a, b];
    SumOfTwo(a, b);
  }

  /**
   * Prices 1, 1, 1, 2, 3, 1 with periods 2 and 3: at index 2 both averages
   * equal 1, so the strict "short below long" test fails and no bullish cross
   * is ever seen; the run records no trade and leaves the state as it was.
   */
  lemma CrossoverScenario(risk: real, stopLoss: real, takeProfit: real, initialBalance: real)
    ensures var data := [MarketDataPoint("d0", 1.0), MarketDataPoint("d1", 1.0), MarketDataPoint("d2", 1.0),
                         MarketDataPoint("d3", 2.0), MarketDataPoint("d4", 3.0), MarketDataPoint("d5", 1.0)];
      RunFrom(Settings(2, 3, risk, stopLoss, takeProfit), Start(initialBalance), data) == Start(initialBalance)
  {
    var c := Settings(2, 3, risk, stopLoss, takeProfit);
    var data := [MarketDataPoint("d0", 1.0), MarketDataPoint("d1", 1.0), MarketDataPoint("d2", 1.0),
                 MarketDataPoint("d3", 2.0), MarketDataPoint("d4", 3.0), MarketDataPoint("d5", 1.0)];
    var prices := Prices(data);
    assert prices[0] == 1.0 && prices[1] == 1.0 && prices[2] == 1.0;
    assert prices[3] == 2.0 && prices[4] == 3.0 && prices[5] == 1.0;
    assert Positive(data);
    var ss, ls := Sma(prices, 2), Sma(prices, 3);
    assert prices[1..3] == [1.0, 1.0];
    assert prices[2..4] == [1.0, 2.0];
    assert prices[3..5] == [2.0, 3.0];
    assert prices[4..6] == [3.0, 1.0];
    assert prices[0..3] == [1.0, 1.0, 1.0];
    assert prices[1..4] == [1.0, 1.0, 2.0];
    assert prices[2..5] == [1.0, 2.0, 3.0];
    assert prices[3..6] == [2.0, 3.0, 1.0];
    SumOfTwo(1.0, 1.0); SumOfTwo(1.0, 2.0); SumOfTwo(2.0, 3.0); SumOfTwo(3.0, 1.0);
    SumOfThree(1.0, 1.0, 1.0); SumOfThree(1.0, 1.0, 2.0); SumOfThree(1.0, 2.0, 3.0); SumOfThree(2.0, 3.0, 1.0);
    assert ss[2] == 1.0 && ss[3] == 1.5 && ss[4] == 2.5 && ss[5] == 2.0;
    assert ls[2] == 1.0 && ls[3] == 4.0 / 3.0 && ls[4] == 2.0 && ls[5] == 2.0;
    var s := Start(initialBalance);
    assert WalkTo(c, s, data, ss, ls, 3) == s;
    assert WalkTo(c, s, data, ss, ls, 4) == s;
    assert WalkTo(c, s, data, ss, ls, 5) == s;
    assert WalkTo(c, s, data, ss, ls, 6) == s;
  }
}
