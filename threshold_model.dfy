/**
 * The threshold strategy as values: one step per data point (buy one unit at
 * or below the buy threshold, else sell at or above the sell threshold), the
 * walk over the series, and the facts about the ledger and the balance that
 * every run keeps.
 */
module ThresholdModel {
  import opened Market

  /** The two constructor thresholds. */
  datatype Thresholds = Thresholds(buyThreshold: real, sellThreshold: real)

  /** The strategy's mutable fields. */
  datatype ThState = ThState(
    hasPosition: bool,
    buyPrice: real,
    history: seq<Trade>,
    balance: real,
    initialBalance: real,
    totalProfit: real)

  /** The state a freshly constructed strategy holds. */
  function Start(initialBalance: real): (s: ThState)
    ensures !s.hasPosition && s.history == [] && s.balance == s.initialBalance == initialBalance && s.totalProfit == 0.0
  {
    ThState(false, 0.0, [], initialBalance, initialBalance, 0.0)
  }

  /**
   * The account identity the strategy keeps: cash is the opening balance
   * plus the realised profit, less the price of the unit held; no unit held
   * means no buy price.
   */
  predicate Balanced(s: ThState)
  {
    && s.balance == s.initialBalance + s.totalProfit - (if s.hasPosition then s.buyPrice else 0.0)
    && (!s.hasPosition ==> s.buyPrice == 0.0)
  }

  /** One loop iteration: a buy when flat, at or below the buy threshold and affordable; otherwise a sell when holding at or above the sell threshold. */
  function Step(t: Thresholds, s: ThState, p: MarketDataPoint): (r: ThState)
    ensures s.history <= r.history && |r.history| <= |s.history| + 1
    ensures r.initialBalance == s.initialBalance
    ensures Balanced(s) ==> Balanced(r)
    ensures r.history != s.history ==> r.hasPosition != s.hasPosition
  {
    var price := p.closePrice;
    if !s.hasPosition && price <= t.buyThreshold && s.balance >= price then
      var bal := s.balance - price;
      s.(buyPrice := price, hasPosition := true, balance := bal,
         history := s.history + [Trade(Buy, p.date, price, 0.0, bal, 0.0, 0.0, 0.0)])
    else if s.hasPosition && price >= t.sellThreshold then
      var profit := price - s.buyPrice;
      var bal := s.balance + price;
      s.(totalProfit := s.totalProfit + profit, balance := bal,
         history := s.history + [Trade(Sell, p.date, price, profit, bal, 0.0, 0.0, 0.0)],
         hasPosition := false, buyPrice := 0.0)
    else
      s
  }

  /**
   * When one data point trades. From flat it buys exactly when the price is
   * at or below the buy threshold and the balance covers it; while holding
   * it sells exactly when the price is at or above the sell threshold. A
   * trade appends one record at the point's date and price, carrying the
   * profit over the buy price on a sell, and moves the price between cash
   * and position.
   */
  lemma StepTradesOnSignal(t: Thresholds, s: ThState, p: MarketDataPoint)
    ensures var r := Step(t, s, p);
      && (!s.hasPosition ==> (r.history != s.history <==> p.closePrice <= t.buyThreshold && s.balance >= p.closePrice))
      && (s.hasPosition ==> (r.history != s.history <==> p.closePrice >= t.sellThreshold))
      && (r.history != s.history ==>
            && r.hasPosition == !s.hasPosition
            && r.balance == (if s.hasPosition then s.balance + p.closePrice else s.balance - p.closePrice)
            && r.history == s.history + [Trade(if s.hasPosition then Sell else Buy, p.date, p.closePrice,
                                               if s.hasPosition then p.closePrice - s.buyPrice else 0.0,
                                               r.balance, 0.0, 0.0, 0.0)])
  {
  }

  /** The state after the first n data points, starting from s. */
  function Walk(t: Thresholds, s: ThState, data: seq<MarketDataPoint>, n: nat): (r: ThState)
    requires n <= |data|
    ensures s.history <= r.history && |r.history| <= |s.history| + n
    ensures r.initialBalance == s.initialBalance
    ensures Balanced(s) ==> Balanced(r)
  {
    if n == 0 then s else Step(t, Walk(t, s, data, n - 1), data[n - 1])
  }

  /** A whole run: every data point once, in order, and no liquidation at the end. */
  function RunFrom(t: Thresholds, s: ThState, data: seq<MarketDataPoint>): (r: ThState)
    ensures s.history <= r.history && |r.history| <= |s.history| + |data|
    ensures r.initialBalance == s.initialBalance
    ensures Balanced(s) ==> Balanced(r)
  {
    Walk(t, s, data, |data|)
  }

  /** The walk to n reads only the first n points: a truncated series at least n long reaches the same state. */
  lemma {:induction false} WalkReadsPrefix(t: Thresholds, s: ThState, data: seq<MarketDataPoint>, m: nat, n: nat)
    requires n <= m <= |data|
    ensures Walk(t, s, data[..m], n) == Walk(t, s, data, n)
  {
    if n > 0 {
      WalkReadsPrefix(t, s, data, m, n - 1);
      assert data[..m][n - 1] == data[n - 1];
    }
  }

  /** The walk only appends: the ledger after m points is a prefix of the ledger after n >= m points. */
  lemma {:induction false} WalkPrefix(t: Thresholds, s: ThState, data: seq<MarketDataPoint>, m: nat, n: nat)
    requires m <= n <= |data|
    ensures Walk(t, s, data, m).history <= Walk(t, s, data, n).history
  {
    if n > m {
      WalkPrefix(t, s, data, m, n - 1);
    }
  }

  /**
   * No decision looks ahead: a run on the first m points reaches the state
   * the whole run has after m points, and its ledger is a prefix of the
   * whole run's ledger.
   */
  lemma RunCausal(t: Thresholds, s: ThState, data: seq<MarketDataPoint>, m: nat)
    requires m <= |data|
    ensures RunFrom(t, s, data[..m]) == Walk(t, s, data, m)
    ensures RunFrom(t, s, data[..m]).history <= RunFrom(t, s, data).history
  {
    WalkReadsPrefix(t, s, data, m, m);
    WalkPrefix(t, s, data, m, |data|);
  }

  // ----- The ledger a run writes -----

  /** A "BUY" record: one unit at or below the threshold, paid out of a balance that covered it. */
  predicate BuyRecord(t: Thresholds, before: real, r: Trade)
  {
    && r.kind == Buy
    && r.profit == 0.0
    && r.price <= t.buyThreshold
    && before >= r.price
    && r.balanceAfter == before - r.price
  }

  /** A "SELL" record closing the buy b: at or above the threshold, profit over the buy price, price credited. */
  predicate SellRecord(t: Thresholds, b: Trade, r: Trade)
  {
    && r.kind == Sell
    && r.price >= t.sellThreshold
    && r.profit == r.price - b.price
    && r.balanceAfter == b.balanceAfter + r.price
  }

  /** Buys at even indices, each followed by the sell that closes it. */
  predicate LedgerShape(t: Thresholds, opening: real, h: seq<Trade>)
  {
    && (forall k :: 0 <= k < |h| && Even(k) ==> BuyRecord(t, BalanceBefore(opening, h, k), h[k]))
    && (forall k :: 0 < k < |h| && !Even(k) ==> SellRecord(t, h[k - 1], h[k]))
  }

  /** The fields agree with the ledger written since the strategy was built. */
  predicate Tracks(t: Thresholds, s: ThState)
  {
    var h := s.history;
    && LedgerShape(t, s.initialBalance, h)
    && (s.hasPosition <==> !Even(|h|))
    && (s.hasPosition ==> s.buyPrice == h[|h| - 1].price)
    && s.balance == BalanceBefore(s.initialBalance, h, |h|)
    && s.totalProfit == SellProfits(h)
  }

  /** Appending a record that fits its position keeps the ledger's shape. */
  lemma ShapeAppend(t: Thresholds, opening: real, h: seq<Trade>, r: Trade)
    requires LedgerShape(t, opening, h)
    requires Even(|h|) ==> BuyRecord(t, BalanceBefore(opening, h, |h|), r)
    requires !Even(|h|) ==> SellRecord(t, h[|h| - 1], r)
    ensures LedgerShape(t, opening, h + [r])
  {
    var h' := h + [r];
    forall k | 0 <= k < |h'| && Even(k)
      ensures BuyRecord(t, BalanceBefore(opening, h', k), h'[k])
    {
      if k < |h| {
        assert h'[k] == h[k];
        assert BalanceBefore(opening, h', k) == BalanceBefore(opening, h, k);
      }
    }
    forall k | 0 < k < |h'| && !Even(k)
      ensures SellRecord(t, h'[k - 1], h'[k])
    {
      if k < |h| {
        assert h'[k] == h[k] && h'[k - 1] == h[k - 1];
      }
    }
  }

  lemma StepTracks(t: Thresholds, s: ThState, p: MarketDataPoint)
    requires Tracks(t, s)
    ensures Tracks(t, Step(t, s, p))
  {
    var r := Step(t, s, p);
    var h := s.history;
    if r.history != h {
      var rec := r.history[|h|];
      assert r.history == h + [rec];
      LedgerCountsAppend(h, rec);
      ShapeAppend(t, s.initialBalance, h, rec);
    }
  }

  lemma {:induction false} WalkTracks(t: Thresholds, s: ThState, data: seq<MarketDataPoint>, n: nat)
    requires n <= |data| && Tracks(t, s)
    ensures Tracks(t, Walk(t, s, data, n))
  {
    if n > 0 {
      WalkTracks(t, s, data, n - 1);
      StepTracks(t, Walk(t, s, data, n - 1), data[n - 1]);
    }
  }

  /**
   * The ledger of a run from a fresh strategy: buys and sells alternate,
   * starting with a buy; each buy is of one unit at or below the buy
   * threshold and affordable, each sell at or above the sell threshold with
   * profit over the matching buy price; the total profit is the sum of the
   * recorded sell profits; the balance is the one the last record left and
   * equals the opening balance plus the total profit less an open unit's
   * price; and a position is open exactly when the ledger ends with a buy.
   */
  lemma RunLedger(t: Thresholds, initialBalance: real, data: seq<MarketDataPoint>)
    ensures var r := RunFrom(t, Start(initialBalance), data);
      var h := r.history;
      && LedgerShape(t, initialBalance, h)
      && |h| <= |data|
      && r.totalProfit == SellProfits(h)
      && r.balance == BalanceBefore(initialBalance, h, |h|)
      && r.balance == initialBalance + r.totalProfit - (if r.hasPosition then r.buyPrice else 0.0)
      && (r.hasPosition <==> |h| > 0 && h[|h| - 1].kind == Buy)
  {
    var s := Start(initialBalance);
    WalkTracks(t, s, data, |data|);
    var r := RunFrom(t, s, data);
    var h := r.history;
    LedgerAlternates(t, initialBalance, h);
    if |h| > 0 {
      assert Even(|h|) <==> !Even(|h| - 1);
    }
  }

  /** Every record's kind follows from its position in the ledger: buys at even, sells at odd indices. */
  lemma LedgerAlternates(t: Thresholds, opening: real, h: seq<Trade>)
    requires LedgerShape(t, opening, h)
    ensures forall k :: 0 <= k < |h| ==> (h[k].kind == Buy <==> Even(k))
  {
    forall k | 0 <= k < |h|
      ensures h[k].kind == Buy <==> Even(k)
    {
      if !Even(k) {
        assert k != 0;
      }
    }
  }

  /** With a non-negative opening balance and non-negative prices the balance never becomes negative. */
  lemma {:induction false} BalanceNonNegative(t: Thresholds, s: ThState, data: seq<MarketDataPoint>, n: nat)
    requires n <= |data| && s.balance >= 0.0
    requires forall k :: 0 <= k < |data| ==> data[k].closePrice >= 0.0
    ensures Walk(t, s, data, n).balance >= 0.0
  {
    if n > 0 {
      BalanceNonNegative(t, s, data, n - 1);
    }
  }

  /** No forced liquidation: a run whose last point triggers a buy ends holding, with a "BUY" as its last record. */
  lemma EndsHolding(t: Thresholds, s: ThState, data: seq<MarketDataPoint>)
    requires |data| > 0
    requires !Walk(t, s, data, |data| - 1).hasPosition
    requires data[|data| - 1].closePrice <= t.buyThreshold
    requires Walk(t, s, data, |data| - 1).balance >= data[|data| - 1].closePrice
    ensures RunFrom(t, s, data).hasPosition
    ensures RunFrom(t, s, data).history[|RunFrom(t, s, data).history| - 1].kind == Buy
  {
  }

  /**
   * The series 10, 9, 8, 11, 12 with thresholds 9 and 11 and 100 to start:
   * the buy triggers at 9 (the first price at or below the threshold) for one
   * unit, the sell at 11, and the run ends flat at 102 with profit 2.
   */
  lemma ThresholdScenario()
    ensures var data := [MarketDataPoint("d1", 10.0), MarketDataPoint("d2", 9.0), MarketDataPoint("d3", 8.0),
                         MarketDataPoint("d4", 11.0), MarketDataPoint("d5", 12.0)];
      var r := RunFrom(Thresholds(9.0, 11.0), Start(100.0), data);
      && r.history == [Trade(Buy, "d2", 9.0, 0.0, 91.0, 0.0, 0.0, 0.0), Trade(Sell, "d4", 11.0, 2.0, 102.0, 0.0, 0.0, 0.0)]
      && r.balance == 102.0 && r.totalProfit == 2.0 && !r.hasPosition
  {
    var t := Thresholds(9.0, 11.0);
    var data := [MarketDataPoint("d1", 10.0), MarketDataPoint("d2", 9.0), MarketDataPoint("d3", 8.0),
                 MarketDataPoint("d4", 11.0), MarketDataPoint("d5", 12.0)];
    var s := Start(100.0);
    assert Walk(t, s, data, 1) == s;
    assert Walk(t, s, data, 2).history == [Trade(Buy, "d2", 9.0, 0.0, 91.0, 0.0, 0.0, 0.0)];
    assert Walk(t, s, data, 3) == Walk(t, s, data, 2);
    assert Walk(t, s, data, 4).balance == 102.0;
  }
}
