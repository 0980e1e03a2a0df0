/** Values shared by both strategies: the input series and the trade ledger. */
module Market {

  datatype Option<+T> = None | Some(value: T)

  /** One row of the input series: an opaque date key and a closing price. */
  datatype MarketDataPoint = MarketDataPoint(date: string, closePrice: real)

  /** The type tag of a ledger record; the strategies write "BUY", "SELL" and "FINAL SELL". */
  datatype TradeType = Buy | Sell | FinalSell

  /**
   * One ledger record. The threshold strategy passes only the first five
   * values; the last three then stay 0.0.
   */
  datatype Trade = Trade(
    kind: TradeType,
    date: string,
    price: real,
    profit: real,
    balanceAfter: real,
    positionSize: real,
    stopLoss: real,
    takeProfit: real)

  /** The closing prices of a series, in order. */
  function Prices(data: seq<MarketDataPoint>): (r: seq<real>)
    ensures |r| == |data|
  {
    seq(|data|, k requires 0 <= k < |data| => data[k].closePrice)
  }

  /** Sum of a sequence of reals, taken from the back so that a running sum extends it. */
  function Sum(s: seq<real>): (total: real)
  {
    if s == [] then 0.0 else Sum(s[..|s| - 1]) + s[|s| - 1]
  }

  /** Extending a window by the next element adds that element to its sum. */
  lemma SumStep(s: seq<real>, lo: int, hi: int)
    requires 0 <= lo <= hi < |s|
    ensures Sum(s[lo .. hi + 1]) == Sum(s[lo .. hi]) + s[hi]
  {
    assert s[lo .. hi + 1][..hi - lo] == s[lo .. hi];
  }

  /** A sum of values that all lie in [lo, hi] lies in [|s|*lo, |s|*hi]. */
  lemma {:induction false} SumBounds(s: seq<real>, lo: real, hi: real)
    requires forall k :: 0 <= k < |s| ==> lo <= s[k] <= hi
    ensures (|s| as real) * lo <= Sum(s) <= (|s| as real) * hi
  {
    if s != [] {
      SumBounds(s[..|s| - 1], lo, hi);
    }
  }

  /** Parity by counting down, so that the solver unfolds it one step at a time. */
  function Even(n: nat): (even: bool)
  {
    if n == 0 then true else !Even(n - 1)
  }

  /** The balance in force before record k: the opening balance, or the one the previous record left. */
  function BalanceBefore(opening: real, h: seq<Trade>, k: int): (balance: real)
    requires 0 <= k <= |h|
  {
    if k == 0 then opening else h[k - 1].balanceAfter
  }

  /** Number of "SELL" records (a "FINAL SELL" is not one). */
  function Sells(h: seq<Trade>): (count: nat)
  {
    if h == [] then 0 else Sells(h[..|h| - 1]) + (if h[|h| - 1].kind == Sell then 1 else 0)
  }

  /** Number of "SELL" records with a strictly positive profit. */
  function Wins(h: seq<Trade>): (count: nat)
  {
    if h == [] then 0
    else Wins(h[..|h| - 1]) + (if h[|h| - 1].kind == Sell && h[|h| - 1].profit > 0.0 then 1 else 0)
  }

  /** Total profit recorded on "SELL" records. */
  function SellProfits(h: seq<Trade>): (total: real)
  {
    if h == [] then 0.0
    else SellProfits(h[..|h| - 1]) + (if h[|h| - 1].kind == Sell then h[|h| - 1].profit else 0.0)
  }

  /** Appending one record extends each ledger count by that record's own contribution. */
  lemma LedgerCountsAppend(h: seq<Trade>, t: Trade)
    ensures Sells(h + [t]) == Sells(h) + (if t.kind == Sell then 1 else 0)
    ensures Wins(h + [t]) == Wins(h) + (if t.kind == Sell && t.profit > 0.0 then 1 else 0)
    ensures SellProfits(h + [t]) == SellProfits(h) + (if t.kind == Sell then t.profit else 0.0)
    ensures Wins(h) <= Sells(h)
  {
    assert (h + [t])[..|h|] == h;
    WinsAtMostSells(h);
  }

  /** Every winning record is a "SELL" record. */
  lemma {:induction false} WinsAtMostSells(h: seq<Trade>)
    ensures Wins(h) <= Sells(h)
  {
    if h != [] {
      WinsAtMostSells(h[..|h| - 1]);
    }
  }
}
