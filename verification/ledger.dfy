/** Entities shared by the returns engine, the ledger validators and the
    holdings fold: the stock and cash ledger entries, and the ticker-to-shares
    dictionary the source builds with `defaultdict(int)`. */
module Ledger {

  type Ticker = string

  /** A point in time, in seconds since the epoch (UTC). */
  type Instant = int

  /** A calendar date, in days since the epoch. */
  type Day = int

  const SecondsPerDay: int := 86400

  /** The UTC calendar date of an instant (`date_time.date()`). */
  function DayOf(t: Instant): Day
  {
    t / SecondsPerDay
  }

  /** One equity trade of a profile: an entry of `stock_set` as
      `_calc_returns`, `get_portfolio_details` and the sell check read it
      (an action word, a ticker, an instant, a price and an unsigned
      quantity). */
  datatype StockTxn = StockTxn(action: string, ticker: Ticker, time: Instant, price: real, quantity: int)

  /** One deposit or withdrawal of a profile: an entry of `cashbalance_set`
      as `get_portfolio_details` and the withdrawal check read it (an action
      word, an instant and a value). */
  datatype CashTxn = CashTxn(action: string, time: Instant, value: real)

  /** One key/value pair of the shares dictionary. */
  datatype Position = Position(ticker: Ticker, shares: int)

  /** A Python dictionary from ticker to shares, kept in insertion order. */
  type Portfolio = seq<Position>

  /** `portfolio[t]` of a `defaultdict(int)`: 0 for a ticker never touched. */
  function SharesOf(pf: Portfolio, t: Ticker): int
  {
    if pf == [] then 0
    else if pf[0].ticker == t then pf[0].shares
    else SharesOf(pf[1..], t)
  }

  /** The keys of the dictionary. */
  function Tickers(pf: Portfolio): set<Ticker>
  {
    if pf == [] then {} else {pf[0].ticker} + Tickers(pf[1..])
  }

  /** Every key occurs once, as in a dictionary. */
  predicate UniqueTickers(pf: Portfolio)
  {
    pf == [] || (pf[0].ticker !in Tickers(pf[1..]) && UniqueTickers(pf[1..]))
  }

  /** `portfolio[t] += delta`: the entry of `t` is updated in place, or appended
      when `t` is a new key. */
  function AddShares(pf: Portfolio, t: Ticker, delta: int): (r: Portfolio)
    ensures SharesOf(r, t) == SharesOf(pf, t) + delta
    ensures forall u :: u != t ==> SharesOf(r, u) == SharesOf(pf, u)
    ensures Tickers(r) == Tickers(pf) + {t}
    ensures |r| == if t in Tickers(pf) then |pf| else |pf| + 1
    ensures UniqueTickers(pf) ==> UniqueTickers(r)
  {
    if pf == [] then [Position(t, delta)]
    else if pf[0].ticker == t then
      assert ([Position(t, pf[0].shares + delta)] + pf[1..])[1..] == pf[1..];
      [Position(t, pf[0].shares + delta)] + pf[1..]
    else
      var rest := AddShares(pf[1..], t, delta);
      assert ([pf[0]] + rest)[1..] == rest;
      [pf[0]] + rest
  }

  /** With unique keys, each stored pair is what a lookup of its key returns. */
  lemma {:induction false} SharesOfAt(pf: Portfolio, i: nat)
    requires UniqueTickers(pf) && i < |pf|
    ensures SharesOf(pf, pf[i].ticker) == pf[i].shares
  {
    if i > 0 {
      SharesOfAt(pf[1..], i - 1);
      TickerIn(pf[1..], i - 1);
    }
  }

  /** A stored key is a key of the dictionary. */
  lemma {:induction false} TickerIn(pf: Portfolio, i: nat)
    requires i < |pf|
    ensures pf[i].ticker in Tickers(pf)
  {
    if i > 0 { TickerIn(pf[1..], i - 1); }
  }
}
