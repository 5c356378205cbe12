/** `Profile.get_portfolio_details` and `Profile.top_stocks`: the final
    ticker-to-shares dictionary of a profile, the cash balance implied by its
    trades and cash entries, and its four most valuable holdings. */
module Holdings {
  import opened Ledger
  import Finance
  import Sorting

  // ---------------------------------------------------------------------
  // Case-insensitive action tests
  // ---------------------------------------------------------------------

  /** `str.upper()` on one character, for the ASCII letters. */
  function UpperChar(c: char): char
  {
    if 'a' <= c <= 'z' then (c as int - 32) as char else c
  }

  /** `str.upper()`, for the ASCII letters. */
  function Upper(s: string): string
  {
    seq(|s|, i requires 0 <= i < |s| => UpperChar(s[i]))
  }

  /** An upper-case ASCII word. */
  predicate UpperWord(w: string)
  {
    forall i :: 0 <= i < |w| ==> 'A' <= w[i] <= 'Z'
  }

  /** A character upper-cases to the letter `u` exactly when it is `u` or its
      lower-case form. */
  lemma UpperCharMatches(c: char, u: char)
    requires 'A' <= u <= 'Z'
    ensures UpperChar(c) == u <==> c == u || c as int == u as int + 32
  {
  }

  /** `s.upper() == w` holds exactly when `s` spells `w` with each letter in
      either case: "buy", "Buy" and "BUY" all count as "BUY". */
  lemma UpperMatches(s: string, w: string)
    requires UpperWord(w)
    ensures Upper(s) == w <==>
      |s| == |w| && forall i :: 0 <= i < |s| ==> s[i] == w[i] || s[i] as int == w[i] as int + 32
  {
    forall i | 0 <= i < |s| && i < |w| {
      UpperCharMatches(s[i], w[i]);
    }
    if |s| == |w| && forall i :: 0 <= i < |s| ==> s[i] == w[i] || s[i] as int == w[i] as int + 32 {
      assert forall i :: 0 <= i < |s| ==> Upper(s)[i] == w[i];
    }
  }

  predicate IsBuy(s: StockTxn)
  {
    Upper(s.action) == "BUY"
  }

  predicate IsDeposit(c: CashTxn)
  {
    Upper(c.action) == "DEPOSIT"
  }

  // ---------------------------------------------------------------------
  // The two folds
  // ---------------------------------------------------------------------

  /** Price times quantity of one trade. */
  function TradeValue(t: StockTxn): real
  {
    t.price * t.quantity as real
  }

  /** The state of the stock loop: the shares dictionary and the cash balance. */
  datatype Summary = Summary(holdings: Portfolio, cashBalance: real)

  /** The stock loop over the first entries: a "BUY" (any case) adds its
      quantity and pays price times quantity; anything else removes its
      quantity and receives price times quantity. */
  function StockFold(stocks: seq<StockTxn>): Summary
  {
    if stocks == [] then Summary([], 0.0)
    else
      var s := StockFold(stocks[..|stocks| - 1]);
      var t := stocks[|stocks| - 1];
      if IsBuy(t) then Summary(AddShares(s.holdings, t.ticker, t.quantity), s.cashBalance - TradeValue(t))
      else Summary(AddShares(s.holdings, t.ticker, -t.quantity), s.cashBalance + TradeValue(t))
  }

  /** The cash loop, from the balance the stock loop left: a "DEPOSIT" (any
      case) adds its value, anything else subtracts it. */
  function CashFold(cash: seq<CashTxn>, balance: real): real
  {
    if cash == [] then balance
    else
      var c := cash[|cash| - 1];
      var b := CashFold(cash[..|cash| - 1], balance);
      if IsDeposit(c) then b + c.value else b - c.value
  }

  /** The stock loop of `get_portfolio_details`. */
  method FoldStocks(stocks: seq<StockTxn>) returns (finalPortfolio: Portfolio, cashBalance: real)
    ensures Summary(finalPortfolio, cashBalance) == StockFold(stocks)
  {
    finalPortfolio := [];
    cashBalance := 0.0;
    var i := 0;
    while i < |stocks|
      invariant 0 <= i <= |stocks|
      invariant finalPortfolio == StockFold(stocks[..i]).holdings
      invariant cashBalance == StockFold(stocks[..i]).cashBalance
    {
      var t := stocks[i];
      assert stocks[..i + 1][..i] == stocks[..i];
      assert stocks[..i + 1][i] == t;
      if IsBuy(t) {
        finalPortfolio := AddShares(finalPortfolio, t.ticker, t.quantity);
        cashBalance := cashBalance - TradeValue(t);
      } else {
        finalPortfolio := AddShares(finalPortfolio, t.ticker, -t.quantity);
        cashBalance := cashBalance + TradeValue(t);
      }
      i := i + 1;
    }
    assert stocks[..i] == stocks;
  }

  /** The cash loop of `get_portfolio_details`, from the balance the stock
      loop left. */
  method FoldCash(cash: seq<CashTxn>, balance: real) returns (cashBalance: real)
    ensures cashBalance == CashFold(cash, balance)
  {
    cashBalance := balance;
    var j := 0;
    while j < |cash|
      invariant 0 <= j <= |cash|
      invariant cashBalance == CashFold(cash[..j], balance)
    {
      var c := cash[j];
      if IsDeposit(c) {
        cashBalance := cashBalance + c.value;
      } else {
        cashBalance := cashBalance - c.value;
      }
      assert cash[..j + 1][..j] == cash[..j];
      j := j + 1;
    }
    assert cash[..j] == cash;
  }

  /** `get_portfolio_details`: both loops, then the valuation of the final
      dictionary. */
  method GetPortfolioDetails(stocks: seq<StockTxn>, cash: seq<CashTxn>, info: Finance.InfoLookup)
    returns (details: seq<Finance.TickerDetail>, total: real, cashBalance: real)
    ensures details == Finance.Details(StockFold(stocks).holdings, info)
    ensures total == Finance.TotalValue(details)
    ensures cashBalance == CashFold(cash, StockFold(stocks).cashBalance)
  {
    var finalPortfolio, afterStocks := FoldStocks(stocks);
    cashBalance := FoldCash(cash, afterStocks);
    details, total := Finance.GetCurrentPrices(finalPortfolio, info);
  }

  // ---------------------------------------------------------------------
  // Closed forms
  // ---------------------------------------------------------------------

  /** Quantity of `t` over the "BUY" entries (`buying`) or the other entries. */
  function Traded(stocks: seq<StockTxn>, t: Ticker, buying: bool): int
  {
    if stocks == [] then 0
    else
      var s := stocks[|stocks| - 1];
      Traded(stocks[..|stocks| - 1], t, buying) + (if s.ticker == t && IsBuy(s) == buying then s.quantity else 0)
  }

  /** Price times quantity over the "BUY" entries (`buying`) or the other entries. */
  function Notional(stocks: seq<StockTxn>, buying: bool): real
  {
    if stocks == [] then 0.0
    else
      var s := stocks[|stocks| - 1];
      Notional(stocks[..|stocks| - 1], buying) + (if IsBuy(s) == buying then TradeValue(s) else 0.0)
  }

  /** Value of the "DEPOSIT" entries (`depositing`) or the other entries. */
  function Moved(cash: seq<CashTxn>, depositing: bool): real
  {
    if cash == [] then 0.0
    else
      var c := cash[|cash| - 1];
      Moved(cash[..|cash| - 1], depositing) + (if IsDeposit(c) == depositing then c.value else 0.0)
  }

  /** Tickers of all stock entries. */
  function TickersIn(stocks: seq<StockTxn>): set<Ticker>
  {
    if stocks == [] then {} else TickersIn(stocks[..|stocks| - 1]) + {stocks[|stocks| - 1].ticker}
  }

  /** The final dictionary holds, for every ticker, bought minus sold shares;
      its keys are the traded tickers, each once; and the stock loop's cash is
      the sales' notional minus the buys' notional. */
  lemma {:induction false} StockFoldClosedForm(stocks: seq<StockTxn>)
    ensures forall t :: SharesOf(StockFold(stocks).holdings, t) == Traded(stocks, t, true) - Traded(stocks, t, false)
    ensures Tickers(StockFold(stocks).holdings) == TickersIn(stocks)
    ensures UniqueTickers(StockFold(stocks).holdings)
    ensures StockFold(stocks).cashBalance == Notional(stocks, false) - Notional(stocks, true)
  {
    if stocks != [] {
      StockFoldClosedForm(stocks[..|stocks| - 1]);
    }
  }

  lemma {:induction false} CashFoldClosedForm(cash: seq<CashTxn>, balance: real)
    ensures CashFold(cash, balance) == balance + Moved(cash, true) - Moved(cash, false)
  {
    if cash != [] {
      CashFoldClosedForm(cash[..|cash| - 1], balance);
    }
  }

  /** The cash balance reported is deposits - withdrawals - what buys paid +
      what sales received. */
  lemma CashBalanceClosedForm(stocks: seq<StockTxn>, cash: seq<CashTxn>)
    ensures CashFold(cash, StockFold(stocks).cashBalance)
      == Moved(cash, true) - Moved(cash, false) - Notional(stocks, true) + Notional(stocks, false)
  {
    StockFoldClosedForm(stocks);
    CashFoldClosedForm(cash, StockFold(stocks).cashBalance);
  }

  // ---------------------------------------------------------------------
  // Top stocks
  // ---------------------------------------------------------------------

  function ByTotalValue(d: Finance.TickerDetail): real
  {
    d.totalValue
  }

  /** `sorted(stocks, key=total_value, reverse=True)[0:4]`. */
  function TopStocks(details: seq<Finance.TickerDetail>): seq<Finance.TickerDetail>
  {
    var sorted := Sorting.SortDesc(details, ByTotalValue);
    sorted[..if |sorted| < 4 then |sorted| else 4]
  }

  /** The first `m` items of a descending sequence are worth at least every
      item after them. */
  lemma PrefixDominates(sorted: seq<Finance.TickerDetail>, m: nat, x: Finance.TickerDetail, y: Finance.TickerDetail)
    requires m <= |sorted| && Sorting.SortedDesc(sorted, ByTotalValue)
    requires x in sorted[..m] && y in sorted[m..]
    ensures y.totalValue <= x.totalValue
  {
    var ix :| 0 <= ix < m && sorted[ix] == x;
    var jy :| m <= jy < |sorted| && sorted[jy] == y;
    assert ByTotalValue(sorted[ix]) >= ByTotalValue(sorted[jy]);
  }

  /** At most four details, drawn from the input, by non-increasing value. */
  lemma TopStocksAreTop(details: seq<Finance.TickerDetail>)
    ensures |TopStocks(details)| == if |details| < 4 then |details| else 4
    ensures multiset(TopStocks(details)) <= multiset(details)
    ensures Sorting.SortedDesc(TopStocks(details), ByTotalValue)
  {
    var sorted := Sorting.SortDesc(details, ByTotalValue);
    var m := if |sorted| < 4 then |sorted| else 4;
    assert sorted == sorted[..m] + sorted[m..];
    assert multiset(sorted) == multiset(sorted[..m]) + multiset(sorted[m..]);
  }

  /** No detail left out of the top four is worth more than one kept. */
  lemma TopStocksDominate(details: seq<Finance.TickerDetail>)
    ensures forall x, y | x in TopStocks(details) && y in multiset(details) - multiset(TopStocks(details)) ::
              y.totalValue <= x.totalValue
  {
    var sorted := Sorting.SortDesc(details, ByTotalValue);
    var m := if |sorted| < 4 then |sorted| else 4;
    var top := sorted[..m];
    assert sorted == top + sorted[m..];
    assert multiset(details) - multiset(top) == multiset(sorted[m..]);
    forall x, y | x in top && y in multiset(details) - multiset(top) ensures y.totalValue <= x.totalValue {
      PrefixDominates(sorted, m, x, y);
    }
  }
}
