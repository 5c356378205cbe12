/** The daily-returns engine of `portfoliohut/models/profile.py`
    (`_calc_returns`, `get_returns_df`, `get_cumulative_returns`,
    `get_most_recent_return`).

    The engine walks every calendar day from the first trade to today, keeps a
    ticker-to-shares dictionary and a running total of sale proceeds, marks the
    portfolio to market with a price lookup, and emits one return per day:
    (balance - (previous balance + today's sale proceeds)) / (previous balance +
    today's sale proceeds). Deposits and withdrawals play no part, and buys do
    not debit cash. Prices and returns are reals; NaN is `None`. */
module Returns {
  import opened Wrappers
  import opened Ledger
  import Sorting

  /** The forward-filled close price of a ticker on a day: the lookup table the
      source builds from market data. */
  type PriceLookup = (Day, Ticker) -> real

  /** One entry of a returns series: its date and its value (`None` for NaN). */
  datatype DailyReturn = DailyReturn(day: Day, ret: Option<real>)

  /** Shares moved by one entry: "buy" adds, any other action subtracts. */
  function ShareDelta(s: StockTxn): int
  {
    if s.action == "buy" then s.quantity else -s.quantity
  }

  /** Cash locked in by one entry: a "sell" adds quantity times price. */
  function SaleProceeds(s: StockTxn): real
  {
    if s.action == "sell" then s.quantity as real * s.price else 0.0
  }

  /** The dictionary after applying, in ledger order, the entries dated `d`. */
  function ApplyDay(pf: Portfolio, ts: seq<StockTxn>, d: Day): Portfolio
  {
    if ts == [] then pf
    else
      var s := ts[|ts| - 1];
      var p := ApplyDay(pf, ts[..|ts| - 1], d);
      if DayOf(s.time) == d then AddShares(p, s.ticker, ShareDelta(s)) else p
  }

  /** `cash_mod`: the sale proceeds of the entries dated `d`. */
  function ProceedsOnDay(ts: seq<StockTxn>, d: Day): real
  {
    if ts == [] then 0.0
    else
      var s := ts[|ts| - 1];
      ProceedsOnDay(ts[..|ts| - 1], d) + (if DayOf(s.time) == d then SaleProceeds(s) else 0.0)
  }

  /** Sum of shares times that day's price over the dictionary, in its order. */
  function MarketValue(pf: Portfolio, price: PriceLookup, d: Day): real
  {
    if pf == [] then 0.0
    else pf[0].shares as real * price(d, pf[0].ticker) + MarketValue(pf[1..], price, d)
  }

  /** A quotient, undefined when the denominator is zero. */
  function Ratio(num: real, den: real): Option<real>
  {
    if den == 0.0 then None else Some(num / den)
  }

  /** The loop variables of `_calc_returns` between two days. */
  datatype DayState = DayState(portfolio: Portfolio, saleCash: real, prevBalance: Option<real>, series: seq<DailyReturn>)

  /** One iteration of the day loop. */
  function StepDay(st: DayState, ts: seq<StockTxn>, price: PriceLookup, d: Day): DayState
  {
    var pf := ApplyDay(st.portfolio, ts, d);
    var cashMod := ProceedsOnDay(ts, d);
    var saleCash := st.saleCash + cashMod;
    if |pf| == 0 && saleCash == 0.0 then
      DayState(pf, saleCash, st.prevBalance, st.series + [DailyReturn(d, None)])
    else
      var balance := MarketValue(pf, price, d) + saleCash;
      var r := if st.prevBalance.None? then None
               else Ratio(balance - (st.prevBalance.value + cashMod), st.prevBalance.value + cashMod);
      DayState(pf, saleCash, Some(balance), st.series + [DailyReturn(d, r)])
  }

  /** The loop state after the first `n` days starting at `start`. */
  function RunDays(ts: seq<StockTxn>, price: PriceLookup, start: Day, n: nat): DayState
  {
    if n == 0 then DayState([], 0.0, None, [])
    else StepDay(RunDays(ts, price, start, n - 1), ts, price, start + n - 1)
  }

  /** The number of days in `pd.date_range(start, today)` (none when today is earlier). */
  function DayCount(start: Day, today: Day): nat
  {
    if today < start then 0 else today - start + 1
  }

  /** The date of the first entry (`stock_qset.first()`). */
  function FirstDay(ts: seq<StockTxn>): Day
    requires ts != []
  {
    DayOf(ts[0].time)
  }

  /** The untrimmed daily series, one entry per day from the first trade to today. */
  function DailySeries(ts: seq<StockTxn>, price: PriceLookup, today: Day): seq<DailyReturn>
    requires ts != []
  {
    RunDays(ts, price, FirstDay(ts), DayCount(FirstDay(ts), today)).series
  }

  /** A defined, non-zero return. */
  predicate NonZero(x: DailyReturn)
  {
    x.ret.Some? && x.ret.value != 0.0
  }

  /** Drops the leading zero or undefined returns; all of them when none is
      non-zero and defined. */
  function Trim(rs: seq<DailyReturn>): (r: seq<DailyReturn>)
    ensures |r| <= |rs| && r == rs[|rs| - |r|..]
    ensures r != [] ==> NonZero(r[0])
    ensures forall i :: 0 <= i < |rs| - |r| ==> !NonZero(rs[i])
  {
    if rs == [] then []
    else if NonZero(rs[0]) then rs
    else Trim(rs[1..])
  }

  /** The inner loop of `_calc_returns`: applies, in ledger order, the
      entries dated `date` to the dictionary and totals their sale proceeds. */
  method ApplyEntriesOn(before: Portfolio, ts: seq<StockTxn>, date: Day) returns (portfolio: Portfolio, cashMod: real)
    ensures portfolio == ApplyDay(before, ts, date)
    ensures cashMod == ProceedsOnDay(ts, date)
  {
    portfolio := before;
    cashMod := 0.0;
    var i := 0;
    while i < |ts|
      invariant 0 <= i <= |ts|
      invariant portfolio == ApplyDay(before, ts[..i], date)
      invariant cashMod == ProceedsOnDay(ts[..i], date)
    {
      var stock := ts[i];
      assert ts[..i + 1][..i] == ts[..i];
      if DayOf(stock.time) == date {
        portfolio := AddShares(portfolio, stock.ticker, ShareDelta(stock));
        if stock.action == "sell" {
          cashMod := cashMod + stock.quantity as real * stock.price;
        }
      }
      i := i + 1;
    }
    assert ts[..|ts|] == ts;
  }

  /** `_calc_returns`: `ts` are the profile's stock entries in query order. */
  method CalcReturns(ts: seq<StockTxn>, price: PriceLookup, today: Day) returns (series: seq<DailyReturn>)
    requires ts != []
    ensures series == Trim(DailySeries(ts, price, today))
  {
    var start := DayOf(ts[0].time);
    var n := DayCount(start, today);
    var portfolio: Portfolio := [];
    var daily: seq<DailyReturn> := [];
    var prevBalance: Option<real> := None;
    var saleCash := 0.0;
    var k := 0;
    while k < n
      invariant 0 <= k <= n
      invariant DayState(portfolio, saleCash, prevBalance, daily) == RunDays(ts, price, start, k)
    {
      var date := start + k;
      ghost var before := DayState(portfolio, saleCash, prevBalance, daily);
      var cashMod;
      portfolio, cashMod := ApplyEntriesOn(portfolio, ts, date);
      saleCash := saleCash + cashMod;
      if |portfolio| == 0 && saleCash == 0.0 {
        daily := daily + [DailyReturn(date, None)];
      } else {
        var currBalance := MarketValue(portfolio, price, date) + saleCash;
        var currReturn: Option<real> := None;
        if prevBalance.Some? {
          currReturn := Ratio(currBalance - (prevBalance.value + cashMod), prevBalance.value + cashMod);
        }
        daily := daily + [DailyReturn(date, currReturn)];
        prevBalance := Some(currBalance);
      }
      assert DayState(portfolio, saleCash, prevBalance, daily) == StepDay(before, ts, price, date);
      k := k + 1;
    }
    series := Trim(daily);
  }

  /** The sort key of `order_by("date_time")`: earlier entries first. */
  function EarlierFirst(s: StockTxn): real
  {
    -(s.time as real)
  }

  /** The profile's stock entries ordered by time. */
  function ByTime(stocks: seq<StockTxn>): seq<StockTxn>
  {
    Sorting.SortDesc(stocks, EarlierFirst)
  }

  /** Entries are in non-decreasing time order. */
  predicate Chronological(ts: seq<StockTxn>)
  {
    forall i, j :: 0 <= i < j < |ts| ==> ts[i].time <= ts[j].time
  }

  /** The series `get_returns_df` returns. */
  function ReturnsSeries(stocks: seq<StockTxn>, price: PriceLookup, today: Day): seq<DailyReturn>
  {
    if stocks == [] then [] else Trim(DailySeries(ByTime(stocks), price, today))
  }

  /** `get_returns_df`: empty for a profile without stock entries; otherwise
      the engine run over the entries ordered by time. */
  method GetReturns(stocks: seq<StockTxn>, price: PriceLookup, today: Day) returns (series: seq<DailyReturn>)
    ensures stocks == [] ==> series == []
    ensures series == ReturnsSeries(stocks, price, today)
  {
    if |stocks| == 0 {
      return [];
    }
    var ordered := ByTime(stocks);
    series := CalcReturns(ordered, price, today);
  }

  /** The factor a return contributes to the compounded growth; an undefined
      return is skipped, as pandas' `cumprod` skips NaN. */
  function Factor(x: DailyReturn): real
  {
    if x.ret.Some? then 1.0 + x.ret.value else 1.0
  }

  /** The product of (1 + r) over the defined returns of `rs`. */
  function Growth(rs: seq<DailyReturn>): real
  {
    if rs == [] then 1.0 else Growth(rs[..|rs| - 1]) * Factor(rs[|rs| - 1])
  }

  /** `(1 + returns).cumprod() - 1`. */
  function Cumulative(rs: seq<DailyReturn>): (c: seq<DailyReturn>)
    ensures |c| == |rs|
  {
    if rs == [] then []
    else
      var last := rs[|rs| - 1];
      Cumulative(rs[..|rs| - 1]) + [DailyReturn(last.day, if last.ret.None? then None else Some(Growth(rs) - 1.0))]
  }

  /** Position k of the compounded series keeps the date and holds the
      product of (1 + r) over the defined returns up to k, minus 1; an
      undefined return stays undefined. */
  lemma {:induction false} CumulativeAt(rs: seq<DailyReturn>, k: nat)
    requires k < |rs|
    ensures |Cumulative(rs)| == |rs|
    ensures Cumulative(rs)[k] == DailyReturn(rs[k].day, if rs[k].ret.None? then None else Some(Growth(rs[..k + 1]) - 1.0))
  {
    var init := rs[..|rs| - 1];
    if k == |rs| - 1 {
      assert rs[..k + 1] == rs;
    } else {
      CumulativeAt(init, k);
      assert init[..k + 1] == rs[..k + 1];
      assert Cumulative(rs)[k] == Cumulative(init)[k];
    }
  }

  /** The last cumulative value, or NaN for an empty series. */
  function MostRecent(rs: seq<DailyReturn>): (r: Option<real>)
    ensures rs == [] ==> r == None
    ensures rs != [] && rs[|rs| - 1].ret.Some? ==> r == Some(Growth(rs) - 1.0)
    ensures rs != [] && rs[|rs| - 1].ret.None? ==> r == None
  {
    if rs == [] then None else Cumulative(rs)[|rs| - 1].ret
  }

  /** `get_cumulative_returns`. */
  method GetCumulativeReturns(stocks: seq<StockTxn>, price: PriceLookup, today: Day) returns (c: seq<DailyReturn>)
    ensures c == Cumulative(ReturnsSeries(stocks, price, today))
  {
    var series := GetReturns(stocks, price, today);
    c := Cumulative(series);
  }

  /** `get_most_recent_return`. */
  method GetMostRecentReturn(stocks: seq<StockTxn>, price: PriceLookup, today: Day) returns (r: Option<real>)
    ensures r == MostRecent(ReturnsSeries(stocks, price, today))
  {
    var c := GetCumulativeReturns(stocks, price, today);
    if |c| != 0 {
      r := c[|c| - 1].ret;
    } else {
      r := None;
    }
  }

  // ---------------------------------------------------------------------
  // The series' shape
  // ---------------------------------------------------------------------

  /** The walk emits one entry per day, dated in order from `start`, and a
      later run extends an earlier one. */
  lemma {:induction false} SeriesAt(ts: seq<StockTxn>, price: PriceLookup, start: Day, n: nat, k: nat)
    requires k < n
    ensures |RunDays(ts, price, start, n).series| == n
    ensures |RunDays(ts, price, start, k + 1).series| == k + 1
    ensures RunDays(ts, price, start, n).series[k] == RunDays(ts, price, start, k + 1).series[k]
    ensures RunDays(ts, price, start, n).series[k].day == start + k
  {
    SeriesLength(ts, price, start, n);
    SeriesLength(ts, price, start, k + 1);
    if n > k + 1 {
      SeriesAt(ts, price, start, n - 1, k);
    } else {
      SeriesLength(ts, price, start, k);
    }
  }

  lemma {:induction false} SeriesLength(ts: seq<StockTxn>, price: PriceLookup, start: Day, n: nat)
    ensures |RunDays(ts, price, start, n).series| == n
  {
    if n > 0 { SeriesLength(ts, price, start, n - 1); }
  }

  /** A day without entries leaves the dictionary alone and locks in no cash. */
  lemma {:induction false} QuietDay(pf: Portfolio, ts: seq<StockTxn>, d: Day)
    requires forall i :: 0 <= i < |ts| ==> DayOf(ts[i].time) != d
    ensures ApplyDay(pf, ts, d) == pf && ProceedsOnDay(ts, d) == 0.0
  {
    if ts != [] { QuietDay(pf, ts[..|ts| - 1], d); }
  }

  /** Days before any trade get an undefined return and record no baseline
      balance. */
  lemma {:induction false} IdleDaysUndefined(ts: seq<StockTxn>, price: PriceLookup, start: Day, n: nat)
    requires forall i :: 0 <= i < |ts| ==> !(start <= DayOf(ts[i].time) < start + n)
    ensures RunDays(ts, price, start, n).portfolio == []
    ensures RunDays(ts, price, start, n).saleCash == 0.0
    ensures RunDays(ts, price, start, n).prevBalance == None
    ensures |RunDays(ts, price, start, n).series| == n
    ensures forall k :: 0 <= k < n ==> RunDays(ts, price, start, n).series[k].ret == None
  {
    if n > 0 {
      IdleDaysUndefined(ts, price, start, n - 1);
      QuietDay([], ts, start + n - 1);
      SeriesLength(ts, price, start, n - 1);
    }
  }

  // ---------------------------------------------------------------------
  // Holdings in closed form
  // ---------------------------------------------------------------------

  /** Net shares of `t` over the entries dated on or before `d`: "buy" entries
      add their quantity, all other entries subtract it. */
  function NetShares(ts: seq<StockTxn>, t: Ticker, d: Day): int
  {
    if ts == [] then 0
    else
      var s := ts[|ts| - 1];
      NetShares(ts[..|ts| - 1], t, d) + (if s.ticker == t && DayOf(s.time) <= d then ShareDelta(s) else 0)
  }

  /** Net shares of `t` over the entries dated exactly `d`. */
  function NetSharesOn(ts: seq<StockTxn>, t: Ticker, d: Day): int
  {
    if ts == [] then 0
    else
      var s := ts[|ts| - 1];
      NetSharesOn(ts[..|ts| - 1], t, d) + (if s.ticker == t && DayOf(s.time) == d then ShareDelta(s) else 0)
  }

  lemma {:induction false} NetSharesStep(ts: seq<StockTxn>, t: Ticker, d: Day)
    ensures NetShares(ts, t, d) == NetShares(ts, t, d - 1) + NetSharesOn(ts, t, d)
  {
    if ts != [] { NetSharesStep(ts[..|ts| - 1], t, d); }
  }

  lemma {:induction false} NetSharesNone(ts: seq<StockTxn>, t: Ticker, d: Day)
    requires forall i :: 0 <= i < |ts| ==> DayOf(ts[i].time) > d
    ensures NetShares(ts, t, d) == 0
  {
    if ts != [] { NetSharesNone(ts[..|ts| - 1], t, d); }
  }

  /** Applying a day adds that day's net shares of every ticker: all trades
      of one day are applied before the day is valued. */
  lemma {:induction false} ApplyDayShares(pf: Portfolio, ts: seq<StockTxn>, d: Day, t: Ticker)
    ensures SharesOf(ApplyDay(pf, ts, d), t) == SharesOf(pf, t) + NetSharesOn(ts, t, d)
  {
    if ts != [] { ApplyDayShares(pf, ts[..|ts| - 1], d, t); }
  }

  /** When no entry predates `start`, the dictionary after `n` days holds, for
      every ticker, its net shares through the last of those days. */
  lemma {:induction false} SharesHeld(ts: seq<StockTxn>, price: PriceLookup, start: Day, n: nat, t: Ticker)
    requires forall i :: 0 <= i < |ts| ==> DayOf(ts[i].time) >= start
    ensures SharesOf(RunDays(ts, price, start, n).portfolio, t) == NetShares(ts, t, start + n - 1)
  {
    if n == 0 {
      NetSharesNone(ts, t, start - 1);
    } else {
      SharesHeld(ts, price, start, n - 1, t);
      ApplyDayShares(RunDays(ts, price, start, n - 1).portfolio, ts, start + n - 1, t);
      NetSharesStep(ts, t, start + n - 1);
    }
  }

  /** In a time-ordered ledger no entry predates the first one's date. */
  lemma ChronologicalFromFirstDay(ts: seq<StockTxn>)
    requires ts != [] && Chronological(ts)
    ensures forall i :: 0 <= i < |ts| ==> DayOf(ts[i].time) >= FirstDay(ts)
  {
    forall i | 0 <= i < |ts| ensures DayOf(ts[i].time) >= FirstDay(ts) {
      if i > 0 { assert ts[0].time <= ts[i].time; }
    }
  }

  /** The engine's holdings on its k-th day: for a time-ordered ledger, the
      shares of every ticker are the "buy" quantities minus all other
      quantities of its entries dated on or before that day. */
  lemma HoldingsOnDay(ts: seq<StockTxn>, price: PriceLookup, k: nat, t: Ticker)
    requires ts != [] && Chronological(ts)
    ensures SharesOf(RunDays(ts, price, FirstDay(ts), k + 1).portfolio, t) == NetShares(ts, t, FirstDay(ts) + k)
  {
    ChronologicalFromFirstDay(ts);
    SharesHeld(ts, price, FirstDay(ts), k + 1, t);
  }

  // ---------------------------------------------------------------------
  // Dictionary keys
  // ---------------------------------------------------------------------

  /** Tickers of the entries dated exactly `d`. */
  function TradedOn(ts: seq<StockTxn>, d: Day): set<Ticker>
  {
    if ts == [] then {}
    else
      var s := ts[|ts| - 1];
      TradedOn(ts[..|ts| - 1], d) + (if DayOf(s.time) == d then {s.ticker} else {})
  }

  /** Tickers of the entries dated on or before `d`. */
  function TradedThrough(ts: seq<StockTxn>, d: Day): set<Ticker>
  {
    if ts == [] then {}
    else
      var s := ts[|ts| - 1];
      TradedThrough(ts[..|ts| - 1], d) + (if DayOf(s.time) <= d then {s.ticker} else {})
  }

  lemma {:induction false} TradedStep(ts: seq<StockTxn>, d: Day)
    ensures TradedThrough(ts, d) == TradedThrough(ts, d - 1) + TradedOn(ts, d)
  {
    if ts != [] { TradedStep(ts[..|ts| - 1], d); }
  }

  lemma {:induction false} TradedNone(ts: seq<StockTxn>, d: Day)
    requires forall i :: 0 <= i < |ts| ==> DayOf(ts[i].time) > d
    ensures TradedThrough(ts, d) == {}
  {
    if ts != [] { TradedNone(ts[..|ts| - 1], d); }
  }

  lemma {:induction false} TradedOnHas(ts: seq<StockTxn>, i: nat)
    requires i < |ts|
    ensures ts[i].ticker in TradedOn(ts, DayOf(ts[i].time))
  {
    if i < |ts| - 1 { TradedOnHas(ts[..|ts| - 1], i); }
  }

  /** Applying a day adds that day's tickers to the keys and keeps them unique. */
  lemma {:induction false} ApplyDayKeys(pf: Portfolio, ts: seq<StockTxn>, d: Day)
    ensures Tickers(ApplyDay(pf, ts, d)) == Tickers(pf) + TradedOn(ts, d)
    ensures UniqueTickers(pf) ==> UniqueTickers(ApplyDay(pf, ts, d))
  {
    if ts != [] { ApplyDayKeys(pf, ts[..|ts| - 1], d); }
  }

  /** The dictionary's keys are the tickers traded so far, each once. */
  lemma {:induction false} KeysHeld(ts: seq<StockTxn>, price: PriceLookup, start: Day, n: nat)
    requires forall i :: 0 <= i < |ts| ==> DayOf(ts[i].time) >= start
    ensures Tickers(RunDays(ts, price, start, n).portfolio) == TradedThrough(ts, start + n - 1)
    ensures UniqueTickers(RunDays(ts, price, start, n).portfolio)
  {
    if n == 0 {
      TradedNone(ts, start - 1);
    } else {
      KeysHeld(ts, price, start, n - 1);
      ApplyDayKeys(RunDays(ts, price, start, n - 1).portfolio, ts, start + n - 1);
      TradedStep(ts, start + n - 1);
    }
  }

  /** From the first day of the walk on, the dictionary is never empty. */
  lemma {:induction false} ValuedFromFirstDay(ts: seq<StockTxn>, price: PriceLookup, n: nat)
    requires ts != [] && n >= 1
    ensures RunDays(ts, price, FirstDay(ts), n).portfolio != []
  {
    var start := FirstDay(ts);
    var before := RunDays(ts, price, start, n - 1).portfolio;
    ApplyDayKeys(before, ts, start + n - 1);
    if n == 1 {
      TradedOnHas(ts, 0);
    } else {
      ValuedFromFirstDay(ts, price, n - 1);
      assert before[0].ticker in Tickers(before);
    }
  }

  // ---------------------------------------------------------------------
  // Sale cash
  // ---------------------------------------------------------------------

  /** Proceeds of the "sell" entries dated on or before `d`. */
  function SaleCash(ts: seq<StockTxn>, d: Day): real
  {
    if ts == [] then 0.0
    else
      var s := ts[|ts| - 1];
      SaleCash(ts[..|ts| - 1], d) + (if DayOf(s.time) <= d then SaleProceeds(s) else 0.0)
  }

  lemma {:induction false} SaleCashStep(ts: seq<StockTxn>, d: Day)
    ensures SaleCash(ts, d) == SaleCash(ts, d - 1) + ProceedsOnDay(ts, d)
  {
    if ts != [] { SaleCashStep(ts[..|ts| - 1], d); }
  }

  lemma {:induction false} SaleCashNone(ts: seq<StockTxn>, d: Day)
    requires forall i :: 0 <= i < |ts| ==> DayOf(ts[i].time) > d
    ensures SaleCash(ts, d) == 0.0
  {
    if ts != [] { SaleCashNone(ts[..|ts| - 1], d); }
  }

  /** The running `sale_cash` is the proceeds of every sale dated up to the
      current day; buys never change it. */
  lemma {:induction false} SaleCashHeld(ts: seq<StockTxn>, price: PriceLookup, start: Day, n: nat)
    requires forall i :: 0 <= i < |ts| ==> DayOf(ts[i].time) >= start
    ensures RunDays(ts, price, start, n).saleCash == SaleCash(ts, start + n - 1)
  {
    if n == 0 {
      SaleCashNone(ts, start - 1);
    } else {
      SaleCashHeld(ts, price, start, n - 1);
      SaleCashStep(ts, start + n - 1);
    }
  }

  lemma {:induction false} ProceedsNonNegative(ts: seq<StockTxn>, d: Day)
    requires forall i :: 0 <= i < |ts| ==> ts[i].quantity >= 0 && ts[i].price >= 0.0
    ensures ProceedsOnDay(ts, d) >= 0.0
  {
    if ts != [] {
      var s := ts[|ts| - 1];
      ProceedsNonNegative(ts[..|ts| - 1], d);
      assert s.quantity as real * s.price >= 0.0;
    }
  }

  /** With non-negative quantities and prices, sale cash never decreases from
      one day of the walk to the next. */
  lemma SaleCashNeverDecreases(ts: seq<StockTxn>, price: PriceLookup, start: Day, n: nat)
    requires forall i :: 0 <= i < |ts| ==> ts[i].quantity >= 0 && ts[i].price >= 0.0
    ensures RunDays(ts, price, start, n).saleCash <= RunDays(ts, price, start, n + 1).saleCash
  {
    ProceedsNonNegative(ts, start + n);
  }

  // ---------------------------------------------------------------------
  // Balances and daily returns
  // ---------------------------------------------------------------------

  /** `curr_balance` on the k-th day of the walk. */
  function Balance(ts: seq<StockTxn>, price: PriceLookup, k: nat): real
    requires ts != []
  {
    var st := RunDays(ts, price, FirstDay(ts), k + 1);
    MarketValue(st.portfolio, price, FirstDay(ts) + k) + st.saleCash
  }

  /** The return of each day: undefined on the first day, which has no
      previous balance; from the second day on, (balance - (previous balance +
      today's sale proceeds)) / (previous balance + today's sale proceeds). */
  lemma {:induction false} DailyReturnAt(ts: seq<StockTxn>, price: PriceLookup, today: Day, k: nat)
    requires ts != [] && k < DayCount(FirstDay(ts), today)
    ensures |DailySeries(ts, price, today)| == DayCount(FirstDay(ts), today)
    ensures DailySeries(ts, price, today)[k].day == FirstDay(ts) + k
    ensures k == 0 ==> DailySeries(ts, price, today)[k].ret == None
    ensures k > 0 ==>
      var cashMod := ProceedsOnDay(ts, FirstDay(ts) + k);
      DailySeries(ts, price, today)[k].ret
        == Ratio(Balance(ts, price, k) - (Balance(ts, price, k - 1) + cashMod), Balance(ts, price, k - 1) + cashMod)
  {
    var start := FirstDay(ts);
    SeriesAt(ts, price, start, DayCount(start, today), k);
    SeriesLength(ts, price, start, k);
    if k > 0 {
      ValuedFromFirstDay(ts, price, k);
      ValuedFromFirstDay(ts, price, k + 1);
      SeriesLength(ts, price, start, k - 1);
    }
  }

  /** The tickers of the dictionary, in its order. */
  function KeyOrder(pf: Portfolio): seq<Ticker>
  {
    if pf == [] then [] else [pf[0].ticker] + KeyOrder(pf[1..])
  }

  /** Sum over `tickers` of net shares through `d` times the price on `d`. */
  function Valuation(tickers: seq<Ticker>, ts: seq<StockTxn>, price: PriceLookup, d: Day): real
  {
    if tickers == [] then 0.0
    else NetShares(ts, tickers[0], d) as real * price(d, tickers[0]) + Valuation(tickers[1..], ts, price, d)
  }

  lemma {:induction false} MarketValueIsValuation(pf: Portfolio, ts: seq<StockTxn>, price: PriceLookup, d: Day)
    requires forall i :: 0 <= i < |pf| ==> pf[i].shares == NetShares(ts, pf[i].ticker, d)
    ensures MarketValue(pf, price, d) == Valuation(KeyOrder(pf), ts, price, d)
  {
    if pf != [] {
      MarketValueIsValuation(pf[1..], ts, price, d);
    }
  }

  lemma {:induction false} KeyOrderTickers(pf: Portfolio)
    ensures forall t :: t in KeyOrder(pf) <==> t in Tickers(pf)
  {
    if pf != [] { KeyOrderTickers(pf[1..]); }
  }

  /** For a time-ordered ledger, the balance of the k-th day is the sum, over
      every ticker traded on or before that day (each once), of its net shares
      times that day's price, plus the proceeds of every sale so far. */
  lemma BalanceClosedForm(ts: seq<StockTxn>, price: PriceLookup, k: nat)
    requires ts != [] && Chronological(ts)
    ensures var pf := RunDays(ts, price, FirstDay(ts), k + 1).portfolio;
      && Balance(ts, price, k) == Valuation(KeyOrder(pf), ts, price, FirstDay(ts) + k) + SaleCash(ts, FirstDay(ts) + k)
      && (forall t :: t in KeyOrder(pf) <==> t in TradedThrough(ts, FirstDay(ts) + k))
      && UniqueTickers(pf)
  {
    var start := FirstDay(ts);
    var st := RunDays(ts, price, start, k + 1);
    var pf := st.portfolio;
    assert Balance(ts, price, k) == MarketValue(pf, price, start + k) + st.saleCash;
    ChronologicalFromFirstDay(ts);
    KeysHeld(ts, price, start, k + 1);
    KeyOrderTickers(pf);
    SaleCashHeld(ts, price, start, k + 1);
    forall i | 0 <= i < |pf| ensures pf[i].shares == NetShares(ts, pf[i].ticker, start + k) {
      SharesOfAt(pf, i);
      SharesHeld(ts, price, start, k + 1, pf[i].ticker);
    }
    MarketValueIsValuation(pf, ts, price, start + k);
  }

  // ---------------------------------------------------------------------
  // Ordering and compounding
  // ---------------------------------------------------------------------

  /** `order_by("date_time")` yields a time-ordered permutation of the entries. */
  lemma ByTimeIsChronological(stocks: seq<StockTxn>)
    ensures Chronological(ByTime(stocks))
    ensures multiset(ByTime(stocks)) == multiset(stocks)
  {
    var r := ByTime(stocks);
    forall i, j | 0 <= i < j < |r| ensures r[i].time <= r[j].time {
      assert EarlierFirst(r[i]) >= EarlierFirst(r[j]);
    }
  }

  /** Each defined cumulative value compounds the previous one:
      1 + c[k] == (1 + c[k-1]) * (1 + r[k]). */
  lemma {:induction false} CumulativeCompounds(rs: seq<DailyReturn>, k: nat)
    requires 0 < k < |rs| && rs[k - 1].ret.Some? && rs[k].ret.Some?
    ensures var c := Cumulative(rs);
      c[k].ret.Some? && c[k - 1].ret.Some? &&
      1.0 + c[k].ret.value == (1.0 + c[k - 1].ret.value) * (1.0 + rs[k].ret.value)
  {
    var g := Growth(rs[..k]);
    assert rs[..k + 1][..k] == rs[..k] && rs[..k + 1][k] == rs[k];
    assert Growth(rs[..k + 1]) == g * Factor(rs[k]);
    CumulativeAt(rs, k);
    CumulativeAt(rs, k - 1);
  }
}
