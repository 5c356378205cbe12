/** The price-history cache (`HistoricalEquity` and its manager) and the
    `display_items` labels of the financial items. The quote service's
    history download, the clock and the exchange calendar are parameters. */
module PriceHistory {
  import opened Wrappers
  import opened Ledger
  import Sorting

  /** `FinancialItem.FinancialActionType`. */
  datatype ItemType = Equity | ExternalCash | InternalCash

  /** `CASH`: the two cash item types. */
  predicate IsCash(t: ItemType)
  {
    t == ExternalCash || t == InternalCash
  }

  /** One row of a downloaded price history. */
  datatype Record = Record(date: Day, open: real, high: real, low: real, close: real,
                           volume: int, dividends: real, stockSplits: int)

  /** One `HistoricalEquity` row. */
  datatype HistoricalEquity = HistoricalEquity(itemType: ItemType, ticker: Ticker, date: Day,
                                               open: real, high: real, low: real, close: real,
                                               volume: int, dividends: real, stockSplits: int)

  /** What is downloaded: the whole history, or the history from a date on. */
  datatype Period = Max | Since(start: Day)

  /** The quote service's history download. */
  type Fetch = (Ticker, Period) -> seq<Record>

  const IntegrityError := "UNIQUE constraint failed: ticker, date"

  /** The row stored for one downloaded record. */
  function ToRow(ticker: Ticker, r: Record): HistoricalEquity
  {
    HistoricalEquity(Equity, ticker, r.date, r.open, r.high, r.low, r.close, r.volume, r.dividends, r.stockSplits)
  }

  /** The rows `_add_historical_ticker_data` creates: one per record, in
      order, each an equity row of the requested ticker on the record's date. */
  function ToRows(ticker: Ticker, records: seq<Record>): (rs: seq<HistoricalEquity>)
    ensures |rs| == |records|
    ensures forall i :: 0 <= i < |rs| ==>
      rs[i].itemType == Equity && rs[i].ticker == ticker && rs[i].date == records[i].date
  {
    if records == [] then [] else [ToRow(ticker, records[0])] + ToRows(ticker, records[1..])
  }

  /** `unique_together = ("ticker", "date")`. */
  predicate KeysUnique(rows: seq<HistoricalEquity>)
  {
    forall i, j :: 0 <= i < j < |rows| ==> rows[i].ticker != rows[j].ticker || rows[i].date != rows[j].date
  }

  /** The rows of one ticker, in table order (`filter(ticker=...)`). */
  function TickerRows(rows: seq<HistoricalEquity>, ticker: Ticker): seq<HistoricalEquity>
  {
    if rows == [] then []
    else TickerRows(rows[..|rows| - 1], ticker) + (if rows[|rows| - 1].ticker == ticker then [rows[|rows| - 1]] else [])
  }

  /** `ordering = ("date",)`, written as a descending sort on the negated date. */
  function EarlierFirst(h: HistoricalEquity): real
  {
    -(h.date as real)
  }

  /** A query for one ticker: its rows, by ascending date. */
  function Query(rows: seq<HistoricalEquity>, ticker: Ticker): seq<HistoricalEquity>
  {
    Sorting.SortDesc(TickerRows(rows, ticker), EarlierFirst)
  }

  /** `ticker_qset.last().date`: the date of the last row of the query. */
  function Latest(rows: seq<HistoricalEquity>, ticker: Ticker): Option<Day>
  {
    var q := Query(rows, ticker);
    if q == [] then None else Some(q[|q| - 1].date)
  }

  lemma {:induction false} TickerRowsMembers(rows: seq<HistoricalEquity>, ticker: Ticker)
    ensures forall h :: h in TickerRows(rows, ticker) <==> h in rows && h.ticker == ticker
  {
    if rows != [] {
      TickerRowsMembers(rows[..|rows| - 1], ticker);
      assert rows == rows[..|rows| - 1] + [rows[|rows| - 1]];
    }
  }

  /** A query holds exactly the table's rows of that ticker, by ascending date. */
  lemma QueryIsOrdered(rows: seq<HistoricalEquity>, ticker: Ticker)
    ensures multiset(Query(rows, ticker)) == multiset(TickerRows(rows, ticker))
    ensures forall h :: h in Query(rows, ticker) <==> h in rows && h.ticker == ticker
    ensures forall i, j :: 0 <= i < j < |Query(rows, ticker)| ==> Query(rows, ticker)[i].date <= Query(rows, ticker)[j].date
  {
    var q := Query(rows, ticker);
    TickerRowsMembers(rows, ticker);
    assert forall h :: h in q <==> h in multiset(q);
    forall i, j | 0 <= i < j < |q| ensures q[i].date <= q[j].date {
      assert EarlierFirst(q[i]) >= EarlierFirst(q[j]);
    }
  }

  /** The cached latest date is the greatest date stored for the ticker, and
      there is none exactly when the ticker has no rows. */
  lemma LatestIsNewest(rows: seq<HistoricalEquity>, ticker: Ticker)
    ensures Latest(rows, ticker).None? <==> forall h :: h in rows ==> h.ticker != ticker
    ensures Latest(rows, ticker).Some? ==>
      (exists h :: h in rows && h.ticker == ticker && h.date == Latest(rows, ticker).value)
      && forall h :: h in rows && h.ticker == ticker ==> h.date <= Latest(rows, ticker).value
  {
    var q := Query(rows, ticker);
    QueryIsOrdered(rows, ticker);
    if q != [] {
      assert q[|q| - 1] in q;
      forall h | h in rows && h.ticker == ticker ensures h.date <= q[|q| - 1].date {
        var i :| 0 <= i < |q| && q[i] == h;
        if i < |q| - 1 {
          assert q[i].date <= q[|q| - 1].date;
        }
      }
    }
  }

  lemma {:induction false} TickerRowsAppend(a: seq<HistoricalEquity>, b: seq<HistoricalEquity>, ticker: Ticker)
    ensures TickerRows(a + b, ticker) == TickerRows(a, ticker) + TickerRows(b, ticker)
  {
    if b == [] {
      assert a + b == a;
    } else {
      TickerRowsAppend(a, b[..|b| - 1], ticker);
      assert (a + b)[..|a + b| - 1] == a + b[..|b| - 1];
    }
  }

  /** Appending downloaded rows keeps every cached row of the ticker and adds
      exactly the downloaded ones. */
  lemma AppendKeepsCachedRows(rows: seq<HistoricalEquity>, ticker: Ticker, records: seq<Record>)
    ensures multiset(Query(rows + ToRows(ticker, records), ticker))
         == multiset(Query(rows, ticker)) + multiset(ToRows(ticker, records))
  {
    var added := ToRows(ticker, records);
    TickerRowsAppend(rows, added, ticker);
    TickerRowsMembers(added, ticker);
    AllOfTicker(added, ticker);
  }

  lemma {:induction false} AllOfTicker(rows: seq<HistoricalEquity>, ticker: Ticker)
    requires forall i :: 0 <= i < |rows| ==> rows[i].ticker == ticker
    ensures TickerRows(rows, ticker) == rows
  {
    if rows != [] {
      AllOfTicker(rows[..|rows| - 1], ticker);
      assert rows == rows[..|rows| - 1] + [rows[|rows| - 1]];
    }
  }

  /** Downloading from the day after the latest cached date cannot collide
      with the cache: when every downloaded date is later than the cached
      ones and no date repeats, the table stays unique. */
  lemma NewerRowsKeepKeysUnique(rows: seq<HistoricalEquity>, ticker: Ticker, records: seq<Record>)
    requires KeysUnique(rows)
    requires forall i, j :: 0 <= i < j < |records| ==> records[i].date != records[j].date
    requires forall i, h :: 0 <= i < |records| && h in rows && h.ticker == ticker ==> records[i].date > h.date
    ensures KeysUnique(rows + ToRows(ticker, records))
  {
    var added := ToRows(ticker, records);
    var all := rows + added;
    forall i, j | 0 <= i < j < |all| ensures all[i].ticker != all[j].ticker || all[i].date != all[j].date {
      if j >= |rows| && i < |rows| {
        assert all[i] in rows;
        assert all[j] == added[j - |rows|];
      } else if i >= |rows| {
        assert all[i] == added[i - |rows|] && all[j] == added[j - |rows|];
      }
    }
  }

  /** The `HistoricalEquity` table. */
  class HistoricalEquityTable {
    var rows: seq<HistoricalEquity>

    predicate Valid()
      reads this
    {
      KeysUnique(rows)
    }

    constructor ()
      ensures rows == [] && Valid()
    {
      rows := [];
    }

    /** `_add_historical_ticker_data`: an empty download adds nothing; otherwise
        one equity row per record is inserted in a single statement, which
        fails as a whole when a (ticker, date) pair would repeat. */
    method AddHistoricalTickerData(ticker: Ticker, records: seq<Record>) returns (r: Result<(), string>)
      requires Valid()
      modifies this
      ensures Valid()
      ensures records == [] ==> r.Success? && rows == old(rows)
      ensures r.Success? <==> KeysUnique(old(rows) + ToRows(ticker, records))
      ensures r.Success? ==> rows == old(rows) + ToRows(ticker, records)
      ensures r.Failure? ==> rows == old(rows) && r.error == IntegrityError
    {
      if records == [] {
        assert rows + ToRows(ticker, records) == rows;
        return Success(());
      }
      var created := ToRows(ticker, records);
      if !KeysUnique(rows + created) {
        return Failure(IntegrityError);
      }
      rows := rows + created;
      r := Success(());
    }

    /** `get_ticker`: the ticker's rows by date, after downloading the period
        `Download` names, if any. A failed insert is reported and leaves the
        table as it was. */
    method GetTicker(ticker: Ticker, now: Instant, marketOpen: bool, fetch: Fetch)
      returns (r: Result<seq<HistoricalEquity>, string>)
      requires Valid()
      modifies this
      ensures Valid()
      ensures Download(old(rows), ticker, now, marketOpen).None? ==>
        rows == old(rows) && r == Success(Query(rows, ticker))
      ensures Download(old(rows), ticker, now, marketOpen).Some? ==>
        Refreshed(old(rows), rows, r, ToRows(ticker, fetch(ticker, Download(old(rows), ticker, now, marketOpen).value)))
      ensures r.Success? ==> r.value == Query(rows, ticker)
    {
      var period := Download(rows, ticker, now, marketOpen);
      if period.None? {
        return Success(Query(rows, ticker));
      }
      var df := fetch(ticker, period.value);
      var added := AddHistoricalTickerData(ticker, df);
      if added.Failure? {
        return Failure(added.error);
      }
      r := Success(Query(rows, ticker));
    }
  }

  /** The outcome of inserting `added`: the rows are appended and the
      ticker's rows returned, or, when a (ticker, date) pair would repeat,
      the table is unchanged and the integrity error reported. */
  ghost predicate Refreshed(before: seq<HistoricalEquity>, after: seq<HistoricalEquity>,
                            r: Result<seq<HistoricalEquity>, string>, added: seq<HistoricalEquity>)
  {
    if KeysUnique(before + added)
    then after == before + added && r.Success?
    else after == before && r == Failure(IntegrityError)
  }

  /** What `get_ticker` downloads: the whole history of a ticker with no
      rows; the history from the day after the latest row when that row
      predates today's date and the exchange is open; otherwise nothing. */
  function Download(rows: seq<HistoricalEquity>, ticker: Ticker, now: Instant, marketOpen: bool): Option<Period>
  {
    match Latest(rows, ticker)
    case None => Some(Max)
    case Some(d) => if DayOf(now) > d && marketOpen then Some(Since(d + 1)) else None
  }

  /** A refresh downloads the full history exactly when nothing is cached for
      the ticker, and otherwise only the dates after the newest cached row,
      starting the day after it; a ticker with a row dated today or later, or
      any cached ticker while the exchange is closed, is not downloaded. */
  lemma DownloadStartsAfterCache(rows: seq<HistoricalEquity>, ticker: Ticker, now: Instant, marketOpen: bool)
    ensures Download(rows, ticker, now, marketOpen) == Some(Max) <==> forall h :: h in rows ==> h.ticker != ticker
    ensures (exists h :: h in rows && h.ticker == ticker && h.date >= DayOf(now)) ==>
            Download(rows, ticker, now, marketOpen).None?
    ensures (exists h :: h in rows && h.ticker == ticker) && !marketOpen ==>
            Download(rows, ticker, now, marketOpen).None?
    ensures Download(rows, ticker, now, marketOpen).Some? && Download(rows, ticker, now, marketOpen).value.Since? ==>
            var s := Download(rows, ticker, now, marketOpen).value.start;
            s <= DayOf(now)
            && (exists h :: h in rows && h.ticker == ticker && h.date == s - 1)
            && forall h :: h in rows && h.ticker == ticker ==> h.date < s
  {
    LatestIsNewest(rows, ticker);
  }

  // ---------------------------------------------------------------------
  // display_items
  // ---------------------------------------------------------------------

  /** One `key=value` label. */
  datatype DisplayItem = DateItem(date: Day) | ProfileItem(fullName: string) | TickerItem(ticker: Ticker)
                       | CashItem(action: string, price: real)

  /** A `Transaction` (or `PortfolioItem`) row as `display_items` reads it. */
  datatype Transaction = Transaction(itemType: ItemType, ticker: Ticker, date: Day, profileName: string,
                                     quantity: int, price: real)

  /** `Transaction.display_items` (and the identical `PortfolioItem` one): the
      date, then the profile's full name, then the ticker for an equity item,
      or "deposit" (positive quantity) / "withdrawal" (otherwise) with the
      price for a cash item. */
  method TransactionDisplayItems(t: Transaction) returns (items: seq<DisplayItem>)
    ensures |items| == 3 && items[0] == DateItem(t.date) && items[1] == ProfileItem(t.profileName)
    ensures t.itemType == Equity ==> items[2] == TickerItem(t.ticker)
    ensures IsCash(t.itemType) ==> items[2] == CashItem(if t.quantity > 0 then "deposit" else "withdrawal", t.price)
  {
    items := [DateItem(t.date)];
    items := items + [ProfileItem(t.profileName)];
    if t.itemType == Equity {
      items := items + [TickerItem(t.ticker)];
    } else if IsCash(t.itemType) {
      var action := if t.quantity > 0 then "deposit" else "withdrawal";
      items := items + [CashItem(action, t.price)];
    }
  }

  /** `HistoricalEquity.display_items`: the date, then the ticker for an
      equity row. */
  method HistoricalEquityDisplayItems(h: HistoricalEquity) returns (items: seq<DisplayItem>)
    ensures |items| >= 1 && items[0] == DateItem(h.date)
    ensures h.itemType == Equity <==> items == [DateItem(h.date), TickerItem(h.ticker)]
    ensures h.itemType != Equity ==> items == [DateItem(h.date)]
  {
    items := [DateItem(h.date)];
    if h.itemType == Equity {
      items := items + [TickerItem(h.ticker)];
    }
  }
}
