/** The ledger side of the add-transaction view: the sell and withdrawal
    checks, the field checks the CSV import uses, the rule turning a CSV
    AMOUNT into an action, and the entries the stock branch and the CSV
    import save. The quote service and the clock are parameters. */
module AddTransaction {
  import opened Wrappers
  import opened Ledger
  import opened Market
  import TransactionForms

  // ---------------------------------------------------------------------
  // Sell check
  // ---------------------------------------------------------------------

  /** What one stored entry adds to the shares of `ticker` held before
      `time`: only entries of that ticker strictly earlier than `time` count,
      "buy" adding its quantity and any other action subtracting it. */
  function SharesBeforeOf(s: StockTxn, ticker: Ticker, time: Instant): int
  {
    if s.ticker == ticker && s.time < time then
      (if s.action == "buy" then s.quantity else -s.quantity)
    else 0
  }

  /** Shares of `ticker` held before `time`, from the stored entries. */
  function HeldBefore(stocks: seq<StockTxn>, ticker: Ticker, time: Instant): int
  {
    if stocks == [] then 0
    else HeldBefore(stocks[..|stocks| - 1], ticker, time) + SharesBeforeOf(stocks[|stocks| - 1], ticker, time)
  }

  /** `_validate_sell_transaction`: a sale of `quantity` shares is accepted
      exactly when at least that many were held before its timestamp. */
  method ValidateSell(stocks: seq<StockTxn>, ticker: Ticker, time: Instant, quantity: int) returns (ok: bool)
    ensures ok <==> HeldBefore(stocks, ticker, time) >= quantity
  {
    var currentQuantity := 0;
    var i := 0;
    while i < |stocks|
      invariant 0 <= i <= |stocks|
      invariant currentQuantity == HeldBefore(stocks[..i], ticker, time)
    {
      var s := stocks[i];
      // the ticker test is the query's `filter(ticker=ticker)`
      if s.ticker == ticker && s.time < time {
        if s.action == "buy" {
          currentQuantity := currentQuantity + s.quantity;
        } else {
          currentQuantity := currentQuantity - s.quantity;
        }
      }
      assert stocks[..i + 1][..i] == stocks[..i];
      i := i + 1;
    }
    assert stocks[..i] == stocks;
    ok := !(currentQuantity < quantity);
  }

  lemma {:induction false} HeldBeforeSplit(a: seq<StockTxn>, b: seq<StockTxn>, ticker: Ticker, time: Instant)
    ensures HeldBefore(a + b, ticker, time) == HeldBefore(a, ticker, time) + HeldBefore(b, ticker, time)
  {
    if b == [] {
      assert a + b == a;
    } else {
      HeldBeforeSplit(a, b[..|b| - 1], ticker, time);
      assert (a + b)[..|a + b| - 1] == a + b[..|b| - 1];
    }
  }

  /** An entry of another ticker, or one not strictly earlier than the new
      entry (in particular one with the same timestamp), does not count. */
  lemma HeldBeforeIgnores(a: seq<StockTxn>, e: StockTxn, b: seq<StockTxn>, ticker: Ticker, time: Instant)
    requires e.ticker != ticker || e.time >= time
    ensures HeldBefore(a + [e] + b, ticker, time) == HeldBefore(a + b, ticker, time)
  {
    HeldBeforeSplit(a + [e], b, ticker, time);
    HeldBeforeSplit(a, [e], ticker, time);
    HeldBeforeSplit(a, b, ticker, time);
    assert [e][..0] == [];
  }

  /** Removing one item of a sequence removes one occurrence from its multiset. */
  lemma RemoveOne<T>(b: seq<T>, k: nat)
    requires k < |b|
    ensures multiset(b[..k] + b[k + 1..]) == multiset(b) - multiset{b[k]}
  {
    assert b == b[..k] + [b[k]] + b[k + 1..];
  }

  lemma HeldBeforeRemove(b: seq<StockTxn>, k: nat, ticker: Ticker, time: Instant)
    requires k < |b|
    ensures HeldBefore(b, ticker, time)
         == HeldBefore(b[..k] + b[k + 1..], ticker, time) + SharesBeforeOf(b[k], ticker, time)
  {
    assert b == b[..k] + [b[k]] + b[k + 1..];
    HeldBeforeSplit(b[..k] + [b[k]], b[k + 1..], ticker, time);
    HeldBeforeSplit(b[..k], [b[k]], ticker, time);
    HeldBeforeSplit(b[..k], b[k + 1..], ticker, time);
    assert [b[k]][..0] == [];
  }

  /** The order in which the query returns the entries does not matter. */
  lemma {:induction false} HeldBeforeOrderFree(a: seq<StockTxn>, b: seq<StockTxn>, ticker: Ticker, time: Instant)
    requires multiset(a) == multiset(b)
    ensures HeldBefore(a, ticker, time) == HeldBefore(b, ticker, time)
  {
    if a == [] {
      assert |b| == |multiset(b)| == 0;
    } else {
      var init := a[..|a| - 1];
      var x := a[|a| - 1];
      assert x in multiset(b) by {
        assert x in a;
      }
      var k :| 0 <= k < |b| && b[k] == x;
      var rest := b[..k] + b[k + 1..];
      assert multiset(init) == multiset(rest) by {
        RemoveOne(a, |a| - 1);
        RemoveOne(b, k);
        assert a[..|a| - 1] + a[|a|..] == init;
      }
      HeldBeforeOrderFree(init, rest, ticker, time);
      HeldBeforeRemove(b, k, ticker, time);
    }
  }

  // ---------------------------------------------------------------------
  // Withdrawal check
  // ---------------------------------------------------------------------

  /** What one stored cash entry adds to the cash held before `time`: only
      entries strictly earlier than `time` count, "deposit" adding its value
      and any other action subtracting it. */
  function CashBeforeOf(c: CashTxn, time: Instant): real
  {
    if c.time < time then (if c.action == "deposit" then c.value else -c.value) else 0.0
  }

  /** Cash held before `time`, from the stored cash entries. */
  function CashBefore(cash: seq<CashTxn>, time: Instant): real
  {
    if cash == [] then 0.0
    else CashBefore(cash[..|cash| - 1], time) + CashBeforeOf(cash[|cash| - 1], time)
  }

  /** `_validate_withdraw_transaction`: a withdrawal is accepted exactly when
      the cash held before its timestamp covers it (equality included). */
  method ValidateWithdraw(cash: seq<CashTxn>, value: real, time: Instant) returns (ok: bool)
    ensures ok <==> CashBefore(cash, time) >= value
  {
    var currentCashAmount := 0.0;
    var i := 0;
    while i < |cash|
      invariant 0 <= i <= |cash|
      invariant currentCashAmount == CashBefore(cash[..i], time)
    {
      var c := cash[i];
      if c.time < time {
        if c.action == "deposit" {
          currentCashAmount := currentCashAmount + c.value;
        } else {
          currentCashAmount := currentCashAmount - c.value;
        }
      }
      assert cash[..i + 1][..i] == cash[..i];
      i := i + 1;
    }
    assert cash[..i] == cash;
    ok := !(currentCashAmount < value);
  }

  lemma {:induction false} CashBeforeSplit(a: seq<CashTxn>, b: seq<CashTxn>, time: Instant)
    ensures CashBefore(a + b, time) == CashBefore(a, time) + CashBefore(b, time)
  {
    if b == [] {
      assert a + b == a;
    } else {
      CashBeforeSplit(a, b[..|b| - 1], time);
      assert (a + b)[..|a + b| - 1] == a + b[..|b| - 1];
    }
  }

  /** A cash entry not strictly earlier than the withdrawal does not count. */
  lemma CashBeforeIgnores(a: seq<CashTxn>, e: CashTxn, b: seq<CashTxn>, time: Instant)
    requires e.time >= time
    ensures CashBefore(a + [e] + b, time) == CashBefore(a + b, time)
  {
    CashBeforeSplit(a + [e], b, time);
    CashBeforeSplit(a, [e], time);
    CashBeforeSplit(a, b, time);
    assert [e][..0] == [];
  }

  // ---------------------------------------------------------------------
  // Field checks
  // ---------------------------------------------------------------------

  /** `_clean_action`: only the lower-case words "buy" and "sell". */
  function CleanAction(action: string): (r: bool)
    ensures r <==> action == "buy" || action == "sell"
  {
    !(action != "buy" && action != "sell")
  }

  /** `_clean_price`: false when the quote service has no bar for the date,
      false when the price is below the low or above the high, true otherwise. */
  function CleanPrice(q: Quotes, ticker: Ticker, day: Day, today: Day, price: real): (r: bool)
    ensures r <==> exists b :: BarFor(q, ticker, day, today) == Some(b) && b.low <= price <= b.high
  {
    var bar := BarFor(q, ticker, day, today);
    if bar.None? then false
    else if price < bar.value.low || bar.value.high < price then false
    else true
  }

  /** The view's price check and the stock form's `clean` accept the same
      prices. */
  lemma CleanPriceAgreesWithForm(q: Quotes, ticker: Ticker, time: Instant, price: real, today: Day)
    ensures CleanPrice(q, ticker, DayOf(time), today, price) <==> TransactionForms.StockFormClean(q, ticker, time, price, today).Success?
  {
  }

  /** The CSV rule: a negative AMOUNT is a purchase, any other AMOUNT
      (zero included) a sale. */
  function CsvAction(amount: real): (r: string)
    ensures r == "buy" <==> amount < 0.0
    ensures r == "sell" <==> amount >= 0.0
  {
    if amount < 0.0 then "buy" else "sell"
  }

  // ---------------------------------------------------------------------
  // CSV rows
  // ---------------------------------------------------------------------

  /** How checking one CSV row ends: accepted, rejected (the check returned
      False), or a raised validation error, which ends the whole import. */
  datatype CsvCheck = Accepted | Rejected | Raised(message: string)

  /** The clock: the current instant, and today's date. */
  datatype Clock = Clock(now: Instant, today: Day)

  /** `_validate_csv_element` as written: it looks the action word up as a
      ticker and checks the price against the action word's bar. Falsy
      results (an empty string, a zero quantity) count as failures. */
  function ValidateCsvElementAsWritten(q: Quotes, clock: Clock, action: string, ticker: Ticker, time: Instant,
                                       price: real, quantity: int): (r: CsvCheck)
    ensures q.latest(action).None? ==> r == Raised(TransactionForms.InvalidTicker)
    ensures r == Accepted ==> q.latest(action).Some? && BarFor(q, action, DayOf(time), clock.today).Some?
  {
    var validAction := TransactionForms.CleanTicker(q, action);
    if validAction.Failure? then Raised(validAction.error)
    else if validAction.value == "" then Rejected
    else
      var validTicker := TransactionForms.CleanTicker(q, ticker);
      if validTicker.Failure? then Raised(validTicker.error)
      else if validTicker.value == "" then Rejected
      else
        var validDateTime := TransactionForms.CleanStockDateTime(time, clock.now);
        if validDateTime.Failure? then Raised(validDateTime.error)
        else if !CleanPrice(q, action, DayOf(time), clock.today, price) then Rejected
        else
          var validQuantity := TransactionForms.CleanQuantity(quantity);
          if validQuantity.Failure? then Raised(validQuantity.error)
          else if validQuantity.value == 0 then Rejected
          else Accepted
  }

  /** `_validate_csv_element` with the action checked by `_clean_action` and
      the price checked against the ticker's bar. */
  function ValidateCsvElement(q: Quotes, clock: Clock, action: string, ticker: Ticker, time: Instant,
                              price: real, quantity: int): (r: CsvCheck)
    ensures r == Accepted <==>
      && CleanAction(action)
      && q.latest(ticker).Some? && ticker != ""
      && time <= clock.now
      && CleanPrice(q, ticker, DayOf(time), clock.today, price)
      && quantity > 0
    ensures r.Raised? ==> q.latest(ticker).None? || time > clock.now || quantity < 0
    ensures r.Raised? ==> r.message in {TransactionForms.InvalidTicker, TransactionForms.FutureDateTime, TransactionForms.NegativeQuantity}
  {
    if !CleanAction(action) then Rejected
    else
      var validTicker := TransactionForms.CleanTicker(q, ticker);
      if validTicker.Failure? then Raised(validTicker.error)
      else if validTicker.value == "" then Rejected
      else
        var validDateTime := TransactionForms.CleanStockDateTime(time, clock.now);
        if validDateTime.Failure? then Raised(validDateTime.error)
        else if !CleanPrice(q, ticker, DayOf(time), clock.today, price) then Rejected
        else
          var validQuantity := TransactionForms.CleanQuantity(quantity);
          if validQuantity.Failure? then Raised(validQuantity.error)
          else if validQuantity.value == 0 then Rejected
          else Accepted
  }

  /** A quote service that knows one ticker, "AAPL", trading between 100 and
      110 on every date. */
  function OneTickerQuotes(): Quotes
  {
    Quotes(t => if t == "AAPL" then Some(Bar(100.0, 110.0)) else None,
           (t, d) => if t == "AAPL" then Some(Bar(100.0, 110.0)) else None)
  }

  /** A well-formed purchase of one AAPL share at 105 ends the import with
      "Invalid ticker" as written, because "buy" is looked up as a ticker; the
      corrected check accepts it. */
  lemma CsvCheckLooksUpTheAction()
    ensures ValidateCsvElementAsWritten(OneTickerQuotes(), Clock(0, 0), "buy", "AAPL", 0, 105.0, 1) == Raised(TransactionForms.InvalidTicker)
    ensures ValidateCsvElement(OneTickerQuotes(), Clock(0, 0), "buy", "AAPL", 0, 105.0, 1) == Accepted
  {
    var q := OneTickerQuotes();
    assert q.latest("buy") == None;
    assert q.latest("AAPL") == Some(Bar(100.0, 110.0));
    assert BarFor(q, "AAPL", DayOf(0), 0) == Some(Bar(100.0, 110.0));
  }

  /** One CSV row, its DATE read as a calendar date. */
  datatype CsvRow = CsvRow(date: Day, amount: real, symbol: Ticker, price: real, quantity: int)

  /** The entry a row becomes: its action from AMOUNT, dated at midnight. */
  function RowEntry(row: CsvRow): StockTxn
  {
    StockTxn(CsvAction(row.amount), row.symbol, row.date * SecondsPerDay, row.price, row.quantity)
  }

  /** The row check of the import, with the corrected `ValidateCsvElement`
      (the as-written check is `RowCheckAsWritten`). */
  function RowCheck(q: Quotes, clock: Clock, row: CsvRow): CsvCheck
  {
    var e := RowEntry(row);
    ValidateCsvElement(q, clock, e.action, e.ticker, e.time, e.price, e.quantity)
  }

  /** The entries an import saves: each accepted row in file order, up to the
      first row whose check raises. */
  function Imported(q: Quotes, clock: Clock, rows: seq<CsvRow>): seq<StockTxn>
  {
    if rows == [] then []
    else
      var check := RowCheck(q, clock, rows[0]);
      if check.Raised? then []
      else if check == Accepted then [RowEntry(rows[0])] + Imported(q, clock, rows[1..])
      else Imported(q, clock, rows[1..])
  }

  /** The row check `_add_data_from_csv` runs as written. */
  function RowCheckAsWritten(q: Quotes, clock: Clock, row: CsvRow): CsvCheck
  {
    var e := RowEntry(row);
    ValidateCsvElementAsWritten(q, clock, e.action, e.ticker, e.time, e.price, e.quantity)
  }

  /** The entries the import saves as written: the same walk as `Imported`,
      with the as-written row check. */
  function ImportedAsWritten(q: Quotes, clock: Clock, rows: seq<CsvRow>): seq<StockTxn>
  {
    if rows == [] then []
    else
      var check := RowCheckAsWritten(q, clock, rows[0]);
      if check.Raised? then []
      else if check == Accepted then [RowEntry(rows[0])] + ImportedAsWritten(q, clock, rows[1..])
      else ImportedAsWritten(q, clock, rows[1..])
  }

  /** As written, when the quote service knows neither "buy" nor "sell" as a
      ticker, the first row raises "Invalid ticker" and no row of the file is
      saved, whatever the rows hold; the corrected import saves every
      accepted row before the first raise. */
  lemma AsWrittenImportSavesNothing(q: Quotes, clock: Clock, rows: seq<CsvRow>)
    requires rows != []
    requires q.latest("buy").None? && q.latest("sell").None?
    ensures RowCheckAsWritten(q, clock, rows[0]) == Raised(TransactionForms.InvalidTicker)
    ensures ImportedAsWritten(q, clock, rows) == []
  {
    assert RowEntry(rows[0]).action in {"buy", "sell"};
  }

  /** Rows after the first raising one are never looked at. */
  lemma {:induction false} ImportStopsAtRaise(q: Quotes, clock: Clock, a: seq<CsvRow>, r: CsvRow, b: seq<CsvRow>)
    requires forall i :: 0 <= i < |a| ==> !RowCheck(q, clock, a[i]).Raised?
    requires RowCheck(q, clock, r).Raised?
    ensures Imported(q, clock, a + [r] + b) == Imported(q, clock, a)
  {
    if a != [] {
      ImportStopsAtRaise(q, clock, a[1..], r, b);
      assert (a + [r] + b)[1..] == a[1..] + [r] + b;
    }
  }

  /** Before any raise, each further row adds its entry exactly when accepted. */
  lemma {:induction false} ImportedSnoc(q: Quotes, clock: Clock, a: seq<CsvRow>, r: CsvRow)
    requires forall i :: 0 <= i < |a| ==> !RowCheck(q, clock, a[i]).Raised?
    requires !RowCheck(q, clock, r).Raised?
    ensures Imported(q, clock, a + [r])
         == Imported(q, clock, a) + (if RowCheck(q, clock, r) == Accepted then [RowEntry(r)] else [])
  {
    if a == [] {
      assert [r][1..] == [];
    } else {
      ImportedSnoc(q, clock, a[1..], r);
      assert (a + [r])[1..] == a[1..] + [r];
    }
  }

  /** Every imported entry comes from an accepted row, with the action the
      AMOUNT rule gives. */
  lemma {:induction false} ImportedAreAccepted(q: Quotes, clock: Clock, rows: seq<CsvRow>, j: nat)
    requires j < |Imported(q, clock, rows)|
    ensures exists i :: (0 <= i < |rows| && RowCheck(q, clock, rows[i]) == Accepted
                         && Imported(q, clock, rows)[j] == RowEntry(rows[i]))
  {
    var check := RowCheck(q, clock, rows[0]);
    assert !check.Raised?;
    assert Imported(q, clock, rows)
        == (if check == Accepted then [RowEntry(rows[0])] else []) + Imported(q, clock, rows[1..]);
    if check == Accepted && j == 0 {
      assert Imported(q, clock, rows)[0] == RowEntry(rows[0]);
    } else {
      var j' := if check == Accepted then j - 1 else j;
      ImportedAreAccepted(q, clock, rows[1..], j');
      var i :| 0 <= i < |rows[1..]| && RowCheck(q, clock, rows[1..][i]) == Accepted
               && Imported(q, clock, rows[1..])[j'] == RowEntry(rows[1..][i]);
      assert rows[i + 1] == rows[1..][i];
    }
  }

  /** A file name the import accepts. */
  predicate IsCsvName(name: string)
  {
    |name| >= 4 && name[|name| - 4..] == ".csv"
  }

  // ---------------------------------------------------------------------
  // Saving entries
  // ---------------------------------------------------------------------

  /** The stock and cash entries stored for one profile. */
  class Store {
    var stocks: seq<StockTxn>
    var cash: seq<CashTxn>

    constructor ()
      ensures stocks == [] && cash == []
    {
      stocks := [];
      cash := [];
    }

    /** The stock branch of `transaction_input`, once the form is valid: a
        sale is checked against the shares held before it; a sale that fails
        saves nothing; a sale that passes first saves a cash entry worth
        price times quantity (its action and time are the cash model's
        defaults, given here), then the stock entry. */
    method SubmitStock(entry: StockTxn, pairedAction: string, pairedTime: Instant) returns (saved: bool)
      modifies this
      ensures saved <==> entry.action != "sell" || HeldBefore(old(stocks), entry.ticker, entry.time) >= entry.quantity
      ensures saved ==> stocks == old(stocks) + [entry]
      ensures saved ==> cash == old(cash) + (if entry.action == "sell"
                                             then [CashTxn(pairedAction, pairedTime, entry.price * entry.quantity as real)]
                                             else [])
      ensures !saved ==> stocks == old(stocks) && cash == old(cash)
    {
      if entry.action == "sell" {
        var ok := ValidateSell(stocks, entry.ticker, entry.time, entry.quantity);
        if !ok {
          return false;
        }
        cash := cash + [CashTxn(pairedAction, pairedTime, entry.price * entry.quantity as real)];
      }
      stocks := stocks + [entry];
      saved := true;
    }

    /** `_add_data_from_csv` with the corrected row check: nothing for a file
        whose name does not end in ".csv"; otherwise each row, in order,
        becomes an entry when its check accepts it, and the first raising
        check ends the import. */
    method ImportCsv(fileName: string, rows: seq<CsvRow>, q: Quotes, clock: Clock)
      modifies this
      ensures stocks == old(stocks) + (if IsCsvName(fileName) then Imported(q, clock, rows) else [])
      ensures cash == old(cash)
    {
      if !(|fileName| >= 4 && fileName[|fileName| - 4..] == ".csv") {
        return;
      }
      var i := 0;
      while i < |rows|
        invariant 0 <= i <= |rows|
        invariant forall k :: 0 <= k < i ==> !RowCheck(q, clock, rows[k]).Raised?
        invariant stocks == old(stocks) + Imported(q, clock, rows[..i])
        invariant cash == old(cash)
      {
        var row := rows[i];
        var action := CsvAction(row.amount);
        var check := ValidateCsvElement(q, clock, action, row.symbol, row.date * SecondsPerDay, row.price, row.quantity);
        assert rows == rows[..i] + [row] + rows[i + 1..];
        if check.Raised? {
          ImportStopsAtRaise(q, clock, rows[..i], row, rows[i + 1..]);
          return;
        }
        ImportedSnoc(q, clock, rows[..i], row);
        assert rows[..i + 1] == rows[..i] + [row];
        if check == Accepted {
          stocks := stocks + [StockTxn(action, row.symbol, row.date * SecondsPerDay, row.price, row.quantity)];
        }
        i := i + 1;
      }
      assert rows[..i] == rows;
    }
  }
}
