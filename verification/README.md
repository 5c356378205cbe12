# portfoliohut core in Dafny

This project models the core of portfoliohut, a stock-portfolio tracking web
application, and proves properties of that model. It covers:

- **the returns engine.** `_calc_returns` walks every calendar day from a
  user's first trade to today. It keeps a ticker-to-shares dictionary and a
  running total of sale proceeds, and marks the holdings to market. Each day
  gives one return, `(balance - (prev + proceeds today)) / (prev + proceeds today)`.
  The leading zero or undefined returns are then trimmed. The returns are
  compounded by `get_cumulative_returns` and `get_most_recent_return`.
- **holdings and cash balance.** `get_portfolio_details` computes them, and
  `top_stocks` reads off the largest positions.
- **the ledger validators of the add-transaction view.**
  - Sell check: shares held strictly before the entry's timestamp.
  - Withdrawal check: cash held strictly before the entry's timestamp.
  - Field checks.
  - The CSV rule that turns AMOUNT into an action, and the CSV import loop.
  - The sell/cash pairing when a stock form is submitted.
- **the leaderboard.** The ranking annotates profiles with their return in
  percent, sorts them stably from highest return down, assigns ranks
  `1..n` and reports the current user's 0-based position.
- **the price-history cache.** It is a table that is unique on
  (ticker, date) and ordered by date. The refresh rule:
  - download the whole history when the ticker is absent;
  - when the cache is stale and the exchange is open, download from the day
    after the latest cached date and append it;
  - otherwise leave the table alone.

  The `display_items` labels of the financial items live in the same file.
- **the form cleaners.** Stock form, cash form, login and registration
  forms, and the profile form.
- **the valuation fold of `finance.py`.**

Entities that the source updates in place are classes:
- the leaderboard's `Profile` (its `returns` and `rank` attributes);
- the `HistoricalEquity` table;
- the stored ledger, where the add-transaction view saves entries.

The day loop, the portfolio-details loop, the sell and withdrawal loops and
the valuation loop are methods with loop invariants. Each is proved equal to
a recursive specification function, and the source's promises are lemmas
about those functions.

Market data, the clock and the exchange calendar are parameters:
- `PriceLookup` is the forward-filled close price of a ticker on a day;
- `Quotes` gives the one-day bar and the bar of a given date;
- `InfoLookup` is the previous close and website of a ticker;
- `Fetch` downloads a ticker's history;
- `Clock`, `now` and `today` are the clock;
- `marketOpen` says whether the exchange is open.

Timestamps are integer seconds and a date is `t / 86400`. Prices and returns
are `real`. A NaN return is `None`.

Python's dictionaries keep insertion order, so a `dict` is a sequence of
`(ticker, shares)` positions with unique tickers. Python's `sorted` is stable,
so it is a stable insertion sort, `Sorting.SortDesc`. Ascending orders
(`order_by("date_time")`, `ordering = ("date",)`) are that sort on the negated
key.

Modules:
- `Wrappers`: Option and Result.
- `Ledger`: stock and cash entries, the dictionary.
- `Sorting`: stable sort, permutation, order and stability.
- `Returns`: `models/profile.py`, returns.
- `Holdings`: `models/profile.py`, details and top stocks.
- `Finance`: `finance.py`.
- `Market`: the quote parameter.
- `TransactionForms`: `forms/transactions.py`.
- `AddTransaction`: `views/add_transaction.py`.
- `Leaderboard`: `views/base.py`.
- `PriceHistory`: `models/transactions.py`.
- `AccountForms`: `forms/account_management.py`.
- `ProfileForms`: `forms/profile.py`.

## Model

| member | source | states |
|---|---|---|
| Ledger.AddShares | portfoliohut/models/profile.py:124 | `portfolio[ticker] += n` on a `defaultdict(int)`: the ticker's shares grow by n and every other ticker's stay. The key set gains the ticker, and is appended only when the ticker is new. Keys stay unique. |
| Returns.Trim | portfoliohut/models/profile.py:161-168 | The result is a suffix of the daily series. It starts at a defined non-zero return, and every dropped entry is zero or undefined. When no return is defined and non-zero, everything is dropped. |
| Returns.ApplyEntriesOn | portfoliohut/models/profile.py:117-126 | The inner loop over the entries leaves the dictionary as the function `ApplyDay` (that day's net shares added per ticker) and its cash as that day's sale proceeds. |
| Returns.CalcReturns | portfoliohut/models/profile.py:82-168 | The day loop with its inner loop over entries computes exactly the trimmed daily series of the function `RunDays`/`DailySeries`. |
| Returns.GetReturns | portfoliohut/models/profile.py:182-197 | The series is empty for a profile without stock entries. Otherwise it is the engine run over the entries ordered by time. |
| Returns.CumulativeAt | portfoliohut/models/profile.py:199-200 | The compounded series has one entry per day. Position k keeps the day and holds prod over i<=k of (1 + r_i), minus 1. Undefined returns are skipped in the product and stay undefined. |
| Returns.MostRecent | portfoliohut/models/profile.py:202-207 | The value is undefined for an empty series. Otherwise it is the last cumulative value. |
| Returns.GetCumulativeReturns | portfoliohut/models/profile.py:199-200 | The method returns the compounded returns series. |
| Returns.GetMostRecentReturn | portfoliohut/models/profile.py:202-207 | The method returns the last compounded value, undefined when there is none. |
| Returns.SeriesAt | portfoliohut/models/profile.py:100-158 | The walk emits exactly one entry per day, dated `start + k`, and a longer walk extends a shorter one. |
| Returns.QuietDay | portfoliohut/models/profile.py:117-127 | A day without entries changes no holdings and locks in no cash. |
| Returns.IdleDaysUndefined | portfoliohut/models/profile.py:132-135 | Days before any trade give undefined returns. They leave the dictionary empty and record no previous balance. |
| Returns.ApplyDayShares | portfoliohut/models/profile.py:118-124 | Applying a day adds that day's net shares (buys minus everything else) of every ticker. All of a day's trades land before the day is valued. |
| Returns.SharesHeld | portfoliohut/models/profile.py:116-124 | After n days, each ticker's shares are the "buy" quantities minus all other quantities of its entries dated on or before the last day. |
| Returns.HoldingsOnDay | portfoliohut/models/profile.py:98-124 | For a time-ordered ledger, this holds on every day of the walk, counted from the first entry's date. |
| Returns.ChronologicalFromFirstDay | portfoliohut/models/profile.py:85-98 | In a time-ordered ledger no entry predates the first entry's date. |
| Returns.ApplyDayKeys | portfoliohut/models/profile.py:124 | A day adds that day's tickers to the dictionary's keys and keeps them unique. |
| Returns.KeysHeld | portfoliohut/models/profile.py:101-124 | The dictionary's keys are exactly the tickers traded so far, each once. |
| Returns.ValuedFromFirstDay | portfoliohut/models/profile.py:133-135 | From the first day of the walk on, the dictionary is non-empty, so no later day takes the "nothing yet" branch. |
| Returns.SaleCashHeld | portfoliohut/models/profile.py:117-130 | The running sale cash is the proceeds (quantity times price) of every "sell" dated up to the current day. Buys never change it. |
| Returns.ProceedsNonNegative | portfoliohut/models/profile.py:125-126 | With non-negative quantities and prices, one day's proceeds are non-negative. |
| Returns.SaleCashNeverDecreases | portfoliohut/models/profile.py:128-130 | Sale cash never decreases from one day to the next. |
| Returns.DailyReturnAt | portfoliohut/models/profile.py:138-159 | The series has one entry per day from the first trade to today. Day 0 is undefined, because it has no previous balance. Each later day is (balance - (previous balance + that day's proceeds)) divided by (previous balance + proceeds), and undefined when that is zero. |
| Returns.MarketValueIsValuation | portfoliohut/models/profile.py:138-149 | The dictionary's market value equals the sum of net shares times price over its keys. |
| Returns.BalanceClosedForm | portfoliohut/models/profile.py:138-149 | For a time-ordered ledger, the k-th day's balance is the sum, over the tickers traded so far (each once), of net shares times that day's price, plus all sale proceeds so far. |
| Returns.ByTimeIsChronological | portfoliohut/models/profile.py:183 | `order_by("date_time")` gives a permutation of the entries in non-decreasing time order. |
| Returns.CumulativeCompounds | portfoliohut/models/profile.py:200 | 1 + c[k] == (1 + c[k-1]) * (1 + r[k]) whenever both returns are defined. |
| Holdings.UpperMatches | portfoliohut/models/profile.py:217-226 | `action.upper() == "BUY"` holds exactly when the action spells the word with each letter in either case. |
| Holdings.GetPortfolioDetails | portfoliohut/models/profile.py:209-232 | The two loops compute the folds `StockFold` and `CashFold`, and the details and total are `get_current_prices` of the resulting holdings. |
| Holdings.FoldStocks | portfoliohut/models/profile.py:212-222 | The stock loop computes the fold `StockFold`: holdings and cash balance after every entry in order. |
| Holdings.FoldCash | portfoliohut/models/profile.py:224-229 | The cash loop computes the fold `CashFold` from the balance the stock loop left. |
| Holdings.StockFoldClosedForm | portfoliohut/models/profile.py:212-222 | holdings[t] = buys of t - sells of t. The keys are exactly the traded tickers, each once. The stock part of the cash balance is sell notional - buy notional. |
| Holdings.CashFoldClosedForm | portfoliohut/models/profile.py:224-229 | The cash loop adds deposits and subtracts everything else. |
| Holdings.CashBalanceClosedForm | portfoliohut/models/profile.py:212-229 | cash = deposits - withdrawals - buy notional + sell notional. |
| Holdings.TopStocksAreTop | portfoliohut/models/profile.py:247-251 | `top_stocks` returns min(n, 4) details, taken from the input and ordered by non-increasing total value. |
| Holdings.TopStocksDominate | portfoliohut/models/profile.py:249-250 | Every detail returned is worth at least as much as every detail left out. |
| Finance.Detail | portfoliohut/finance.py:27-32 | A detail carries the ticker and its previous close, and its total value is that price times the quantity. |
| Finance.GetCurrentPrices | portfoliohut/finance.py:12-36 | The loop yields the details of the positive positions in map order, and the total is their sum. |
| Finance.DetailsSound | portfoliohut/finance.py:25-26 | Every listed detail comes from a position with quantity > 0. |
| Finance.DetailsComplete | portfoliohut/finance.py:26-34 | Every position with quantity > 0 is listed. |
| Finance.DetailsInMapOrder | portfoliohut/finance.py:25-34 | Details appear in the map's iteration order. |
| Finance.NothingHeld | portfoliohut/finance.py:23-36 | A map with no positive quantity gives `([], 0)`. |
| Sorting.SortDesc | portfoliohut/views/base.py:27 | The result is a permutation of the input, of the same length, ordered by non-increasing key. |
| Sorting.SortIsStable | portfoliohut/views/base.py:27 | Elements with equal keys keep their input order. |
| Sorting.SortKeepsDistinct | portfoliohut/views/base.py:27 | Sorting distinct elements keeps them distinct. |
| Sorting.InsertKeepsSorted | portfoliohut/views/base.py:27 | Inserting into a list whose neighbouring keys never increase keeps that order, and the result starts with the new item or the old first one. |
| Sorting.InsertPermutes | portfoliohut/views/base.py:27 | Inserting adds exactly the new item to the multiset of items. |
| Sorting.AdjacentIsSorted | portfoliohut/views/base.py:27 | Order between neighbours gives order between any two items. |
| Sorting.InsertIsStable | portfoliohut/views/base.py:27 | An inserted element goes after the elements with an equal key. |
| Leaderboard.SetReturns | portfoliohut/views/base.py:20-25 | Every profile's `returns` (the field `percentReturn`) becomes its most recent return times 100. The most recent return is an input, `latestReturn`, standing for `Returns.GetMostRecentReturn`. Ranks are untouched. |
| Leaderboard.AssignRanks | portfoliohut/views/base.py:26-32 | Ranks run 1..n in list order. The reported position is the current profile's 0-based index, or none when it is absent. `returns` is untouched. |
| Leaderboard.AnnotateProfiles | portfoliohut/views/base.py:19-32 | This composes the two steps above: `returns` set, the list stably sorted by it from highest down, ranks 1..n, and the current profile's position. |
| Leaderboard.LastWithPkIsLast | portfoliohut/views/base.py:30-31 | The reported position holds the current profile, and no later position does. It is none exactly when the profile is absent. |
| Leaderboard.RankingIsStableSort | portfoliohut/views/base.py:27 | The ranked list is a permutation of the profiles, ordered by non-increasing return, with ties in input order. |
| AddTransaction.ValidateSell | portfoliohut/views/add_transaction.py:151-168 | A sale is accepted exactly when the shares held from strictly earlier entries ("buy" adds, anything else subtracts) are at least the quantity. |
| AddTransaction.HeldBeforeIgnores | portfoliohut/views/add_transaction.py:158 | Entries of another ticker, or not strictly earlier (same timestamp included), do not count. |
| AddTransaction.HeldBeforeOrderFree | portfoliohut/views/add_transaction.py:153-157 | The order the query returns entries in does not matter. |
| AddTransaction.ValidateWithdraw | portfoliohut/views/add_transaction.py:171-188 | A withdrawal is accepted exactly when the cash from strictly earlier entries ("deposit" adds, anything else subtracts) is at least the value. Equality is accepted. |
| AddTransaction.CashBeforeIgnores | portfoliohut/views/add_transaction.py:178 | Cash entries not strictly earlier than the withdrawal do not count. |
| AddTransaction.CleanAction | portfoliohut/views/add_transaction.py:268-271 | True exactly for "buy" and "sell", case-sensitive. |
| AddTransaction.CleanPrice | portfoliohut/views/add_transaction.py:274-290 | True exactly when a bar exists for the date (today's one-day bar when the date is today) and low <= price <= high. Both bounds are accepted. |
| AddTransaction.CleanPriceAgreesWithForm | portfoliohut/views/add_transaction.py:286-290 | The view's price check and the stock form's `clean` accept the same prices. |
| AddTransaction.CsvAction | portfoliohut/views/add_transaction.py:203 | A negative AMOUNT is "buy". Any other AMOUNT, zero included, is "sell". |
| AddTransaction.ValidateCsvElementAsWritten | portfoliohut/views/add_transaction.py:224-251 | As written, the action word is looked up as a ticker. An action unknown to the quote service raises "Invalid ticker", and acceptance needs a bar for the action word. |
| AddTransaction.ValidateCsvElement | portfoliohut/views/add_transaction.py:224-251 | A row is accepted exactly when the action is "buy"/"sell", the ticker is known and non-empty, the time is not in the future, the price is within the ticker's bar and the quantity is positive. It raises only for an unknown ticker, a future time or a negative quantity, with that error's message. |
| AddTransaction.CsvCheckLooksUpTheAction | portfoliohut/views/add_transaction.py:226-238 | A well-formed purchase raises "Invalid ticker" as written and is accepted by the corrected check. |
| AddTransaction.ImportStopsAtRaise | portfoliohut/views/add_transaction.py:193-220 | Rows after the first raising check are never imported. |
| AddTransaction.ImportedSnoc | portfoliohut/views/add_transaction.py:201-217 | Before any raise, each row adds its entry exactly when its check accepts it. |
| AddTransaction.ImportedAreAccepted | portfoliohut/views/add_transaction.py:203-217 | Every imported entry comes from an accepted row, with the action the AMOUNT rule gives. |
| AddTransaction.Store.SubmitStock | portfoliohut/views/add_transaction.py:68-103 | A sale that fails the sell check saves nothing. A sale that passes saves a cash entry worth price times quantity, then the stock entry. Any other action saves just the stock entry. |
| AddTransaction.Store.ImportCsv | portfoliohut/views/add_transaction.py:191-220 | With the corrected row check `ValidateCsvElement`: a file not ending in ".csv" adds nothing. Otherwise the accepted rows' entries are appended in file order, up to the first raising row. Cash is untouched. |
| AddTransaction.AsWrittenImportSavesNothing | portfoliohut/views/add_transaction.py:201-226 | As written, when "buy" and "sell" are unknown tickers, the first row of any non-empty file raises "Invalid ticker" and the import saves nothing. |
| TransactionForms.CleanTicker | portfoliohut/forms/transactions.py:59-65 | A ticker is rejected exactly when its one-day history is empty, with that message. The view's `_clean_ticker` (views/add_transaction.py:254-259) is the same check and is modelled by this member too. |
| TransactionForms.CleanQuantity | portfoliohut/forms/transactions.py:67-71 | Negative quantities are rejected. Zero is accepted. The view's `_clean_quantity` (views/add_transaction.py:262-265) is the same check and is modelled by this member too. |
| TransactionForms.CleanAction | portfoliohut/forms/transactions.py:73-77 | Accepted exactly for "buy" and "sell". |
| TransactionForms.CleanPriceAsWritten | portfoliohut/forms/transactions.py:79-83 | As written, the field never fails. A negative price is replaced by the error object itself. |
| TransactionForms.CleanPrice | portfoliohut/forms/transactions.py:79-83 | With the error raised, negative prices are rejected and zero is accepted. |
| TransactionForms.NegativePriceSlipsThrough | portfoliohut/forms/transactions.py:81-82 | A price of -1 passes as written and is rejected once the error is raised. |
| TransactionForms.CleanStockDateTime | portfoliohut/forms/transactions.py:85-89 | A future instant is rejected. `now` itself is accepted. The view's `_clean_date_time` (views/add_transaction.py:293-297) is the same check and is modelled by this member too. |
| TransactionForms.CleanCashValue | portfoliohut/forms/transactions.py:112-116 | A negative cash value is rejected. Zero is accepted. |
| TransactionForms.CleanCashDateTime | portfoliohut/forms/transactions.py:118-122 | A future instant is rejected, with the cash form's message. |
| TransactionForms.StockFormClean | portfoliohut/forms/transactions.py:28-57 | The form is rejected as closed exactly when no bar exists for the date, and accepted exactly when low <= price <= high. Otherwise the error carries the bar and the date. |
| PriceHistory.ToRows | portfoliohut/models/transactions.py:92-111 | One row per downloaded record, in order. Each row has type EQUITY, the requested ticker and the record's date. An empty download adds nothing. |
| PriceHistory.HistoricalEquityTable.AddHistoricalTickerData | portfoliohut/models/transactions.py:92-111 | An empty download changes nothing. Otherwise the rows are appended as a whole. When a (ticker, date) pair would repeat, the table is unchanged and an integrity error is reported. Uniqueness is preserved. |
| PriceHistory.HistoricalEquityTable.GetTicker | portfoliohut/models/transactions.py:113-144 | The table changes only by the download `Download` names, appended as a whole. The result is the ticker's rows by date, read after the change. |
| PriceHistory.DownloadStartsAfterCache | portfoliohut/models/transactions.py:116-141 | The full history is downloaded exactly when nothing is cached for the ticker. A ticker cached up to today, or any cached ticker while the exchange is closed, downloads nothing. Otherwise the download starts the day after the newest cached date, which is not after today. |
| PriceHistory.QueryIsOrdered | portfoliohut/models/transactions.py:115-151 | A query holds exactly the ticker's rows, in non-decreasing date order. |
| PriceHistory.LatestIsNewest | portfoliohut/models/transactions.py:116-118 | `last().date` is the greatest date cached for the ticker. It exists exactly when the ticker has rows. |
| PriceHistory.AppendKeepsCachedRows | portfoliohut/models/transactions.py:133-136 | After an append the ticker's rows are the cached ones plus the downloaded ones. |
| PriceHistory.NewerRowsKeepKeysUnique | portfoliohut/models/transactions.py:130-155 | Rows dated after every cached row of the ticker, with no date repeated, never collide. |
| PriceHistory.TransactionDisplayItems | portfoliohut/models/transactions.py:27-63 | The items are the date, then the profile's full name, then the ticker for an equity item, or "deposit" (quantity > 0) / "withdrawal" with the price for a cash item. |
| PriceHistory.HistoricalEquityDisplayItems | portfoliohut/models/transactions.py:166-171 | The items are the date, then the ticker exactly when the row is an equity. |
| AccountForms.CleanLoginUsername | portfoliohut/forms/account_management.py:30-36 | The sanitised username is accepted exactly when `([a-zA-Z\d])+$` finds a match, and is what the field keeps. |
| AccountForms.RegexSearchIsLastCharacter | portfoliohut/forms/account_management.py:33 | The pattern matches exactly when the last character, or the one before a final newline, is an ASCII letter or digit. |
| AccountForms.InnerPunctuationAccepted | portfoliohut/forms/account_management.py:33-34 | "a b!c" passes. |
| AccountForms.TrailingPunctuationRejected | portfoliohut/forms/account_management.py:33-34 | A username ending in "!" is rejected. |
| AccountForms.EmptyUsernameRejected | portfoliohut/forms/account_management.py:33-34 | An empty username is rejected. |
| AccountForms.CleanRegister | portfoliohut/forms/account_management.py:54-62 | The mismatch error is raised exactly when both passwords are present, non-empty and different. |
| AccountForms.CleanRegisterUsername | portfoliohut/forms/account_management.py:79-89 | A registration username is rejected exactly when it is taken. Otherwise the sanitised value is kept. |
| AccountForms.CleanSanitized | portfoliohut/forms/account_management.py:38-99 | The other cleaners return the sanitised input and never fail. |
| ProfileForms.CleanProfileType | portfoliohut/forms/profile.py:23-30 | "public" and "private" pass unchanged. Every other value is rejected with that message. |
| ProfileForms.UpperCaseRejected | portfoliohut/forms/profile.py:25 | The check is case-sensitive: "PUBLIC" and "PRIVATE" are rejected. |

## Left out

- Market data:
  - the price-lookup construction `_build_stock_lookup` (resampling and forward fill);
  - the yfinance history and info calls;
  - the exchange calendar.

  These are parameters (`PriceLookup`, `Quotes`, `InfoLookup`, `Fetch`, `marketOpen`), and `timezone.now()` / `date.today()` are parameters too.
- Floating point: prices and returns are exact reals. A zero denominator gives an undefined return (`None`) rather than numpy's infinities, and NaN is `None` throughout.
- Leaderboard.AnnotateProfiles: assumes every profile's most recent return is defined. The effect of NaN on Python's sort is not modelled.
- Unicode: `str.upper()` is modelled on ASCII letters only. `\d` is read as the ASCII digits.
- `strip_tags` is an opaque parameter (`Sanitizer`).
- Django plumbing is not modelled:
  - ORM querysets beyond the ordered sequences they yield;
  - the `bulk_create` statement beyond inserting all rows or none;
  - forms and rendering, `messages`, `authenticate` and `LoginForm.clean`, `create_user`.
- AddTransaction.Store.ImportCsv: runs the corrected row check `ValidateCsvElement`. As written, a non-empty file ends at its first row with nothing saved: `login_required` raises on every row, and, were it absent, the action word would be looked up as a ticker, so when "buy" and "sell" are not tickers the first row raises "Invalid ticker" (`AddTransaction.AsWrittenImportSavesNothing`).
- `login_required` on `_validate_csv_element` is not modelled. As written, the decorator reads `.user` off the action string, which raises, and the bare `except` ends the import.
- CSV decoding, `strptime` and the bare `except` are not modelled, and neither are the type errors the view would hit. Those are the string PRICE and QUANTITY compared with numbers, and a date compared with a datetime. Each would also end the import. Rows are typed values.
- Entry models: the source's models package defines no `Stock` or `CashBalance` class (only `FinancialItem`, `Transaction` and `PortfolioItem`), although `models/profile.py` and `views/add_transaction.py` use both. `Ledger.StockTxn` and `Ledger.CashTxn` take their fields from how `models/profile.py:116-130,209-232` and `views/add_transaction.py:151-188,208-215` read them. The newer `Transaction` schema (a signed quantity, split date and time, no action word) is not what the modelled functions use, and is not modelled.
- AddTransaction.Store.SubmitStock: the paired cash entry's action and timestamp are parameters. The cash entry class (`CashBalance`) is not defined in the source, so its defaults are not visible.
- The cash branch of `transaction_input` is not modelled: it reads `cash_form.date_time`, an attribute the form does not have, and an undefined `date_time`. The withdrawal check itself is modelled (`ValidateWithdraw`).
- AddTransaction.Store.SubmitStock: starts from a form that passed validation. Each field cleaner is modelled separately, but their combination in Django's `is_valid`, and `StockForm.clean` running after a field failed, are not.
- The clock is read once per check. The source reads `timezone.now()` separately in each cleaner.
- `__str__` methods are not modelled: they only join the display items.
- `EquityInfo`, `PortfolioReturn` and `TransactionTable` hold no logic and are not modelled.

## Findings

| source | as written | input that shows it | evidently intended | confidence | as-written member | corrected member |
|---|---|---|---|---|---|---|
| portfoliohut/views/add_transaction.py:226,238 | `_validate_csv_element` checks the action word with `_clean_ticker(action)` and checks the price against the bar of `action` | a CSV row buying 1 AAPL at 105 on a day AAPL traded between 100 and 110: "buy" has no quotes, so "Invalid ticker" is raised and the import ends | check the action with `_clean_action` and the price against the ticker's bar | not executed | AddTransaction.ValidateCsvElementAsWritten (shown by AddTransaction.CsvCheckLooksUpTheAction) | AddTransaction.ValidateCsvElement |
| portfoliohut/forms/transactions.py:79-83 | `clean_price` returns the `ValidationError` for a negative price instead of raising it | price -1: the field validates and its cleaned value is the error object; when a bar exists, `StockForm.clean` (forms/transactions.py:51) then compares that object with the bar's low and fails with a type error, so the request fails rather than saving a negative price | raise the error, rejecting negative prices | not executed | TransactionForms.CleanPriceAsWritten (shown by TransactionForms.NegativePriceSlipsThrough) | TransactionForms.CleanPrice |
