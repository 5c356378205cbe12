/** The stock and cash entry forms: one cleaner per field, each giving the
    cleaned value back or raising a validation error (a `Failure` carrying
    its message), and the stock form's cross-field price check. The quote
    service and the clock are parameters. */
module TransactionForms {
  import opened Wrappers
  import opened Ledger
  import opened Market

  const InvalidTicker := "Invalid ticker: must be a ticker in the NYSE"
  const NegativeQuantity := "Invalid stock quantity: must be positive"
  const InvalidAction := "Invalid action: must be 'BUY' or 'SELL'"
  const NegativePrice := "Invalid stock price: must be positive"
  const FutureDateTime := "Invalid date/time: cannot be in the future"
  const NegativeCash := "Invalid cash value: must be positive"
  const FutureDate := "Invalid date: cannot be in the future"

  /** `clean_ticker` (and the view's `_clean_ticker`): a ticker is rejected
      exactly when its one-day history is empty. */
  function CleanTicker(q: Quotes, ticker: Ticker): (r: Result<Ticker, string>)
    ensures r.Failure? <==> q.latest(ticker).None?
    ensures r.Success? ==> r.value == ticker
    ensures r.Failure? ==> r.error == InvalidTicker
  {
    if q.latest(ticker).None? then Failure(InvalidTicker) else Success(ticker)
  }

  /** `clean_quantity` (and the view's `_clean_quantity`): negative quantities
      are rejected, zero is accepted. */
  function CleanQuantity(quantity: int): (r: Result<int, string>)
    ensures r.Failure? <==> quantity < 0
    ensures r.Success? ==> r.value == quantity
    ensures r.Failure? ==> r.error == NegativeQuantity
  {
    if quantity < 0 then Failure(NegativeQuantity) else Success(quantity)
  }

  /** `clean_action`: only the lower-case words "buy" and "sell" pass. */
  function CleanAction(action: string): (r: Result<string, string>)
    ensures r.Success? <==> action == "buy" || action == "sell"
    ensures r.Success? ==> r.value == action
    ensures r.Failure? ==> r.error == InvalidAction
  {
    if action != "buy" && action != "sell" then Failure(InvalidAction) else Success(action)
  }

  /** The value `clean_price` stores as the cleaned price: the price, or the
      validation error object itself. */
  datatype PriceValue = Price(amount: real) | ErrorObject(message: string)

  /** `clean_price` as written: for a negative price it returns the
      validation error instead of raising it, so the field never fails. */
  function CleanPriceAsWritten(price: real): (r: Result<PriceValue, string>)
    ensures r.Success?
    ensures r.value.ErrorObject? <==> price < 0.0
    ensures r.value.Price? ==> r.value.amount == price
  {
    if price < 0.0 then Success(ErrorObject(NegativePrice)) else Success(Price(price))
  }

  /** `clean_price` raising its error: negative prices are rejected, zero is
      accepted. */
  function CleanPrice(price: real): (r: Result<real, string>)
    ensures r.Failure? <==> price < 0.0
    ensures r.Success? ==> r.value == price
    ensures r.Failure? ==> r.error == NegativePrice
  {
    if price < 0.0 then Failure(NegativePrice) else Success(price)
  }

  /** A price of -1 passes the field as written and is rejected once the
      error is raised. */
  lemma NegativePriceSlipsThrough()
    ensures CleanPriceAsWritten(-1.0).Success? && CleanPriceAsWritten(-1.0).value == ErrorObject(NegativePrice)
    ensures CleanPrice(-1.0) == Failure(NegativePrice)
  {
  }

  /** `StockForm.clean_date_time` (and the view's `_clean_date_time`): an
      instant after `now` is rejected; `now` itself is accepted. */
  function CleanStockDateTime(time: Instant, now: Instant): (r: Result<Instant, string>)
    ensures r.Failure? <==> time > now
    ensures r.Success? ==> r.value == time
    ensures r.Failure? ==> r.error == FutureDateTime
  {
    if time > now then Failure(FutureDateTime) else Success(time)
  }

  /** `CashForm.clean_value`: negative values are rejected, zero is accepted. */
  function CleanCashValue(value: real): (r: Result<real, string>)
    ensures r.Failure? <==> value < 0.0
    ensures r.Success? ==> r.value == value
    ensures r.Failure? ==> r.error == NegativeCash
  {
    if value < 0.0 then Failure(NegativeCash) else Success(value)
  }

  /** `CashForm.clean_date_time`: as for the stock form, with its own message. */
  function CleanCashDateTime(time: Instant, now: Instant): (r: Result<Instant, string>)
    ensures r.Failure? <==> time > now
    ensures r.Success? ==> r.value == time
    ensures r.Failure? ==> r.error == FutureDate
  {
    if time > now then Failure(FutureDate) else Success(time)
  }

  /** Why `StockForm.clean` rejects a form: no bar for the date (the market
      was closed), or a price outside the day's bar. */
  datatype StockFormError = MarketClosed | PriceOutsideBar(low: real, high: real, day: Day)

  /** `StockForm.clean`: the price must lie within the low and high of the
      ticker's bar for the entry's date, bounds included. */
  function StockFormClean(q: Quotes, ticker: Ticker, time: Instant, price: real, today: Day): (r: Result<(), StockFormError>)
    ensures r == Failure(MarketClosed) <==> BarFor(q, ticker, DayOf(time), today).None?
    ensures r.Success? <==>
      exists b :: BarFor(q, ticker, DayOf(time), today) == Some(b) && b.low <= price <= b.high
    ensures r.Failure? && r.error.PriceOutsideBar? ==>
      && BarFor(q, ticker, DayOf(time), today) == Some(Bar(r.error.low, r.error.high))
      && (price < r.error.low || r.error.high < price)
      && r.error.day == DayOf(time)
  {
    var bar := BarFor(q, ticker, DayOf(time), today);
    if bar.None? then Failure(MarketClosed)
    else if price < bar.value.low || bar.value.high < price then
      Failure(PriceOutsideBar(bar.value.low, bar.value.high, DayOf(time)))
    else Success(())
  }
}
