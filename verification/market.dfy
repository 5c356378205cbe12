/** The market data the validators consult, as a parameter: the quote
    service's one-day bar of a ticker, and the bar of a ticker on a given
    date. Either is `None` when the service returns an empty history. */
module Market {
  import opened Wrappers
  import opened Ledger

  /** The low and high of one daily bar. */
  datatype Bar = Bar(low: real, high: real)

  datatype Quotes = Quotes(
    latest: Ticker -> Option<Bar>,     // `history(period="1d")`
    onDate: (Ticker, Day) -> Option<Bar>  // `history(start=d, end=d+1, interval="1d")`
  )

  /** The bar a price is checked against: the one-day history when the date is
      today, otherwise the history of that date. */
  function BarFor(q: Quotes, ticker: Ticker, day: Day, today: Day): Option<Bar>
  {
    if day == today then q.latest(ticker) else q.onDate(ticker, day)
  }

  /** Neither `price < Low` nor `High < price`: both bounds are inside. */
  predicate WithinBar(price: real, b: Bar)
  {
    !(price < b.low || b.high < price)
  }
}
