/** `get_current_prices`: values every ticker held in positive quantity at its
    previous close. The quote service is a parameter: `info(t)` is what the
    service reports for ticker `t`. */
module Finance {
  import opened Ledger

  /** The two fields read from a ticker's info record. */
  datatype TickerInfo = TickerInfo(previousClose: real, website: string)

  type InfoLookup = Ticker -> TickerInfo

  /** The `TickerDetail` named tuple. */
  datatype TickerDetail = TickerDetail(ticker: Ticker, price: real, totalValue: real, website: string)

  /** The detail built for one dictionary entry. Its contract is the
      definition of a detail (total value is price times quantity); what the
      loop promises about the details is stated by `DetailsSound`,
      `DetailsComplete` and `DetailsInMapOrder`. */
  function Detail(p: Position, info: InfoLookup): (d: TickerDetail)
    ensures d.ticker == p.ticker && d.price == info(p.ticker).previousClose
    ensures d.totalValue == d.price * p.shares as real
  {
    var i := info(p.ticker);
    TickerDetail(p.ticker, i.previousClose, i.previousClose * p.shares as real, i.website)
  }

  /** The details listed for a dictionary: one per entry with a positive
      quantity, in the dictionary's order. */
  function Details(stockMap: Portfolio, info: InfoLookup): seq<TickerDetail>
  {
    if stockMap == [] then []
    else
      var p := stockMap[|stockMap| - 1];
      Details(stockMap[..|stockMap| - 1], info) + (if p.shares > 0 then [Detail(p, info)] else [])
  }

  /** Sum of the listed total values. */
  function TotalValue(ds: seq<TickerDetail>): real
  {
    if ds == [] then 0.0 else TotalValue(ds[..|ds| - 1]) + ds[|ds| - 1].totalValue
  }

  /** The valuation loop: the listed details and their accumulated total. */
  method GetCurrentPrices(stockMap: Portfolio, info: InfoLookup) returns (result: seq<TickerDetail>, total: real)
    ensures result == Details(stockMap, info)
    ensures total == TotalValue(result)
  {
    total := 0.0;
    result := [];
    var i := 0;
    while i < |stockMap|
      invariant 0 <= i <= |stockMap|
      invariant result == Details(stockMap[..i], info)
      invariant total == TotalValue(result)
    {
      var p := stockMap[i];
      if p.shares > 0 {
        var detail := Detail(p, info);
        total := total + detail.totalValue;
        result := result + [detail];
        assert result[..|result| - 1] == Details(stockMap[..i], info);
      }
      assert stockMap[..i + 1][..i] == stockMap[..i];
      i := i + 1;
    }
    assert stockMap[..i] == stockMap;
  }

  /** Every listed detail comes from an entry with a positive quantity, is
      priced at that ticker's previous close, and is worth price times
      quantity. */
  lemma {:induction false} DetailsSound(stockMap: Portfolio, info: InfoLookup, j: nat)
    requires j < |Details(stockMap, info)|
    ensures exists i :: (0 <= i < |stockMap| && stockMap[i].shares > 0
                        && Details(stockMap, info)[j] == Detail(stockMap[i], info))
  {
    var init := stockMap[..|stockMap| - 1];
    if j < |Details(init, info)| {
      DetailsSound(init, info, j);
      var i :| 0 <= i < |init| && init[i].shares > 0 && Details(init, info)[j] == Detail(init[i], info);
      assert stockMap[i] == init[i];
    } else {
      assert Details(stockMap, info)[j] == Detail(stockMap[|stockMap| - 1], info);
    }
  }

  /** Every entry with a positive quantity is listed. */
  lemma {:induction false} DetailsComplete(stockMap: Portfolio, info: InfoLookup, i: nat)
    requires i < |stockMap| && stockMap[i].shares > 0
    ensures Detail(stockMap[i], info) in Details(stockMap, info)
  {
    var init := stockMap[..|stockMap| - 1];
    if i < |init| {
      DetailsComplete(init, info, i);
      assert init[i] == stockMap[i];
    }
  }

  /** Listed details keep the dictionary's iteration order. */
  lemma {:induction false} DetailsInMapOrder(stockMap: Portfolio, info: InfoLookup, a: nat, b: nat)
    requires a < b < |stockMap| && stockMap[a].shares > 0 && stockMap[b].shares > 0
    ensures exists ja, jb :: (0 <= ja < jb < |Details(stockMap, info)|
                              && Details(stockMap, info)[ja] == Detail(stockMap[a], info)
                              && Details(stockMap, info)[jb] == Detail(stockMap[b], info))
  {
    var init := stockMap[..|stockMap| - 1];
    var ds := Details(stockMap, info);
    assert init[a] == stockMap[a];
    if b == |stockMap| - 1 {
      DetailsComplete(init, info, a);
      var ja :| 0 <= ja < |Details(init, info)| && Details(init, info)[ja] == Detail(stockMap[a], info);
      assert ds[ja] == Detail(stockMap[a], info);
      assert ds[|ds| - 1] == Detail(stockMap[b], info);
    } else {
      assert init[b] == stockMap[b];
      DetailsInMapOrder(init, info, a, b);
      var ja, jb :| 0 <= ja < jb < |Details(init, info)|
        && Details(init, info)[ja] == Detail(init[a], info) && Details(init, info)[jb] == Detail(init[b], info);
      assert ds[ja] == Detail(stockMap[a], info) && ds[jb] == Detail(stockMap[b], info);
    }
  }

  /** A dictionary without a positive quantity (in particular the empty one)
      lists nothing and is worth 0. */
  lemma {:induction false} NothingHeld(stockMap: Portfolio, info: InfoLookup)
    requires forall i :: 0 <= i < |stockMap| ==> stockMap[i].shares <= 0
    ensures Details(stockMap, info) == [] && TotalValue(Details(stockMap, info)) == 0.0
  {
    if stockMap != [] {
      NothingHeld(stockMap[..|stockMap| - 1], info);
    }
  }
}
