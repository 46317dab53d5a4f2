/**
 * Pricing one row (enrich in internal/pricing/service.go) and paging through the rows to price
 * (internal/storage/pricing.go), shared by the worker's protocol and its scan.
 */
module Pricing {
  import opened Wrappers
  import opened Text
  import opened Generations
  import opened Merge
  import opened Catalog

  datatype ManualPrice = ManualPrice(rates: Rates, updatedAt: int)

  /** What the worker prices with. */
  datatype PriceBook = PriceBook(catalog: Prices, fetched: Option<int>, manual: map<string, ManualPrice>)

  /** parseManualPrices builds rates without overrides. */
  predicate ManualIsFlat(manual: map<string, ManualPrice>) {
    forall id :: id in manual ==> manual[id].rates.overrides == []
  }

  function AsRead(row: Row): PriceWrite {
    PriceWrite(row.cost, row.costSource, row.priceModel, row.priceFetched, row.rates, row.revision)
  }

  /** The rates for a row without saved ones: model ID, rates, time and origin. */
  function FindRates(book: PriceBook, model: string): Option<(string, Rates, int, CostSource)> {
    var id := MatchId(book.catalog, ALIASES, model);
    if id.Some? then Some((id.value, book.catalog[id.value], book.fetched.GetOr(0), OpenRouter))
    else
      var name := TrimSpace(model);
      if name in book.manual then Some((name, book.manual[name].rates, book.manual[name].updatedAt, Manual)) else None
  }

  /** enrich: the values ApplyPricing is called with for a row as it was read. */
  function Enriched(book: PriceBook, row: Row): (w: PriceWrite)
    ensures w.revision == row.revision
  {
    var read := AsRead(row);
    if row.harness then read
    else if FreeModel(row.model.GetOr("")) then read.(cost := Some(0.0), source := Free)
    else if row.rates.Some? then
      var cost := Estimate(row, row.rates.value);
      if cost.None? then read
      else read.(cost := cost, source := if row.costSource == Manual then Manual else OpenRouter)
    else
      var found := FindRates(book, row.model.GetOr(""));
      if found.None? then read
      else
        var (id, rates, stamp, origin) := found.value;
        var cost := Estimate(row, rates);
        if cost.None? then read
        else PriceWrite(cost, origin, NullableString(id), Some(stamp), Some(rates), row.revision)
  }

  predicate Estimated(row: Row) { row.costSource == OpenRouter || row.costSource == Manual }

  /**
   * A row's price is accounted for: an estimated cost has its saved rates, and unless the row is
   * queued it is exactly the estimate of the current row under them, whenever that is defined. Free
   * is a model that is, for nothing.
   */
  predicate PriceOk(row: Row) {
    && RowOk(row)
    && (Estimated(row) ==> row.cost.Some? && row.rates.Some?)
    && (row.costSource == Free ==> row.cost == Some(0.0) && FreeModel(row.model.GetOr("")))
    && (row.costSource == Manual ==> row.rates.Some? && row.rates.value.overrides == [])
    && (Estimated(row) && !row.pending ==> !FreeModel(row.model.GetOr("")))
    && (Estimated(row) && !row.pending && Estimate(row, row.rates.value).Some? ==>
          row.cost == Estimate(row, row.rates.value))
  }

  lemma InsertedPriceOk(g: Record)
    ensures PriceOk(Inserted(g))
  {
  }

  /** A merge that does not re-queue an estimated row leaves the estimate what it was. */
  lemma MergedPriceOk(row: Row, g: Record)
    requires PriceOk(row)
    ensures PriceOk(Merged(row, g))
  {
    var merged := Merged(row, g);
    if Estimated(merged) && !merged.pending {
      assert SameUsage(row, merged);
      EstimateReads(row, merged, row.rates.value);
    }
  }

  /** Tokens play no role in pricing. */
  lemma AdoptedPriceOk(row: Row, token: int)
    ensures PriceOk(row) ==> PriceOk(Adopted(row, token))
  {
    if row.rates.Some? { EstimateReads(row, Adopted(row, token), row.rates.value); }
  }

  /** The row is still what the worker read, but for an adopted token. */
  predicate Unmoved(row: Row, read: Row) { row.(token := read.token) == read }

  /** Writing back the price of an unmoved row accounts for it. */
  lemma PricedPriceOk(book: PriceBook, row: Row, read: Row)
    requires PriceOk(row) && ManualIsFlat(book.manual)
    requires row.revision == read.revision ==> Unmoved(row, read)
    ensures PriceOk(Priced(row, Enriched(book, read)))
  {
    var w := Enriched(book, read);
    var priced := Priced(row, w);
    if row.revision == read.revision && !row.harness {
      assert SameUsage(read, priced) && read.timestamp == priced.timestamp;
      if w.rates.Some? { EstimateReads(read, priced, w.rates.value); }
    }
  }

  /** Saved rates survive every event but a harness cost. */
  lemma RatesStay(book: PriceBook, row: Row, read: Row, g: Record, token: int)
    requires row.rates.Some? && RowOk(row)
    requires row.revision == read.revision ==> Unmoved(row, read)
    ensures Merged(row, g).harness || Merged(row, g).rates == row.rates
    ensures Priced(row, Enriched(book, read)).rates == row.rates
    ensures Adopted(row, token).rates == row.rates
  {
  }

  /** The row carries the rates the book has for its model, with the name and time of their price. */
  ghost predicate PricedFrom(book: PriceBook, row: Row) {
    var name := TrimSpace(row.model.GetOr(""));
    match MatchId(book.catalog, ALIASES, row.model.GetOr(""))
    case Some(id) =>
      && row.costSource == OpenRouter && row.rates == Some(book.catalog[id])
      && row.priceModel == NullableString(id) && row.priceFetched == Some(book.fetched.GetOr(0))
    case None =>
      && row.costSource == Manual && name in book.manual && row.rates == Some(book.manual[name].rates)
      && row.priceModel == NullableString(name) && row.priceFetched == Some(book.manual[name].updatedAt)
  }

  /** The rates stay with their price, and an estimate stays one of its kind unless the model turns out to be free. */
  predicate SamePrice(a: Row, b: Row) {
    && a.rates == b.rates && a.priceModel == b.priceModel && a.priceFetched == b.priceFetched
    && (b.costSource == a.costSource || b.costSource == Free || (a.costSource == Unknown && b.costSource == OpenRouter))
  }

  /** A row gets its rates from the catalog, and from the manual prices only without a match in it. */
  lemma RatesFromBook(book: PriceBook, row: Row, read: Row)
    requires PriceOk(row) && (row.revision == read.revision ==> Unmoved(row, read))
    requires Priced(row, Enriched(book, read)).rates.Some?
    ensures var priced := Priced(row, Enriched(book, read));
            if row.rates.Some? then SamePrice(row, priced)
            else PricedFrom(book, priced) && priced.cost == Estimate(row, priced.rates.value)
                 && !FreeModel(row.model.GetOr(""))
  {
    var priced := Priced(row, Enriched(book, read));
    if row.rates.None? { EstimateReads(row, read, priced.rates.value); }
    hide Estimate, FreeModel;
  }

  /** The rates a row without a price may be priced with: its own, the catalog's, or else the manual ones. */
  function UsableRates(book: PriceBook, row: Row): Option<Rates> {
    var name := row.model.GetOr("");
    if row.rates.Some? then row.rates
    else match MatchId(book.catalog, ALIASES, name)
      case Some(id) => Some(book.catalog[id])
      case None => if TrimSpace(name) in book.manual then Some(book.manual[TrimSpace(name)].rates) else None
  }

  /**
   * A row without a cost is given one whenever there is one to give: none if its model is free, and
   * otherwise the estimate under the rates there are for it.
   */
  lemma PricesWhatItCan(book: PriceBook, row: Row)
    requires RowOk(row) && row.cost.None?
    ensures Enriched(book, row).cost == if FreeModel(row.model.GetOr("")) then Some(0.0)
                                        else match UsableRates(book, row)
                                          case None => None
                                          case Some(rates) => Estimate(row, rates)
    ensures Enriched(book, row).cost.Some? && !FreeModel(row.model.GetOr("")) ==>
              Enriched(book, row).source
              == if row.rates.Some? then (if row.costSource == Manual then Manual else OpenRouter)
                 else if MatchId(book.catalog, ALIASES, row.model.GetOr("")).Some? then OpenRouter
                 else Manual
    ensures Enriched(book, row).cost.Some? && FreeModel(row.model.GetOr("")) ==> Enriched(book, row).source == Free
  {
    hide Estimate, FreeModel, MatchId;
  }

  // Paging.

  const PAGE: nat := 200

  /** pending rows, or rows without a cost for the one-time historical job. */
  predicate Qualifies(row: Row, history: bool) { if history then row.cost.None? else row.pending }

  /** SELECT id ... WHERE qualifies AND id > after ORDER BY id LIMIT 200. */
  ghost predicate IsPage(rows: Table, after: Id, history: bool, ids: seq<Id>) {
    && |ids| <= PAGE
    && (forall i, j :: 0 <= i < j < |ids| ==> Less(ids[i], ids[j]))
    && (forall i :: 0 <= i < |ids| ==> ids[i] in rows && Qualifies(rows[ids[i]], history) && Less(after, ids[i]))
    && (forall id :: id in rows && Qualifies(rows[id], history) && Less(after, id) && id !in ids ==>
          |ids| == PAGE && Less(ids[|ids| - 1], id))
  }
}
