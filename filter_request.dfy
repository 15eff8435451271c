/**
 * The query-string model of the search endpoint: its declared ranges form a validity
 * rule, its defaults a starting request, and the controller copies it field by field
 * into a `PropertyFilter`.
 */
module ApiModels {
  import opened Wrappers
  import opened Domain
  import PropertyService

  datatype FilterRequest = FilterRequest(
    name: Option<string>, address: Option<string>, minPrice: Option<Int64>, maxPrice: Option<Int64>,
    page: Int32, pageSize: Int32, sortBy: Option<string>, sortDir: Option<string>)

  /** A bound is valid when absent or in [0, long.MaxValue]. */
  predicate PriceValid(bound: Option<Int64>) {
    bound.None? || bound.value >= 0
  }

  /**
   * The range rules: prices absent or non-negative, page at least 1, page size in
   * [1, 100]; the text fields and the sort fields carry no rule.
   */
  predicate Valid(req: FilterRequest) {
    && PriceValid(req.minPrice) && PriceValid(req.maxPrice)
    && 1 <= req.page <= MaxInt32
    && 1 <= req.pageSize <= 100
  }

  /** A request with nothing set: page 1 of 20 rows, no text, no bounds, no sort. */
  function Default(): (req: FilterRequest)
    ensures Valid(req)
    ensures req.page == 1 && req.pageSize == 20
    ensures req.name.None? && req.address.None? && req.minPrice.None? && req.maxPrice.None?
    ensures req.sortBy.None? && req.sortDir.None?
  {
    FilterRequest(None, None, None, None, 1, 20, None, None)
  }

  /** The controller's mapping of a request to a filter. */
  function ToFilter(req: FilterRequest): PropertyFilter {
    PropertyFilter(req.name, req.address, req.minPrice, req.maxPrice, req.page, req.pageSize, req.sortBy, req.sortDir)
  }

  /**
   * On a valid request the service keeps the page, the page size and both price
   * values, and swaps the bounds exactly when both are given out of order.
   */
  lemma ValidRequestKeepsNumbers(req: FilterRequest)
    requires Valid(req)
    ensures var clean := PropertyService.Normalize(ToFilter(req));
            && clean.page == req.page && clean.pageSize == req.pageSize
            && if req.minPrice.Some? && req.maxPrice.Some? && req.minPrice.value > req.maxPrice.value
               then clean.minPrice == req.maxPrice && clean.maxPrice == req.minPrice
               else clean.minPrice == req.minPrice && clean.maxPrice == req.maxPrice
  {
  }

  /**
   * Conversely, a request whose page, page size and price bounds the service leaves
   * exactly as they are is valid.
   */
  lemma UnchangedNumbersAreValid(req: FilterRequest)
    requires var clean := PropertyService.Normalize(ToFilter(req));
             clean.page == req.page && clean.pageSize == req.pageSize
             && clean.minPrice == req.minPrice && clean.maxPrice == req.maxPrice
    ensures Valid(req)
  {
    var prices := PropertyService.NormalizedPrices(req.minPrice, req.maxPrice);
    if req.minPrice.Some? && req.maxPrice.None? {
      assert prices.0.value == PropertyService.ClampToZero(req.minPrice.value);
    }
    if req.minPrice.None? && req.maxPrice.Some? {
      assert prices.1.value == PropertyService.ClampToZero(req.maxPrice.value);
    }
  }
}
