/**
 * The application service: it turns an untrusted filter into a canonical one (text
 * trimmed and escaped or dropped when blank, page and page size corrected, price
 * bounds made non-negative and ordered, sort key and direction restricted to fixed
 * sets), hands it to the repository and returns the repository's answer together
 * with the page and page size it used.
 */
module PropertyService {
  import opened Wrappers
  import opened Domain
  import opened Text
  import opened RegexEscape
  import PropertyRepository

  const AllowedSortKeys: set<string> := {"price", "name", "address", "id"}

  /**
   * Blank or absent text becomes absent; other text is trimmed and escaped, so the
   * store reads it as the trimmed text itself and never as a pattern.
   */
  function Sanitize(s: Option<string>): (r: Option<string>)
    ensures r.None? <==> IsNullOrWhiteSpace(s)
    ensures r.Some? ==> Trim(s.value) != [] && Unescape(r.value) == Trim(s.value)
    ensures r.Some? ==> IsLiteralPattern(r.value) && !IsBlank(r.value)
  {
    if IsNullOrWhiteSpace(s) then None
    else
      var t := Trim(s.value);
      UnescapeEscape(t);
      EscapeIsLiteral(t);
      EscapeHead(t);
      assert !IsBlank(Escape(t)) by {
        assert !IsWhiteSpace(Escape(t)[0]);
      }
      Some(Escape(t))
  }

  /** The sort key: lower-cased, and "price" unless it is one of the allowed keys. */
  function NormalizedSortBy(sortBy: Option<string>): (r: string)
    ensures r in AllowedSortKeys
    ensures r == "price" || (sortBy.Some? && r == Lower(sortBy.value))
    ensures sortBy.Some? && Lower(sortBy.value) in AllowedSortKeys ==> r == Lower(sortBy.value)
  {
    var key := Lower(sortBy.GetOr(""));
    if key in AllowedSortKeys then key else "price"
  }

  /** The sort direction: "asc" exactly when the given direction is "asc" in any case, otherwise "desc". */
  function NormalizedSortDir(sortDir: Option<string>): (r: string)
    ensures r == "asc" || r == "desc"
    ensures r == "asc" <==> sortDir.Some? && Lower(sortDir.value) == "asc"
  {
    var dir := Lower(sortDir.GetOr("desc"));
    assert Lower("desc") == "desc";
    if dir != "asc" && dir != "desc" then "desc" else dir
  }

  /** Lower-cases both values, then replaces each by its default when it is not allowed. */
  method NormalizeSort(sortBy: Option<string>, sortDir: Option<string>) returns (key: string, direction: string)
    ensures key == NormalizedSortBy(sortBy) && direction == NormalizedSortDir(sortDir)
    ensures key in AllowedSortKeys && (direction == "asc" || direction == "desc")
  {
    key := Lower(sortBy.GetOr(""));
    direction := Lower(sortDir.GetOr("desc"));
    if key !in AllowedSortKeys {
      key := "price";
    }
    if direction != "asc" && direction != "desc" {
      direction := "desc";
    }
  }

  /** Pages start at 1: a smaller page becomes 1. */
  function NormalizedPage(page: Int32): (r: Int32)
    ensures r >= 1
    ensures page >= 1 ==> r == page
    ensures page < 1 ==> r == 1
  {
    if page < 1 then 1 else page
  }

  /** A page size outside [1, 100] becomes the default 20, not the nearest bound. */
  function NormalizedPageSize(pageSize: Int32): (r: Int32)
    ensures 1 <= r <= 100
    ensures 1 <= pageSize <= 100 ==> r == pageSize
    ensures !(1 <= pageSize <= 100) ==> r == 20
  {
    if pageSize < 1 || pageSize > 100 then 20 else pageSize
  }

  function ClampToZero(x: Int64): Int64 {
    if x < 0 then 0 else x
  }

  /**
   * Negative bounds become 0 and, when both bounds are given out of order, they are
   * swapped; which bounds are present never changes.
   */
  function NormalizedPrices(minPrice: Option<Int64>, maxPrice: Option<Int64>): (r: (Option<Int64>, Option<Int64>))
    ensures r.0.Some? == minPrice.Some? && r.1.Some? == maxPrice.Some?
    ensures r.0.Some? ==> r.0.value >= 0
    ensures r.1.Some? ==> r.1.value >= 0
    ensures minPrice.Some? && maxPrice.None? ==> r.0.value == ClampToZero(minPrice.value)
    ensures minPrice.None? && maxPrice.Some? ==> r.1.value == ClampToZero(maxPrice.value)
    ensures minPrice.Some? && maxPrice.Some? ==>
              && r.0.value <= r.1.value
              && multiset{r.0.value, r.1.value} == multiset{ClampToZero(minPrice.value), ClampToZero(maxPrice.value)}
  {
    var lo := if minPrice.Some? then Some(ClampToZero(minPrice.value)) else None;
    var hi := if maxPrice.Some? then Some(ClampToZero(maxPrice.value)) else None;
    if lo.Some? && hi.Some? && lo.value > hi.value then (hi, lo) else (lo, hi)
  }

  /** Clamps each present bound at 0, then swaps the two when they are out of order. */
  method NormalizePrices(minPrice: Option<Int64>, maxPrice: Option<Int64>) returns (minP: Option<Int64>, maxP: Option<Int64>)
    ensures (minP, maxP) == NormalizedPrices(minPrice, maxPrice)
    ensures minP.Some? && maxP.Some? ==> 0 <= minP.value <= maxP.value
  {
    minP := minPrice;
    maxP := maxPrice;
    if minP.Some? && minP.value < 0 {
      minP := Some(0);
    }
    if maxP.Some? && maxP.value < 0 {
      maxP := Some(0);
    }
    if minP.Some? && maxP.Some? && minP.value > maxP.value {
      minP, maxP := maxP, minP;
    }
  }

  /** The canonical filter the service passes to the repository. */
  function Normalize(raw: PropertyFilter): (clean: PropertyFilter)
    ensures clean.name.None? <==> IsNullOrWhiteSpace(raw.name)
    ensures clean.address.None? <==> IsNullOrWhiteSpace(raw.address)
    ensures clean.minPrice.Some? == raw.minPrice.Some? && clean.maxPrice.Some? == raw.maxPrice.Some?
    ensures clean.minPrice.Some? ==> clean.minPrice.value >= 0
    ensures clean.maxPrice.Some? ==> clean.maxPrice.value >= 0
    ensures clean.minPrice.Some? && clean.maxPrice.Some? ==> clean.minPrice.value <= clean.maxPrice.value
    ensures clean.page >= 1 && 1 <= clean.pageSize <= 100
    ensures clean.sortBy.Some? && clean.sortBy.value in AllowedSortKeys
    ensures clean.sortDir == Some("asc") || clean.sortDir == Some("desc")
  {
    var prices := NormalizedPrices(raw.minPrice, raw.maxPrice);
    PropertyFilter(
      Sanitize(raw.name), Sanitize(raw.address), prices.0, prices.1,
      NormalizedPage(raw.page), NormalizedPageSize(raw.pageSize),
      Some(NormalizedSortBy(raw.sortBy)), Some(NormalizedSortDir(raw.sortDir)))
  }

  /**
   * The search: the raw filter is corrected step by step, the repository runs the
   * canonical filter, and its rows and total come back unchanged with the page and
   * page size that were used.
   */
  method SearchAsync(db: Store, raw: PropertyFilter, collate: (string, string) -> bool)
    returns (items: seq<PropertyListDto>, total: nat, page: Int32, pageSize: Int32)
    ensures page == Normalize(raw).page && pageSize == Normalize(raw).pageSize
    ensures page >= 1 && 1 <= pageSize <= 100
    ensures total == PropertyRepository.Total(db, Normalize(raw))
    ensures items == PropertyRepository.ListView(db, Normalize(raw), collate)
  {
    page := if raw.page < 1 then 1 else raw.page;
    pageSize := if raw.pageSize < 1 || raw.pageSize > 100 then 20 else raw.pageSize;
    var minP, maxP := NormalizePrices(raw.minPrice, raw.maxPrice);
    var sortBy, sortDir := NormalizeSort(raw.sortBy, raw.sortDir);
    var clean := PropertyFilter(
      Sanitize(raw.name), Sanitize(raw.address), minP, maxP, page, pageSize, Some(sortBy), Some(sortDir));
    assert clean == Normalize(raw);
    items, total := PropertyRepository.GetAsync(db, clean, collate);
  }

  /** The detail passes straight through to the repository. */
  function GetByIdAsync(db: Store, idProperty: Int32): (r: Option<PropertyDetailDto>)
    ensures r == PropertyRepository.GetById(db, idProperty)
    ensures r.None? <==> forall k :: 0 <= k < |db.properties| ==> db.properties[k].idProperty != idProperty
  {
    PropertyRepository.GetById(db, idProperty)
  }

  /**
   * Normalising a canonical filter again changes nothing but the text fields, which
   * are escaped once more.
   */
  lemma NormalizeIdempotent(raw: PropertyFilter)
    ensures var clean := Normalize(raw);
            Normalize(clean) == clean.(name := Sanitize(clean.name), address := Sanitize(clean.address))
  {
    var clean := Normalize(raw);
    assert NormalizedPrices(clean.minPrice, clean.maxPrice) == (clean.minPrice, clean.maxPrice);
    assert NormalizedPage(clean.page) == clean.page && NormalizedPageSize(clean.pageSize) == clean.pageSize;
    assert Lower(clean.sortBy.value) == clean.sortBy.value by {
      assert Lower("price") == "price" && Lower("name") == "name";
      assert Lower("address") == "address" && Lower("id") == "id";
    }
    assert Lower(clean.sortDir.value) == clean.sortDir.value by {
      assert Lower("asc") == "asc" && Lower("desc") == "desc";
    }
  }

  lemma EscapeDotted()
    ensures Escape("a.b") == "a\\.b"
  {
    assert Escape("b") == "b";
    assert Escape(".b") == "\\." + Escape("b");
  }

  lemma EscapeEscapedDotted()
    ensures Escape("a\\.b") == "a\\\\\\.b"
  {
    assert Escape("b") == "b";
    assert Escape(".b") == "\\." + Escape("b");
    assert Escape("\\.b") == "\\\\" + Escape(".b");
  }

  lemma SanitizeDotted()
    ensures Sanitize(Some("a.b")) == Some("a\\.b")
  {
    TrimTrimmed("a.b");
    EscapeDotted();
  }

  /** Sanitising is not idempotent: escaping escaped text escapes its backslashes. */
  lemma SanitizeNotIdempotent()
    ensures Sanitize(Some("a.b")) == Some("a\\.b")
    ensures Sanitize(Sanitize(Some("a.b"))) == Some("a\\\\\\.b")
  {
    SanitizeDotted();
    TrimTrimmed("a\\.b");
    EscapeEscapedDotted();
  }
}
