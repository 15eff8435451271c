/**
 * Statements that connect the layers: the store search behind the service agrees with
 * the in-memory reference search, and the 32-bit skip of the store search goes wrong
 * on a request that passes validation.
 */
module Pipeline {
  import opened Wrappers
  import opened Domain
  import opened Text
  import opened Seqs
  import opened Sorting
  import opened PropertyOrder
  import PropertyRepository
  import PropertyService
  import InMemoryRepository
  import ApiModels

  /** The text the reference search is given: absent when blank, trimmed otherwise. */
  function TrimmedText(s: Option<string>): Option<string> {
    if IsNullOrWhiteSpace(s) then None else Some(Trim(s.value))
  }

  /** A sanitised text field and the trimmed text select the same properties. */
  lemma TextConditionAgrees(raw: Option<string>, field: string)
    ensures var pattern := PropertyService.Sanitize(raw);
            ((IsNullOrWhiteSpace(pattern) || PropertyRepository.RegexMatches(field, pattern.value))
             <==> (IsNullOrWhiteSpace(TrimmedText(raw)) || ContainsIgnoreCase(field, TrimmedText(raw).value)))
  {
    if !IsNullOrWhiteSpace(raw) {
      var t := Trim(raw.value);
      assert !IsWhiteSpace(t[0]);
    }
  }

  /** The store's match on a canonical filter is the reference search's acceptance. */
  lemma MatchesAgree(raw: PropertyFilter, p: Property)
    ensures var clean := PropertyService.Normalize(raw);
            (PropertyRepository.Matches(clean, p)
             <==> InMemoryRepository.Accepts(TrimmedText(raw.name), TrimmedText(raw.address), clean.minPrice, clean.maxPrice, p))
  {
    TextConditionAgrees(raw.name, p.name);
    TextConditionAgrees(raw.address, p.address);
  }

  /** A canonical sort name selects the same key in both repositories. */
  lemma SortKeysAgree(sortBy: Option<string>)
    ensures var key := PropertyService.NormalizedSortBy(sortBy);
            PropertyRepository.KeyNamed(Some(key)) == Some(InMemoryRepository.KeyOf(Some(key)))
  {
    assert Lower("price") == "price" && Lower("name") == "name";
    assert Lower("address") == "address" && Lower("id") == "id";
  }

  /**
   * On the filter the service hands over, the store and the reference search, given
   * the trimmed text, the corrected bounds and the canonical sort (descending unless
   * the direction is "asc"), select the same properties with the same total. The store
   * ranks names and addresses by its collation `storeLe`, the reference search by the
   * runtime's string comparer `refLe`; the two rankings are the same sequence when the
   * sort is by price or id, or when the two string orders agree.
   */
  lemma StoreAgreesWithReference(db: Store, raw: PropertyFilter,
                                 storeLe: (string, string) -> bool, refLe: (string, string) -> bool)
    ensures var clean := PropertyService.Normalize(raw);
            var reference := InMemoryRepository.Search(
              InMemoryRepository.Repository(db.properties), TrimmedText(raw.name), TrimmedText(raw.address),
              clean.minPrice, clean.maxPrice, clean.sortBy, clean.sortDir != Some("asc"), refLe);
            var ranked := PropertyRepository.Ranked(db.properties, clean, storeLe);
            && PropertyRepository.Total(db, clean) == reference.1
            && multiset(ranked) == multiset(reference.0)
            && (PropertyRepository.SortRuleOf(clean).key == ByPrice
                || PropertyRepository.SortRuleOf(clean).key == ById
                || (forall x, y :: storeLe(x, y) == refLe(x, y))
                ==> ranked == reference.0)
  {
    var clean := PropertyService.Normalize(raw);
    var name, address := TrimmedText(raw.name), TrimmedText(raw.address);
    var accept := (p: Property) => InMemoryRepository.Accepts(name, address, clean.minPrice, clean.maxPrice, p);
    forall p ensures PropertyRepository.Matches(clean, p) == accept(p) {
      MatchesAgree(raw, p);
    }
    FilterAgrees(db.properties, p => PropertyRepository.Matches(clean, p), accept);
    InMemoryRepository.NarrowedAccepts(db.properties, name, address, clean.minPrice, clean.maxPrice);
    SortKeysAgree(raw.sortBy);
    var rule := PropertyRepository.SortRuleOf(clean);
    assert rule.key == InMemoryRepository.KeyOf(clean.sortBy);
    assert rule.ascending == !(clean.sortDir != Some("asc"));
    var matching := PropertyRepository.Matching(db.properties, clean);
    SortPermutes(matching, Ordering(rule.key, rule.ascending, storeLe));
    SortPermutes(matching, Ordering(rule.key, rule.ascending, refLe));
    if rule.key == ByPrice || rule.key == ById || forall x, y :: storeLe(x, y) == refLe(x, y) {
      OrderingAgrees(rule.key, rule.ascending, storeLe, refLe);
      SortAgrees(matching, Ordering(rule.key, rule.ascending, storeLe), Ordering(rule.key, rule.ascending, refLe));
    }
  }

  /**
   * A request that passes validation (page 107374184 of 20 rows) makes the store search
   * compute a negative skip: (107374184 - 1) * 20 = 2147483660 wraps to -2147483636,
   * whereas the intended offset is 2147483660.
   */
  lemma SkipOverflowsOnValidRequest()
    ensures var req := ApiModels.FilterRequest(None, None, None, None, 107374184, 20, None, None);
            var clean := PropertyService.Normalize(ApiModels.ToFilter(req));
            && ApiModels.Valid(req)
            && PropertyRepository.Offset(clean) == 2147483660
            && PropertyRepository.SkipAsWritten(clean) == -2147483636
  {
  }

  /**
   * A valid request for page 42949674 of 100 rows wraps the skip round to a small
   * positive number: (42949674 - 1) * 100 = 4294967300 becomes 4, so the store returns
   * rows 5 to 104 of the ranking where the intended offset lies past any realistic total.
   */
  lemma SkipWrapsToSmallOffset()
    ensures var req := ApiModels.FilterRequest(None, None, None, None, 42949674, 100, None, None);
            var clean := PropertyService.Normalize(ApiModels.ToFilter(req));
            && ApiModels.Valid(req)
            && PropertyRepository.Offset(clean) == 4294967300
            && PropertyRepository.SkipAsWritten(clean) == 4
  {
  }

  /**
   * On that request, a store with more than 4 and fewer than 4294967300 matches should
   * answer with an empty page, but the wrapped skip selects a non-empty window of its
   * ranking.
   */
  lemma WrappedSkipShowsRows(db: Store, collate: (string, string) -> bool)
    requires var clean := PropertyService.Normalize(ApiModels.ToFilter(
               ApiModels.FilterRequest(None, None, None, None, 42949674, 100, None, None)));
             4 < PropertyRepository.Total(db, clean) < 4294967300
    ensures var clean := PropertyService.Normalize(ApiModels.ToFilter(
              ApiModels.FilterRequest(None, None, None, None, 42949674, 100, None, None)));
            && PropertyRepository.ListView(db, clean, collate) == []
            && PropertyRepository.Window(PropertyRepository.Ranked(db.properties, clean, collate),
                                         PropertyRepository.SkipAsWritten(clean), PropertyRepository.PageSize(clean)) != []
  {
    var clean := PropertyService.Normalize(ApiModels.ToFilter(
      ApiModels.FilterRequest(None, None, None, None, 42949674, 100, None, None)));
    SkipWrapsToSmallOffset();
    PropertyRepository.PageBounds(db, clean, collate);
    assert |PropertyRepository.Ranked(db.properties, clean, collate)| == PropertyRepository.Total(db, clean);
  }
}
