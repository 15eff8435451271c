/**
 * The store-backed repository: translation of a canonical filter into a conjunctive
 * predicate, one sort rule and a skip/limit window; the list view (the page of
 * properties joined to the first enabled image of each) with the total match
 * count; and the detail view (one property joined to its enabled images, its owner
 * and its sale history, newest first).
 */
module PropertyRepository {
  import opened Wrappers
  import opened Domain
  import opened Seqs
  import opened Sorting
  import opened Text
  import opened RegexEscape
  import opened PropertyOrder

  // ---------------------------------------------------------------- predicate

  /** One clause of the store filter. */
  datatype Condition =
    | NameRegex(pattern: string)
    | AddressRegex(pattern: string)
    | PriceAtLeast(bound: Int64)
    | PriceAtMost(bound: Int64)

  /**
   * A case-insensitive regular expression over `field`. Patterns reach the store
   * escaped, so the expression matches where the text the pattern stands for occurs.
   */
  predicate RegexMatches(field: string, pattern: string) {
    ContainsIgnoreCase(field, Unescape(pattern))
  }

  predicate Satisfies(p: Property, c: Condition) {
    match c
    case NameRegex(pattern) => RegexMatches(p.name, pattern)
    case AddressRegex(pattern) => RegexMatches(p.address, pattern)
    case PriceAtLeast(bound) => p.price >= bound
    case PriceAtMost(bound) => p.price <= bound
  }

  /** The conjunction of `filters`; the empty filter accepts every property. */
  predicate SatisfiesAll(p: Property, filters: seq<Condition>) {
    forall k :: 0 <= k < |filters| ==> Satisfies(p, filters[k])
  }

  /** `f` states no condition at all. */
  predicate Unconstrained(f: PropertyFilter) {
    IsNullOrWhiteSpace(f.name) && IsNullOrWhiteSpace(f.address) && f.minPrice.None? && f.maxPrice.None?
  }

  predicate NameOk(f: PropertyFilter, p: Property) {
    IsNullOrWhiteSpace(f.name) || RegexMatches(p.name, f.name.value)
  }

  predicate AddressOk(f: PropertyFilter, p: Property) {
    IsNullOrWhiteSpace(f.address) || RegexMatches(p.address, f.address.value)
  }

  predicate MinPriceOk(f: PropertyFilter, p: Property) {
    f.minPrice.None? || p.price >= f.minPrice.value
  }

  predicate MaxPriceOk(f: PropertyFilter, p: Property) {
    f.maxPrice.None? || p.price <= f.maxPrice.value
  }

  /**
   * What it means for a property to match `f`: each condition `f` states holds, and a
   * blank text field or an absent bound states none. Price bounds are inclusive.
   */
  predicate Matches(f: PropertyFilter, p: Property) {
    NameOk(f, p) && AddressOk(f, p) && MinPriceOk(f, p) && MaxPriceOk(f, p)
  }

  lemma SatisfiesAllAppend(p: Property, filters: seq<Condition>, c: Condition)
    ensures SatisfiesAll(p, filters + [c]) <==> SatisfiesAll(p, filters) && Satisfies(p, c)
  {
    assert forall k :: 0 <= k < |filters| ==> (filters + [c])[k] == filters[k];
    assert (filters + [c])[|filters|] == c;
  }

  /** Collects one clause per condition present in `f`, in the order name, address, minimum, maximum. */
  method BuildFilter(f: PropertyFilter) returns (filters: seq<Condition>)
    ensures filters == [] <==> Unconstrained(f)
    ensures |filters| <= 4
    ensures forall p :: SatisfiesAll(p, filters) <==> Matches(f, p)
  {
    filters := [];
    if !IsNullOrWhiteSpace(f.name) {
      forall p ensures SatisfiesAll(p, filters + [NameRegex(f.name.value)]) <==> NameOk(f, p) {
        SatisfiesAllAppend(p, filters, NameRegex(f.name.value));
      }
      filters := filters + [NameRegex(f.name.value)];
    }
    assert forall p :: SatisfiesAll(p, filters) <==> NameOk(f, p);
    ghost var before := filters;
    if !IsNullOrWhiteSpace(f.address) {
      forall p ensures SatisfiesAll(p, filters + [AddressRegex(f.address.value)]) <==> SatisfiesAll(p, before) && AddressOk(f, p) {
        SatisfiesAllAppend(p, filters, AddressRegex(f.address.value));
      }
      filters := filters + [AddressRegex(f.address.value)];
    }
    assert forall p :: SatisfiesAll(p, filters) <==> NameOk(f, p) && AddressOk(f, p);
    before := filters;
    if f.minPrice.Some? {
      forall p ensures SatisfiesAll(p, filters + [PriceAtLeast(f.minPrice.value)]) <==> SatisfiesAll(p, before) && MinPriceOk(f, p) {
        SatisfiesAllAppend(p, filters, PriceAtLeast(f.minPrice.value));
      }
      filters := filters + [PriceAtLeast(f.minPrice.value)];
    }
    assert forall p :: SatisfiesAll(p, filters) <==> NameOk(f, p) && AddressOk(f, p) && MinPriceOk(f, p);
    before := filters;
    if f.maxPrice.Some? {
      forall p ensures SatisfiesAll(p, filters + [PriceAtMost(f.maxPrice.value)]) <==> SatisfiesAll(p, before) && MaxPriceOk(f, p) {
        SatisfiesAllAppend(p, filters, PriceAtMost(f.maxPrice.value));
      }
      filters := filters + [PriceAtMost(f.maxPrice.value)];
    }
  }

  /** The properties of `props` that match `f`, in store order. */
  function Matching(props: seq<Property>, f: PropertyFilter): seq<Property> {
    Filter(props, p => Matches(f, p))
  }

  /** The count the store reports: every match, whatever the page. */
  function Total(db: Store, f: PropertyFilter): (t: nat)
    ensures t <= |db.properties|
    ensures t == |db.properties| <==> forall k :: 0 <= k < |db.properties| ==> Matches(f, db.properties[k])
  {
    |Matching(db.properties, f)|
  }

  // ---------------------------------------------------------------- ordering

  datatype SortRule = SortRule(key: SortKey, ascending: bool)

  /** The sort key a canonical sort name selects; the comparison is exact (case-sensitive). */
  function KeyNamed(sortBy: Option<string>): Option<SortKey> {
    match sortBy
    case Some("price") => Some(ByPrice)
    case Some("name") => Some(ByName)
    case Some("address") => Some(ByAddress)
    case Some("id") => Some(ById)
    case _ => None
  }

  /**
   * The sort rule of `f`: the named key, ascending only for the direction "asc"; a
   * missing or unknown key gives price descending whatever the direction.
   */
  function SortRuleOf(f: PropertyFilter): (rule: SortRule)
    ensures KeyNamed(f.sortBy).None? ==> rule == SortRule(ByPrice, false)
    ensures KeyNamed(f.sortBy).Some? ==> rule.key == KeyNamed(f.sortBy).value
    ensures rule.ascending <==> KeyNamed(f.sortBy).Some? && f.sortDir == Some("asc")
  {
    match KeyNamed(f.sortBy)
    case None => SortRule(ByPrice, false)
    case Some(key) => SortRule(key, f.sortDir == Some("asc"))
  }

  /** The matches of `f` in the order of its sort rule (ties in store order). */
  function Ranked(props: seq<Property>, f: PropertyFilter, collate: (string, string) -> bool): seq<Property> {
    var rule := SortRuleOf(f);
    StableSort(Matching(props, f), Ordering(rule.key, rule.ascending, collate))
  }

  // ---------------------------------------------------------------- paging

  /** `Math.Max(1, Page)`. */
  function PageNumber(f: PropertyFilter): (page: nat)
    ensures page >= 1 && (f.page >= 1 ==> page == f.page)
  {
    if f.page < 1 then 1 else f.page
  }

  /** `Math.Clamp(PageSize, 1, 100)`: the nearest value in [1, 100]. */
  function PageSize(f: PropertyFilter): (size: nat)
    ensures 1 <= size <= 100
    ensures 1 <= f.pageSize <= 100 ==> size == f.pageSize
    ensures f.pageSize < 1 ==> size == 1
    ensures f.pageSize > 100 ==> size == 100
  {
    if f.pageSize < 1 then 1 else if f.pageSize > 100 then 100 else f.pageSize
  }

  /** The number of rows skipped, computed without overflow. */
  function Offset(f: PropertyFilter): (offset: nat)
    ensures offset == 0 <==> PageNumber(f) == 1
  {
    (PageNumber(f) - 1) * PageSize(f)
  }

  function Min(a: int, b: int): int {
    if a <= b then a else b
  }

  /** `Skip(offset).Limit(size)`: at most `size` elements of `s` starting at `offset`. */
  function Window<T>(s: seq<T>, offset: nat, size: nat): (r: seq<T>)
    ensures |r| == if offset >= |s| then 0 else Min(size, |s| - offset)
    ensures forall k :: 0 <= k < |r| ==> offset + k < |s| && r[k] == s[offset + k]
  {
    if offset >= |s| then [] else s[offset..offset + Min(size, |s| - offset)]
  }

  // ---------------------------------------------------------------- list view

  /**
   * The dictionary `GroupBy(IdProperty).ToDictionary(First().File)` builds: each
   * property id mapped to the file of its first image in `images`.
   */
  function ImageMap(images: seq<PropertyImage>): (m: map<Int32, string>)
    ensures forall id :: id in m <==> exists k :: 0 <= k < |images| && images[k].idProperty == id
    decreases |images|
  {
    if images == [] then map[]
    else ImageMap(images[1..])[images[0].idProperty := images[0].file]
  }

  function Thumbnail(m: map<Int32, string>, id: Int32): string {
    if id in m then m[id] else ""
  }

  /** Reference definition: the file of the first enabled image of property `id` in store order, or "". */
  function FirstEnabledFile(images: seq<PropertyImage>, id: Int32): string
    decreases |images|
  {
    if images == [] then ""
    else if images[0].idProperty == id && images[0].enabled then images[0].file
    else FirstEnabledFile(images[1..], id)
  }

  function ToListDto(p: Property, m: map<Int32, string>): PropertyListDto {
    PropertyListDto(p.idProperty, p.idOwner, p.name, p.address, p.price, Thumbnail(m, p.idProperty))
  }

  function Ids(props: seq<Property>): set<Int32> {
    set k | 0 <= k < |props| :: props[k].idProperty
  }

  /** The enabled images whose property is one of `ids`, in store order. */
  function EnabledImagesOf(images: seq<PropertyImage>, ids: set<Int32>): (r: seq<PropertyImage>)
    ensures forall i :: i in r <==> i in images && i.idProperty in ids && i.enabled
    decreases |images|
  {
    if images == [] then []
    else
      (if images[0].idProperty in ids && images[0].enabled then [images[0]] else [])
      + EnabledImagesOf(images[1..], ids)
  }

  /** The rows of the requested page: the window of the ranked matches, each with its thumbnail. */
  function ListView(db: Store, f: PropertyFilter, collate: (string, string) -> bool): (rows: seq<PropertyListDto>)
    ensures |rows| <= PageSize(f) && |rows| <= Total(db, f)
  {
    var props := Window(Ranked(db.properties, f, collate), Offset(f), PageSize(f));
    var imgMap := ImageMap(EnabledImagesOf(db.images, Ids(props)));
    Project(props, p => ToListDto(p, imgMap))
  }

  /** `Find(filter)`: the properties that satisfy the clauses built from `f`, in store order. */
  method Find(props: seq<Property>, f: PropertyFilter) returns (found: seq<Property>)
    ensures found == Matching(props, f)
  {
    var filters := BuildFilter(f);
    found := Filter(props, p => SatisfiesAll(p, filters));
    FilterAgrees(props, p => SatisfiesAll(p, filters), p => Matches(f, p));
  }

  /** Price descending, overwritten by the rule for the named key when there is one. */
  method BuildSort(f: PropertyFilter) returns (sort: SortRule)
    ensures sort == SortRuleOf(f)
  {
    sort := SortRule(ByPrice, false);
    if f.sortBy == Some("price") {
      sort := SortRule(ByPrice, f.sortDir == Some("asc"));
    } else if f.sortBy == Some("name") {
      sort := SortRule(ByName, f.sortDir == Some("asc"));
    } else if f.sortBy == Some("address") {
      sort := SortRule(ByAddress, f.sortDir == Some("asc"));
    } else if f.sortBy == Some("id") {
      sort := SortRule(ById, f.sortDir == Some("asc"));
    }
  }

  /**
   * The list query: the filter's clauses and sort rule are built step by step, then the
   * store counts the matches and returns the requested page, which is joined to the
   * enabled images of its properties.
   */
  method GetAsync(db: Store, f: PropertyFilter, collate: (string, string) -> bool)
    returns (items: seq<PropertyListDto>, total: nat)
    ensures total == Total(db, f)
    ensures items == ListView(db, f, collate)
  {
    var found := Find(db.properties, f);
    total := |found|;

    var sort := BuildSort(f);

    var page := if f.page < 1 then 1 else f.page;
    var size := if f.pageSize < 1 then 1 else if f.pageSize > 100 then 100 else f.pageSize;
    assert page == PageNumber(f) && size == PageSize(f);
    var skip := (page - 1) * size;
    assert skip == Offset(f);
    var sorted := StableSort(found, Ordering(sort.key, sort.ascending, collate));
    assert sorted == Ranked(db.properties, f, collate);
    var props := Window(sorted, skip, size);

    var ids := Ids(props);
    var images := EnabledImagesOf(db.images, ids);
    var imgMap := ImageMap(images);
    items := Project(props, p => ToListDto(p, imgMap));
  }

  /** The dictionary lookup gives the first enabled image of each listed property. */
  lemma {:induction false} ImageMapFirstEnabled(images: seq<PropertyImage>, ids: set<Int32>, id: Int32)
    requires id in ids
    ensures Thumbnail(ImageMap(EnabledImagesOf(images, ids)), id) == FirstEnabledFile(images, id)
    decreases |images|
  {
    if images != [] {
      ImageMapFirstEnabled(images[1..], ids, id);
      var rest := EnabledImagesOf(images[1..], ids);
      if images[0].idProperty in ids && images[0].enabled {
        assert ([images[0]] + rest)[1..] == rest;
      } else {
        assert EnabledImagesOf(images, ids) == rest;
      }
    }
  }

  /** A filter that states no condition matches every property, so the total is the collection size. */
  lemma UnconstrainedMatchesAll(db: Store, f: PropertyFilter, collate: (string, string) -> bool)
    requires Unconstrained(f)
    ensures Matching(db.properties, f) == db.properties
    ensures Total(db, f) == |db.properties|
    ensures multiset(Ranked(db.properties, f, collate)) == multiset(db.properties)
  {
    FilterKeepsAll(db.properties, p => Matches(f, p));
    var rule := SortRuleOf(f);
    SortPermutes(Matching(db.properties, f), Ordering(rule.key, rule.ascending, collate));
  }

  /**
   * The page holds at most `PageSize(f)` rows, exactly as many as remain after the
   * offset, and it is empty exactly when the offset reaches the total.
   */
  lemma PageBounds(db: Store, f: PropertyFilter, collate: (string, string) -> bool)
    ensures |ListView(db, f, collate)| <= PageSize(f)
    ensures |ListView(db, f, collate)| == if Offset(f) >= Total(db, f) then 0 else Min(PageSize(f), Total(db, f) - Offset(f))
    ensures ListView(db, f, collate) == [] <==> Offset(f) >= Total(db, f)
  {
  }

  /**
   * Row `k` of the page is the ranked match at `Offset(f) + k`: its fields are copied
   * from that property and its image is that property's first enabled image.
   */
  lemma ListViewRow(db: Store, f: PropertyFilter, collate: (string, string) -> bool, k: nat)
    requires k < |ListView(db, f, collate)|
    ensures Offset(f) + k < Total(db, f)
    ensures var p := Ranked(db.properties, f, collate)[Offset(f) + k];
            var row := ListView(db, f, collate)[k];
            && Matches(f, p) && p in db.properties
            && row.idProperty == p.idProperty && row.idOwner == p.idOwner && row.name == p.name
            && row.address == p.address && row.price == p.price
            && row.image == FirstEnabledFile(db.images, p.idProperty)
  {
    var ranked := Ranked(db.properties, f, collate);
    var props := Window(ranked, Offset(f), PageSize(f));
    var p := props[k];
    assert p == ranked[Offset(f) + k];
    RankedMatches(db.properties, f, collate, Offset(f) + k);
    assert p.idProperty in Ids(props);
    ImageMapFirstEnabled(db.images, Ids(props), p.idProperty);
  }

  /** Every ranked property is a match of `f` taken from the collection. */
  lemma RankedMatches(props: seq<Property>, f: PropertyFilter, collate: (string, string) -> bool, k: nat)
    requires k < |Ranked(props, f, collate)|
    ensures Matches(f, Ranked(props, f, collate)[k]) && Ranked(props, f, collate)[k] in props
  {
    var ranked := Ranked(props, f, collate);
    var found := Matching(props, f);
    var rule := SortRuleOf(f);
    SortPermutes(found, Ordering(rule.key, rule.ascending, collate));
    assert ranked[k] in multiset(ranked);
    assert ranked[k] in multiset(found);
    var j :| 0 <= j < |found| && found[j] == ranked[k];
    FilterHas(props, p => Matches(f, p), ranked[k]);
  }

  /** The rows of a page follow the sort rule of the filter. */
  lemma ListViewOrdered(db: Store, f: PropertyFilter, collate: (string, string) -> bool)
    requires TotalPreorder(collate)
    ensures var items := ListView(db, f, collate); var rule := SortRuleOf(f);
            forall i, j :: 0 <= i < j < |items| ==> RowInOrder(rule.key, rule.ascending, collate, items[i], items[j])
  {
    var rule := SortRuleOf(f);
    var le := Ordering(rule.key, rule.ascending, collate);
    OrderingIsTotalPreorder(rule.key, rule.ascending, collate);
    SortSorted(Matching(db.properties, f), le);
    var ranked := Ranked(db.properties, f, collate);
    var items := ListView(db, f, collate);
    forall i, j | 0 <= i < j < |items| ensures RowInOrder(rule.key, rule.ascending, collate, items[i], items[j]) {
      ListViewRow(db, f, collate, i);
      ListViewRow(db, f, collate, j);
      assert le(ranked[Offset(f) + i], ranked[Offset(f) + j]);
    }
  }

  // ---------------------------------------------------------------- detail view

  /** The position of the first property with id `id` at or after `from` (or `|props|`). */
  function FindProperty(props: seq<Property>, id: Int32, from: nat): (k: nat)
    requires from <= |props|
    ensures from <= k <= |props|
    ensures forall j :: from <= j < k ==> props[j].idProperty != id
    ensures k < |props| ==> props[k].idProperty == id
    decreases |props| - from
  {
    if from == |props| || props[from].idProperty == id then from else FindProperty(props, id, from + 1)
  }

  /** The position of the first owner with id `id` at or after `from` (or `|owners|`). */
  function FindOwner(owners: seq<Owner>, id: Int32, from: nat): (k: nat)
    requires from <= |owners|
    ensures from <= k <= |owners|
    ensures forall j :: from <= j < k ==> owners[j].idOwner != id
    ensures k < |owners| ==> owners[k].idOwner == id
    decreases |owners| - from
  {
    if from == |owners| || owners[from].idOwner == id then from else FindOwner(owners, id, from + 1)
  }

  function ToOwnerDto(o: Owner): OwnerDto {
    OwnerDto(o.idOwner, o.name, o.address, o.photo, o.birthday)
  }

  function ToTraceDto(t: PropertyTrace): PropertyTraceDto {
    PropertyTraceDto(t.idPropertyTrace, t.dateSale, t.name, t.value, t.tax)
  }

  /** Newest sale first. */
  function TraceNewerOrSame(a: PropertyTrace, b: PropertyTrace): bool {
    b.dateSale <= a.dateSale
  }

  function TraceDtoNewerOrSame(a: PropertyTraceDto, b: PropertyTraceDto): bool {
    b.dateSale <= a.dateSale
  }

  /** The files of the enabled images of property `id`, in store order. */
  function EnabledFiles(images: seq<PropertyImage>, id: Int32): seq<string> {
    Project(Filter(images, (i: PropertyImage) => i.idProperty == id && i.enabled), (i: PropertyImage) => i.file)
  }

  /** The sale history of property `id`, newest first (ties in store order). */
  function TracesOf(traces: seq<PropertyTrace>, id: Int32): seq<PropertyTraceDto> {
    Project(StableSort(Filter(traces, (t: PropertyTrace) => t.idProperty == id), TraceNewerOrSame), ToTraceDto)
  }

  /**
   * The detail query: `None` when no property has id `id`; otherwise the first such
   * property joined to its enabled image files, its owner (if one exists) and its
   * sale history.
   */
  function GetById(db: Store, id: Int32): (r: Option<PropertyDetailDto>)
    ensures r.None? <==> forall k :: 0 <= k < |db.properties| ==> db.properties[k].idProperty != id
  {
    var k := FindProperty(db.properties, id, 0);
    if k == |db.properties| then None
    else
      var p := db.properties[k];
      var o := FindOwner(db.owners, p.idOwner, 0);
      var owner := if o == |db.owners| then None else Some(ToOwnerDto(db.owners[o]));
      Some(PropertyDetailDto(
        p.idOwner, p.name, p.address, p.price, p.codeInternal, p.year,
        EnabledFiles(db.images, id), owner, TracesOf(db.traces, id)))
  }

  /** The detail copies the fields of the first property with id `id`. */
  lemma DetailFields(db: Store, id: Int32)
    requires GetById(db, id).Some?
    ensures var d := GetById(db, id).value;
            exists k :: 0 <= k < |db.properties| && db.properties[k].idProperty == id
              && (forall j :: 0 <= j < k ==> db.properties[j].idProperty != id)
              && var p := db.properties[k];
                 d.idOwner == p.idOwner && d.name == p.name && d.address == p.address
                 && d.price == p.price && d.codeInternal == p.codeInternal && d.year == p.year
  {
    var k := FindProperty(db.properties, id, 0);
    assert k < |db.properties|;
  }

  /**
   * The detail's images are the files of exactly the enabled images of the property,
   * one per image (duplicates kept) and in store order; a property with none gets an
   * empty list.
   */
  lemma DetailImages(db: Store, id: Int32)
    requires GetById(db, id).Some?
    ensures var files := GetById(db, id).value.images;
            && (forall x :: x in files <==> exists i :: i in db.images && i.idProperty == id && i.enabled && i.file == x)
            && |files| == |Filter(db.images, (i: PropertyImage) => i.idProperty == id && i.enabled)|
            && (files == [] <==> forall j :: 0 <= j < |db.images| ==> !(db.images[j].idProperty == id && db.images[j].enabled))
            && (exists idx :: AcceptedPositions(db.images, (i: PropertyImage) => i.idProperty == id && i.enabled, idx)
                  && |idx| == |files| && forall k :: 0 <= k < |idx| ==> files[k] == db.images[idx[k]].file)
  {
    assert GetById(db, id).value.images == EnabledFiles(db.images, id);
    EnabledFilesHas(db.images, id);
    EnabledFilesEmpty(db.images, id);
    EnabledFilesInOrder(db.images, id);
  }

  /** A file is among the enabled files of a property iff one of its enabled images has it. */
  lemma EnabledFilesHas(images: seq<PropertyImage>, id: Int32)
    ensures var files := EnabledFiles(images, id);
            forall x :: x in files <==> exists i :: i in images && i.idProperty == id && i.enabled && i.file == x
  {
    var keep := (i: PropertyImage) => i.idProperty == id && i.enabled;
    var sel := Filter(images, keep);
    var files := EnabledFiles(images, id);
    assert files == Project(sel, (i: PropertyImage) => i.file);
    forall x ensures x in files <==> exists i :: i in images && i.idProperty == id && i.enabled && i.file == x {
      if x in files {
        var k :| 0 <= k < |files| && files[k] == x;
        FilterHas(images, keep, sel[k]);
      }
      if exists i :: i in images && i.idProperty == id && i.enabled && i.file == x {
        var i :| i in images && i.idProperty == id && i.enabled && i.file == x;
        FilterHas(images, keep, i);
        var k :| 0 <= k < |sel| && sel[k] == i;
        assert files[k] == x;
      }
    }
  }

  /** A property has no enabled files iff none of its images is enabled. */
  lemma EnabledFilesEmpty(images: seq<PropertyImage>, id: Int32)
    ensures EnabledFiles(images, id) == []
        <==> forall j :: 0 <= j < |images| ==> !(images[j].idProperty == id && images[j].enabled)
  {
    var keep := (i: PropertyImage) => i.idProperty == id && i.enabled;
    var sel := Filter(images, keep);
    if EnabledFiles(images, id) == [] {
      forall j | 0 <= j < |images| ensures !keep(images[j]) {
        FilterHas(images, keep, images[j]);
      }
    } else {
      FilterHas(images, keep, sel[0]);
    }
  }

  /** The enabled files of a property are read off its enabled images in store order. */
  lemma EnabledFilesInOrder(images: seq<PropertyImage>, id: Int32)
    ensures var files := EnabledFiles(images, id);
            exists idx :: AcceptedPositions(images, (i: PropertyImage) => i.idProperty == id && i.enabled, idx)
              && |idx| == |files| && forall k :: 0 <= k < |idx| ==> files[k] == images[idx[k]].file
  {
    var idx := FilterPositions(images, (i: PropertyImage) => i.idProperty == id && i.enabled);
    assert forall k :: 0 <= k < |idx| ==> EnabledFiles(images, id)[k] == images[idx[k]].file;
  }

  /**
   * The owner is the first owner whose id is the property's owner id, or absent when
   * there is none.
   */
  lemma DetailOwner(db: Store, id: Int32)
    requires GetById(db, id).Some?
    ensures var d := GetById(db, id).value;
            && (d.owner.None? <==> forall j :: 0 <= j < |db.owners| ==> db.owners[j].idOwner != d.idOwner)
            && (d.owner.Some? ==>
                  exists j :: (0 <= j < |db.owners| && d.owner.value == ToOwnerDto(db.owners[j])
                               && db.owners[j].idOwner == d.idOwner
                               && forall i :: 0 <= i < j ==> db.owners[i].idOwner != d.idOwner))
  {
    var d := GetById(db, id).value;
    var o := FindOwner(db.owners, d.idOwner, 0);
    if o < |db.owners| {
      assert d.owner.value == ToOwnerDto(db.owners[o]);
    }
  }

  /**
   * The history is a permutation of the property's traces (as transfer records),
   * ordered by sale date, newest first.
   */
  lemma DetailTraces(db: Store, id: Int32)
    requires GetById(db, id).Some?
    ensures var ts := GetById(db, id).value.traces;
            && multiset(ts) == multiset(Project(Filter(db.traces, (t: PropertyTrace) => t.idProperty == id), ToTraceDto))
            && forall i, j :: 0 <= i < j < |ts| ==> ts[j].dateSale <= ts[i].dateSale
  {
    var mine := Filter(db.traces, (t: PropertyTrace) => t.idProperty == id);
    var ts := GetById(db, id).value.traces;
    assert ts == TracesOf(db.traces, id);
    SortProject(mine, TraceNewerOrSame, ToTraceDto, TraceDtoNewerOrSame);
    assert ts == StableSort(Project(mine, ToTraceDto), TraceDtoNewerOrSame);
    SortPermutes(Project(mine, ToTraceDto), TraceDtoNewerOrSame);
    SortSorted(Project(mine, ToTraceDto), TraceDtoNewerOrSame);
  }

  /**
   * The list thumbnail of a property is the first file of its detail images, and ""
   * when the detail has no image.
   */
  lemma {:induction false} ThumbnailIsFirstImage(images: seq<PropertyImage>, id: Int32)
    ensures EnabledFiles(images, id) == [] ==> FirstEnabledFile(images, id) == ""
    ensures EnabledFiles(images, id) != [] ==> EnabledFiles(images, id)[0] == FirstEnabledFile(images, id)
    decreases |images|
  {
    if images != [] {
      ThumbnailIsFirstImage(images[1..], id);
      var keep := (i: PropertyImage) => i.idProperty == id && i.enabled;
      if keep(images[0]) {
        assert Filter(images, keep)[0] == images[0];
      } else {
        assert Filter(images, keep) == Filter(images[1..], keep);
        assert EnabledFiles(images, id) == EnabledFiles(images[1..], id);
      }
    }
  }

  // ---------------------------------------------------------------- 32-bit skip

  /** C# `int` arithmetic: the result wraps modulo 2^32 into [-2^31, 2^31). */
  function Wrap32(x: int): (r: Int32)
    ensures (x - r) % 0x1_0000_0000 == 0
    ensures -MaxInt32 - 1 <= x <= MaxInt32 ==> r == x
  {
    var m := x % 0x1_0000_0000;
    if m > MaxInt32 then m - 0x1_0000_0000 else m
  }

  /** The skip count exactly as the source computes it, `(page - 1) * size` in 32-bit `int`. */
  function SkipAsWritten(f: PropertyFilter): Int32 {
    Wrap32((PageNumber(f) - 1) * PageSize(f))
  }

  /** While the product fits in an `int`, the 32-bit skip is the intended offset. */
  lemma SkipAsWrittenAgrees(f: PropertyFilter)
    requires Offset(f) <= MaxInt32
    ensures SkipAsWritten(f) == Offset(f)
  {
  }
}
