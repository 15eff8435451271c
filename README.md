# Real-estate search and detail pipeline, modelled in Dafny

This project models the query core of the real-estate listing backend and one helper
of its web front end:

- **Filter normaliser** (`PropertyService`). It turns an untrusted `PropertyFilter`
  into the canonical filter handed to the repository:
  - blank text becomes absent, other text is trimmed and regex-escaped;
  - page and page size are replaced when out of range;
  - negative price bounds become 0, and bounds in the wrong order are swapped;
  - the sort key and direction are forced into fixed sets.
- **Store query** (`PropertyRepository`). The list query builds a conjunction of
  conditions, a sort rule, a skip/limit window and a total count, then joins each
  row of the page to its first enabled image. The detail query joins one property to
  its enabled images, its optional owner and its sale history, newest first.
- **In-memory reference search** (`InMemoryPropertyRepository`). This is the LINQ
  version of the same filter and sort that the unit tests use. It comes with its
  default seed and the two test scenarios.
- **Request validation** (`FilterRequest`). The `[Range]` rules form a validity
  predicate, and the property defaults form a default request.
- **Image path helper** (`resolveImage` in `App.tsx`). It also covers the detail
  modal's choice of its first picture.

Each Mongo collection is a `seq` in store order. `Find` is `Seqs.Filter`. A sort is
the stable insertion sort `Sorting.StableSort`, proved to be a permutation, ordered
and stable. `Skip`/`Limit` is `PropertyRepository.Window`. String ordering for name
and address sorts is a parameter `collate`, which may be any total preorder;
`Text.CodePointLe`, the order of Mongo's default binary collation, is one such
order, proved a total order. The store and the reference search each take their own
string order, since Mongo's collation and the .NET string comparer differ. `int` and `long`
are the subset types `Int32` and `Int64`. Dates are integer timestamps.

Two parts of the source change local variables step by step, and those are methods
proved against specification functions:

- In the service, `NormalizeSort`, the price clamp-and-swap (`NormalizePrices`) and
  `SearchAsync` are methods.
- In the store, the filter list built by `Add` (`BuildFilter`) and the sort chosen
  through an if-chain (`BuildSort`) are methods, and `GetAsync` combines them.

The rest is pure query composition and is modelled as functions and lemmas.

Modules, one file each: `Wrappers` (Option), `Seqs` (filter and projection),
`Sorting` (stable sort), `Text` (whitespace, trim, ASCII case folding, substring
search, binary (code-point) order), `RegexEscape` (the escape of `Regex.Escape` and its
inverse), `Domain` (entities and DTOs), `PropertyOrder` (sort keys),
`PropertyService`, `PropertyRepository`, `InMemoryRepository`, `ApiModels`
(`FilterRequest`), `App` (`resolveImage`) and `Pipeline` (cross-layer statements).

Two choices in the detail view:

- `GetByIdAsync` takes the first owner whose `IdOwner` matches
  (`FirstOrDefaultAsync`, PropertyRepository.cs:93-95). The store does not enforce
  unique owner ids.
- Traces with equal `DateSale` keep store order. This is one admissible result of
  `SortByDescending`.

## Model

| member | source | states |
|---|---|---|
| Seqs.Filter | backend/RealEstate.Infrastructure/Repositories/PropertyRepository.cs:48-49 | a `Find` keeps only matching documents, is no longer than the collection, and keeps everything exactly when every document matches |
| Seqs.FilterHas | backend/RealEstate.Infrastructure/Repositories/PropertyRepository.cs:48-49 | a value is in the found sequence iff it is in the collection and matches |
| Seqs.FilterPositions | backend/RealEstate.Infrastructure/Repositories/PropertyRepository.cs:87-90 | the found sequence is the subsequence of the collection at exactly its matching positions, in increasing order, each once |
| Seqs.FilterSubMultiset | backend/RealEstate.Tests/Unit/InMemoryPropertyRepository.cs:36-43 | a chain of `Where` yields a sub-multiset of the data |
| Sorting.SortPermutes | backend/RealEstate.Infrastructure/Repositories/PropertyRepository.cs:50 | sorting returns a permutation of its input |
| Sorting.SortSorted | backend/RealEstate.Infrastructure/Repositories/PropertyRepository.cs:50 | the sorted sequence is ordered by the comparison |
| Sorting.SortStable | backend/RealEstate.Tests/Unit/InMemoryPropertyRepository.cs:47-51 | elements ranked equal keep their input order, as LINQ `OrderBy` does |
| Sorting.SortProject | backend/RealEstate.Infrastructure/Repositories/PropertyRepository.cs:104-105 | sorting then projecting to the trace DTO equals projecting then sorting by the same date |
| Sorting.SortAgrees | backend/RealEstate.Infrastructure/Repositories/PropertyRepository.cs:50 | two comparisons that agree on every pair sort every sequence into the same order |
| Text.Trim | backend/RealEstate.Application/Services/PropertyService.cs:16 | the trimmed text is the slice between the leading and trailing whitespace runs; it starts and ends with non-whitespace and is empty iff the text is blank |
| Text.TrimTrimmed | backend/RealEstate.Application/Services/PropertyService.cs:16 | trimming text that has no outer whitespace changes nothing |
| Text.ContainsIgnoreCase | backend/RealEstate.Tests/Unit/InMemoryPropertyRepository.cs:37 | the result is true iff the needle occurs at some position, ignoring ASCII case |
| Text.CodePointIsTotalOrder | backend/RealEstate.Infrastructure/Repositories/PropertyRepository.cs:36-40 | code-point order, which Mongo's default binary collation uses for the name and address sorts, is total, transitive and antisymmetric; it is a witness that the `collate` hypotheses can be met |
| RegexEscape.EscapeChar | backend/RealEstate.Application/Services/PropertyService.cs:16 | a metacharacter becomes a backslash and a code that unescapes back to it; any other character is kept |
| RegexEscape.UnescapeEscape | backend/RealEstate.Application/Services/PropertyService.cs:16 | unescaping an escaped string gives the string back |
| RegexEscape.EscapeIsLiteral | backend/RealEstate.Application/Services/PropertyService.cs:12-16 | an escaped string has no bare metacharacter: every backslash introduces an escape code |
| RegexEscape.EscapeUnchanged | backend/RealEstate.Application/Services/PropertyService.cs:16 | escaping leaves a string unchanged iff it has no metacharacter |
| RegexEscape.EscapeLength | backend/RealEstate.Application/Services/PropertyService.cs:16 | escaping never shortens a string |
| PropertyService.Sanitize | backend/RealEstate.Application/Services/PropertyService.cs:13-17 | absent exactly for null, empty or all-whitespace input; otherwise a literal, non-blank pattern that unescapes to the trimmed input |
| PropertyService.NormalizedSortBy | backend/RealEstate.Application/Services/PropertyService.cs:21-24 | the key is one of price, name, address, id; it is the lower-cased input when that is allowed, and "price" otherwise |
| PropertyService.NormalizedSortDir | backend/RealEstate.Application/Services/PropertyService.cs:22-25 | the direction is "asc" or "desc", and it is "asc" iff the input lower-cases to "asc" |
| PropertyService.NormalizeSort | backend/RealEstate.Application/Services/PropertyService.cs:19-27 | the reassignments produce the normalised key and direction, which lie in the allowed sets |
| PropertyService.NormalizedPage | backend/RealEstate.Application/Services/PropertyService.cs:32 | a page of at least 1 is kept; anything lower becomes 1 |
| PropertyService.NormalizedPageSize | backend/RealEstate.Application/Services/PropertyService.cs:33 | a size in 1..100 is kept; anything else becomes 20, not the nearest bound |
| PropertyService.NormalizedPrices | backend/RealEstate.Application/Services/PropertyService.cs:34-38 | each bound stays present or absent and is non-negative; a lone bound is its clamp; two bounds come out ordered and are the two clamped values, perhaps swapped |
| PropertyService.NormalizePrices | backend/RealEstate.Application/Services/PropertyService.cs:34-38 | the in-place clamp and swap compute the normalised bounds, and two bounds end up with 0 <= min <= max |
| PropertyService.Normalize | backend/RealEstate.Application/Services/PropertyService.cs:32-51 | the canonical filter: text absent iff blank, bounds present as given, non-negative and ordered, page at least 1, size in 1..100, sort key in the allowed set and direction "asc" or "desc" |
| PropertyService.SearchAsync | backend/RealEstate.Application/Services/PropertyService.cs:29-55 | the returned page and size are those of the canonical filter, within bounds; the items and total are the store's answer to that filter, unchanged |
| PropertyService.GetByIdAsync | backend/RealEstate.Application/Services/PropertyService.cs:57-58 | the detail passes straight through and is absent iff no property has the id |
| PropertyService.NormalizeIdempotent | backend/RealEstate.Application/Services/PropertyService.cs:21-38 | normalising a canonical filter again keeps page, size, prices and sort, and only re-sanitises the text |
| PropertyService.SanitizeNotIdempotent | backend/RealEstate.Application/Services/PropertyService.cs:16 | sanitising "a.b" twice re-escapes the backslash, so `Sanitize` is not idempotent |
| PropertyRepository.Matches | backend/RealEstate.Infrastructure/Repositories/PropertyRepository.cs:20-27 | the conjunction of the present conditions: a case-insensitive regex match of each non-blank text and inclusive price bounds; an empty filter matches everything (definition; no contract of its own) |
| PropertyRepository.BuildFilter | backend/RealEstate.Infrastructure/Repositories/PropertyRepository.cs:18-27 | the conditions added hold together exactly for the properties the filter matches; the list is empty iff the filter has no text and no bound |
| PropertyRepository.Matching | backend/RealEstate.Infrastructure/Repositories/PropertyRepository.cs:48-49 | the properties the `Find` selects, in store order (definition; its meaning is stated by `Find`, `Total` and `Seqs.FilterHas`) |
| PropertyRepository.Total | backend/RealEstate.Infrastructure/Repositories/PropertyRepository.cs:29 | the count ignores paging, never exceeds the collection, and equals it iff every property matches |
| PropertyRepository.SortRuleOf | backend/RealEstate.Infrastructure/Repositories/PropertyRepository.cs:31-43 | a known key sorts by that key, ascending iff the direction is "asc"; an unknown key sorts by price descending, even for "asc" |
| PropertyRepository.BuildSort | backend/RealEstate.Infrastructure/Repositories/PropertyRepository.cs:31-43 | the if-chain computes the sort rule of the filter |
| PropertyOrder.OrderingIsTotalPreorder | backend/RealEstate.Infrastructure/Repositories/PropertyRepository.cs:31-43 | every key and direction gives a total preorder on properties when the string order is one |
| PropertyOrder.OrderingAgrees | backend/RealEstate.Infrastructure/Repositories/PropertyRepository.cs:31-43 | price and id sorts compare alike under any two string orders; name and address sorts do when the string orders agree |
| PropertyRepository.PageNumber | backend/RealEstate.Infrastructure/Repositories/PropertyRepository.cs:45 | the page is at least 1 and keeps any page of at least 1 |
| PropertyRepository.PageSize | backend/RealEstate.Infrastructure/Repositories/PropertyRepository.cs:46 | the size is clamped to 1..100 |
| PropertyRepository.Window | backend/RealEstate.Infrastructure/Repositories/PropertyRepository.cs:51-52 | skip/limit returns the elements from the offset on, at most the limit of them, in order |
| PropertyRepository.Find | backend/RealEstate.Infrastructure/Repositories/PropertyRepository.cs:48-49 | the query finds the properties the filter matches, in store order |
| PropertyRepository.GetAsync | backend/RealEstate.Infrastructure/Repositories/PropertyRepository.cs:15-76 | the total and the page rows are those of the list view of the filter |
| PropertyRepository.UnconstrainedMatchesAll | backend/RealEstate.Infrastructure/Repositories/PropertyRepository.cs:27 | a filter without conditions matches every property; the total is the collection size and the ranking is a permutation of it |
| PropertyRepository.Offset | backend/RealEstate.Infrastructure/Repositories/PropertyRepository.cs:51 | the intended skip (page - 1) * size without overflow; it is 0 exactly on the first page |
| PropertyRepository.PageBounds | backend/RealEstate.Infrastructure/Repositories/PropertyRepository.cs:45-52 | a page holds at most `size` rows, exactly min(size, total - offset) of them, and is empty iff the offset reaches the total |
| PropertyRepository.Ranked | backend/RealEstate.Infrastructure/Repositories/PropertyRepository.cs:48-50 | the matches sorted by the filter's sort rule, ties in store order (definition; its meaning is stated by `RankedMatches` and `ListViewOrdered`) |
| PropertyRepository.RankedMatches | backend/RealEstate.Infrastructure/Repositories/PropertyRepository.cs:48-50 | every ranked property matches the filter and comes from the collection |
| PropertyRepository.ListView | backend/RealEstate.Infrastructure/Repositories/PropertyRepository.cs:48-73 | the rows of the requested page, each joined to its thumbnail; there are at most page-size of them and never more than the total |
| PropertyRepository.ListViewRow | backend/RealEstate.Infrastructure/Repositories/PropertyRepository.cs:66-73 | row k copies id, owner, name, address and price of ranked match offset+k, with the file of that property's first enabled image or "" |
| PropertyRepository.ListViewOrdered | backend/RealEstate.Infrastructure/Repositories/PropertyRepository.cs:31-52 | the rows of a page follow the sort rule of the filter |
| PropertyRepository.ImageMap | backend/RealEstate.Infrastructure/Repositories/PropertyRepository.cs:63-64 | the grouped dictionary has a key for exactly the property ids that occur among the images |
| PropertyRepository.EnabledImagesOf | backend/RealEstate.Infrastructure/Repositories/PropertyRepository.cs:56-61 | the image query keeps exactly the enabled images whose property is on the page |
| PropertyRepository.ImageMapFirstEnabled | backend/RealEstate.Infrastructure/Repositories/PropertyRepository.cs:56-64 | the grouped image dictionary gives each property on the page its first enabled image in store order, or "" |
| PropertyRepository.FindProperty | backend/RealEstate.Infrastructure/Repositories/PropertyRepository.cs:80-82 | the first property with the id is found, or none is left to look at |
| PropertyRepository.FindOwner | backend/RealEstate.Infrastructure/Repositories/PropertyRepository.cs:93-95 | the first owner with the id is found, or none is left to look at |
| PropertyRepository.GetById | backend/RealEstate.Infrastructure/Repositories/PropertyRepository.cs:78-119 | the detail is absent iff no property has the id |
| PropertyRepository.DetailFields | backend/RealEstate.Infrastructure/Repositories/PropertyRepository.cs:108-118 | the detail copies owner id, name, address, price, internal code and year of the first property with the id |
| PropertyRepository.DetailImages | backend/RealEstate.Infrastructure/Repositories/PropertyRepository.cs:87-90 | the images are the files of the property's enabled images read at exactly their positions in store order, one per image with duplicates kept; a file is present iff an enabled image has it, and the list is empty iff the property has no enabled image |
| PropertyRepository.EnabledFiles | backend/RealEstate.Infrastructure/Repositories/PropertyRepository.cs:87-90 | the files of the property's enabled images, in store order (definition; its meaning is stated by `EnabledFilesHas`, `EnabledFilesEmpty` and `EnabledFilesInOrder`) |
| PropertyRepository.EnabledFilesHas | backend/RealEstate.Infrastructure/Repositories/PropertyRepository.cs:87-90 | a file is among a property's enabled files iff one of its enabled images has it |
| PropertyRepository.EnabledFilesEmpty | backend/RealEstate.Infrastructure/Repositories/PropertyRepository.cs:87-90 | a property has no enabled files iff none of its images is enabled |
| PropertyRepository.EnabledFilesInOrder | backend/RealEstate.Infrastructure/Repositories/PropertyRepository.cs:87-90 | the enabled files are read off the enabled images at increasing store positions, one file per image |
| PropertyRepository.DetailOwner | backend/RealEstate.Infrastructure/Repositories/PropertyRepository.cs:93-99 | the owner is the first owner with the property's owner id, absent iff none has it |
| PropertyRepository.TracesOf | backend/RealEstate.Infrastructure/Repositories/PropertyRepository.cs:102-106 | the traces of the property, sorted newest first and projected to the trace DTO (definition; its properties are stated by `DetailTraces` and `Sorting.SortProject`) |
| PropertyRepository.DetailTraces | backend/RealEstate.Infrastructure/Repositories/PropertyRepository.cs:102-106 | the history is a permutation of the property's traces, ordered by sale date, newest first |
| PropertyRepository.ThumbnailIsFirstImage | backend/RealEstate.Infrastructure/Repositories/PropertyRepository.cs:56-64 | the list thumbnail is the first detail image, and "" when the detail has none |
| PropertyRepository.Wrap32 | backend/RealEstate.Infrastructure/Repositories/PropertyRepository.cs:51 | C# `int` arithmetic: the result differs from the exact value by a multiple of 2^32, and equals it when it fits in 32 bits |
| PropertyRepository.SkipAsWritten | backend/RealEstate.Infrastructure/Repositories/PropertyRepository.cs:51 | the skip as the source computes it, `(page - 1) * size` wrapped to 32 bits (definition; its meaning is stated by `SkipAsWrittenAgrees` and the two Findings rows) |
| PropertyRepository.SkipAsWrittenAgrees | backend/RealEstate.Infrastructure/Repositories/PropertyRepository.cs:51 | when the offset fits in 32 bits, the 32-bit skip equals the intended offset |
| InMemoryRepository.Create | backend/RealEstate.Tests/Unit/InMemoryPropertyRepository.cs:16-25 | without a seed the repository holds the three default properties, 101 first; a seed is taken as given |
| InMemoryRepository.KeyOf | backend/RealEstate.Tests/Unit/InMemoryPropertyRepository.cs:45-52 | the key is chosen case-insensitively; "id" and "idproperty" both give the id; null or an unknown name gives the price |
| InMemoryRepository.Search | backend/RealEstate.Tests/Unit/InMemoryPropertyRepository.cs:30-56 | the total is the number of items returned, with no paging, and at most the data size |
| InMemoryRepository.Narrowed | backend/RealEstate.Tests/Unit/InMemoryPropertyRepository.cs:34-43 | the `Where` calls applied one after another, each only when its text is non-blank or its bound present (definition; its meaning is stated by `NarrowedAccepts`) |
| InMemoryRepository.NarrowedAccepts | backend/RealEstate.Tests/Unit/InMemoryPropertyRepository.cs:34-43 | the chained `Where` calls keep exactly the properties meeting every present condition: non-blank text as a substring ignoring case, inclusive bounds, no swap |
| InMemoryRepository.SearchPermutes | backend/RealEstate.Tests/Unit/InMemoryPropertyRepository.cs:54-55 | the items are a rearrangement of the accepted properties and a sub-multiset of the data |
| InMemoryRepository.SearchSelects | backend/RealEstate.Tests/Unit/InMemoryPropertyRepository.cs:36-43 | a property is returned iff it is in the data and accepted |
| InMemoryRepository.SearchOrdered | backend/RealEstate.Tests/Unit/InMemoryPropertyRepository.cs:45-52 | the items are non-decreasing on the key, or non-increasing when `desc`, and equal keys keep seed order |
| InMemoryRepository.CasaOnlyInFirst | backend/RealEstate.Tests/Unit/InMemoryPropertyRepository.cs:21-23 | of the default names only "Casa Norte" contains "casa" ignoring case |
| InMemoryRepository.NameSearchSingle | backend/RealEstate.Tests/Unit/InMemoryPropertyRepository.cs:36-37 | a name found in only the first of three properties returns that one property, total 1 |
| InMemoryRepository.PriceRangeSelects | backend/RealEstate.Tests/Unit/InMemoryPropertyRepository.cs:42-43 | a range excluding the first property and holding the other two keeps those two, in seed order |
| InMemoryRepository.SearchCasaScenario | backend/RealEstate.Tests/Unit/PropertyRepositoryContractTests.cs:10-17 | the default seed searched for "casa" gives total 1, property 101, whose name contains "casa" |
| InMemoryRepository.SearchPriceRangeScenario | backend/RealEstate.Tests/Unit/PropertyRepositoryContractTests.cs:23-30 | the default seed between 350,000,000 and 900,000,000, price descending, gives total 2: 103 then 102, prices non-increasing |
| ApiModels.Valid | backend/RealEstate.Api/Models/FilterRequest.cs:11-15 | the `[Range]` rules: each price bound absent or non-negative, page in 1..int.MaxValue, page size in 1..100 (definition; no contract of its own) |
| ApiModels.Default | backend/RealEstate.Api/Models/FilterRequest.cs:14-15 | the default request is valid, with page 1, size 20 and nothing else set |
| ApiModels.ValidRequestKeepsNumbers | backend/RealEstate.Api/Models/FilterRequest.cs:11-15 | normalising a valid request keeps page and size, and keeps both bounds unless both are present and out of order, in which case it swaps them |
| ApiModels.UnchangedNumbersAreValid | backend/RealEstate.Api/Models/FilterRequest.cs:11-15 | a request whose page, size and bounds come through normalisation unchanged is valid |
| App.ResolveImage | frontend/src/App.tsx:6-7 | a missing or empty path gives ""; an "http" path is kept; any other path gets exactly one leading "/"; so the result is "", an http URL or rooted |
| App.ResolveIdempotent | frontend/src/App.tsx:7 | resolving a resolved path changes nothing |
| App.ResolveIgnoresLeadingSlash | frontend/src/App.tsx:7 | "x" and "/x" resolve to the same path |
| App.DetailImage | frontend/src/App.tsx:75 | the modal picture is "", an http URL or rooted, and is "" iff there is no non-empty first detail image and no non-empty thumbnail |
| App.DetailImageIsThumbnail | frontend/src/App.tsx:75 | for a property in the store, the modal shows the same resolved picture as the list row |
| Pipeline.TextConditionAgrees | backend/RealEstate.Infrastructure/Repositories/PropertyRepository.cs:20-23 | a regex on the sanitised text selects the same fields as a case-insensitive substring test on the trimmed text |
| Pipeline.MatchesAgree | backend/RealEstate.Infrastructure/Repositories/PropertyRepository.cs:20-27 | the store's match on the canonical filter is the reference search's acceptance |
| Pipeline.SortKeysAgree | backend/RealEstate.Infrastructure/Repositories/PropertyRepository.cs:31-43 | each canonical sort name selects the same key in the store and in the reference search |
| Pipeline.StoreAgreesWithReference | backend/RealEstate.Tests/Unit/InMemoryPropertyRepository.cs:30-56 | before paging, for the canonical filter, the store and the reference search (given the trimmed, unescaped text, the corrected bounds and the canonical sort) select the same properties with the same total; their rankings are the same sequence when the sort is by price or id, or when the store's string order agrees with the reference search's |
| Pipeline.SkipOverflowsOnValidRequest | backend/RealEstate.Infrastructure/Repositories/PropertyRepository.cs:51 | a valid request for page 107374184 of 20 rows has offset 2147483660, which the 32-bit skip turns into -2147483636 |
| Pipeline.SkipWrapsToSmallOffset | backend/RealEstate.Infrastructure/Repositories/PropertyRepository.cs:51 | a valid request for page 42949674 of 100 rows has offset 4294967300, which the 32-bit skip turns into 4 |
| Pipeline.WrappedSkipShowsRows | backend/RealEstate.Infrastructure/Repositories/PropertyRepository.cs:45-52 | on that request, a store with more than 4 and fewer than 4294967300 matches should give an empty page, yet the wrapped skip selects a non-empty window |

## Left out

- Mongo I/O, `async`/`Task`, connections and their failures: the collections are sequences in a `Store` value.
- `MongoContext.cs` and `MongoSettings.cs` are not part of this model.
- The regex engine itself (`BsonRegularExpression`): a pattern produced by `Sanitize` is matched as a case-insensitive substring search for its unescaped text.
- `RegexEscape.Escape`: covers the characters .NET escapes (`\ * + ? | { [ ( ) ^ $ . #`, space, tab, newline, form feed, carriage return), not the internals of `Regex.Escape`.
- `Text.Lower`: folds ASCII letters only, for both `ToLowerInvariant` and `OrdinalIgnoreCase`; other scripts are left unchanged.
- `Text.IsWhiteSpace`: follows the fixed list of code points `char.IsWhiteSpace` accepts, rather than the Unicode tables.
- Culture- and collation-dependent ordering of names and addresses: it is the parameter `collate`, which lemmas about order require to be a total preorder.
- `Pipeline.StoreAgreesWithReference`: the rankings by name or address are shown equal only when the two string orders agree. The store sorts names and addresses by Mongo's binary collation, while LINQ `OrderBy` uses the culture-sensitive default comparer, so those rankings may differ: binary order puts "Casa" before "apto", while a culture comparer puts "apto" first. The same properties and total are proved for every sort.
- `Sorting.StableSort`: Mongo leaves the order of equal sort keys unspecified; the model keeps them in store order, which is one admissible result.
- `PropertyRepository.SkipAsWritten`: not used by the rest of the model, which pages with the unbounded `Offset` (see Findings).
- HTTP and framework wiring: `PropertiesController.cs` (model-state validation, `Ok`/`NotFound`), `Program.cs`, `ErrorHandlingMiddleware.cs`, and the two interface files.
- `PropertiesController.cs:24-27`: modelled only as `ApiModels.ToFilter`, the field-by-field copy of the request.
- The React state, effects and markup of `App.tsx`, other than `resolveImage` and the first-image choice of `openDetail`.
- `BackgroundFX.tsx`, `api.ts`, `testServer.ts` and the front-end tests: these are UI, fetch client and HTTP mock code outside the query core.
- `App.DetailImage`: the detail's `images` may be missing in the JSON. That is modelled as `Option`, while the fetch of the detail is not modelled.

## Findings

| source | as written | input that shows it | evidently intended | confidence | as-written member | corrected member |
|---|---|---|---|---|---|---|
| backend/RealEstate.Infrastructure/Repositories/PropertyRepository.cs:51 | `(page - 1) * size` is computed in 32-bit `int`, which wraps around | a request with page 107374184 and page size 20 passes the `[Range]` rules; (107374184 - 1) * 20 = 2147483660 wraps to -2147483636, a negative skip | skip the first (page - 1) * size matches, which for such a page is past the end and gives an empty page | not executed | Pipeline.SkipOverflowsOnValidRequest | PropertyRepository.PageBounds |
| backend/RealEstate.Infrastructure/Repositories/PropertyRepository.cs:51 | the same 32-bit product can wrap to a small positive skip | page 42949674 with page size 100 is valid; (42949674 - 1) * 100 = 4294967300 wraps to 4, so a store with more than 4 matches returns rows 5 to 104 instead of an empty page | an empty page for any store with fewer than 4294967300 matches | not executed | Pipeline.WrappedSkipShowsRows | PropertyRepository.PageBounds |
