/**
 * The stored entities, the transfer records the pipeline returns, and the search
 * filter. C# `int` and `long` are the bounded integer types below; `DateTime` is an
 * integer timestamp because only its order is used.
 */
module Domain {
  import opened Wrappers

  const MaxInt32: int := 0x7fff_ffff
  const MaxInt64: int := 0x7fff_ffff_ffff_ffff

  type Int32 = x: int | -MaxInt32 - 1 <= x <= MaxInt32
  type Int64 = x: int | -MaxInt64 - 1 <= x <= MaxInt64
  type Timestamp = int

  datatype Owner = Owner(idOwner: Int32, name: string, address: string, photo: string, birthday: Timestamp)

  datatype Property = Property(
    idProperty: Int32, name: string, address: string, price: Int64,
    codeInternal: string, year: Int32, idOwner: Int32)

  datatype PropertyImage = PropertyImage(idPropertyImage: Int32, idProperty: Int32, file: string, enabled: bool)

  datatype PropertyTrace = PropertyTrace(
    idPropertyTrace: Int32, dateSale: Timestamp, name: string, value: Int64, tax: Int64, idProperty: Int32)

  /** One row of the search result. */
  datatype PropertyListDto = PropertyListDto(
    idProperty: Int32, idOwner: Int32, name: string, address: string, price: Int64, image: string)

  datatype OwnerDto = OwnerDto(idOwner: Int32, name: string, address: string, photo: string, birthday: Timestamp)

  datatype PropertyTraceDto = PropertyTraceDto(
    idPropertyTrace: Int32, dateSale: Timestamp, name: string, value: Int64, tax: Int64)

  /** The detail view; it carries no property id of its own. */
  datatype PropertyDetailDto = PropertyDetailDto(
    idOwner: Int32, name: string, address: string, price: Int64, codeInternal: string, year: Int32,
    images: seq<string>, owner: Option<OwnerDto>, traces: seq<PropertyTraceDto>)

  /** The search filter, raw as it arrives or canonical after normalisation. */
  datatype PropertyFilter = PropertyFilter(
    name: Option<string>, address: Option<string>, minPrice: Option<Int64>, maxPrice: Option<Int64>,
    page: Int32, pageSize: Int32, sortBy: Option<string>, sortDir: Option<string>)

  /** The four collections of the document store, each in its natural (insertion) order. */
  datatype Store = Store(
    properties: seq<Property>, images: seq<PropertyImage>, owners: seq<Owner>, traces: seq<PropertyTrace>)
}
