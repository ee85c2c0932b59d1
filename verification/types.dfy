/** Types shared by the dispatch, location and aggregation modules of the selector. */
module Types {
  import opened Wrappers

  /** A Go `*string`. */
  type StrPtr = Option<string>

  /** The selector's inclusive integer range filter (both bounds always given). */
  datatype IntRangeFilter = IntRangeFilter(lowerBound: int, upperBound: int)

  /** The location-type tag sent to the offerings service. */
  datatype LocationType = ZoneId | ZoneName | RegionName

  /** Every error the filter pipeline can return. */
  datatype SelectorError =
      /** a present filter whose instance spec has a shape its comparator cannot take */
    | UnsupportedInstanceSpec(filterName: string, instanceType: string)
      /** a present filter whose own value has no comparator at all */
    | NoFilterHandler(filterName: string, instanceType: string)
      /** a location matching neither the zone-id, the zone-name nor the region pattern */
    | InvalidLocation(location: string)
      /** the instance-type-offerings paging call failed */
    | OfferingsFetchError(cause: string)
      /** the instance-types paging call failed */
    | CatalogFetchError(cause: string)

  /** A paged listing as delivered by a paging call: the pages it delivered, in order,
      and, when `failure` is present, the error of the request that followed them. */
  datatype Paged<T> = Paged(pages: seq<seq<T>>, failure: Option<string>)

  /** All items of all pages, in delivery order. */
  function Flatten<T>(pages: seq<seq<T>>): seq<T>
  {
    if |pages| == 0 then [] else pages[0] + Flatten(pages[1..])
  }
}
