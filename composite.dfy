/** Page- and offset-based requests that also carry a caller payload
    (query criteria unrelated to pagination). */
module Composite {
  import opened RustCore
  import opened Pagination
  import opened Simple

  /** A page-based request with an optional payload. */
  datatype PageRequest<T> = PageRequest(pageNumber: U32, pageSize: U32, request: Option<T>) {

    /** Stores all three arguments unchanged; a bare payload is passed as `Some(value)`. */
    static function New(pageNumber: U32, pageSize: U32, request: Option<T>): (p: PageRequest<T>)
      ensures p.pageNumber == pageNumber && p.pageSize == pageSize && p.request == request
    {
      PageRequest(pageNumber, pageSize, request)
    }

    /** The `Pageable` view: the stored page number and page size. */
    function AsPageable(): (v: Pageable)
      ensures v.pageNumber == pageNumber && v.pageSize == pageSize
    {
      Pageable(pageNumber, pageSize)
    }

    /** `IntoOffset::into_offset`: the shared conversion on the page fields,
        with the payload moved across untouched. */
    function IntoOffset(defaultPageSize: U32, maxPageSize: U32): (o: OffsetRequest<T>)
      ensures o.AsOffsetable() == OffsetParams.New(AsPageable(), defaultPageSize, maxPageSize).AsOffsetable()
      ensures o.request == request
    {
      var param := OffsetParams.New(AsPageable(), defaultPageSize, maxPageSize);
      OffsetRequest(param.offset, param.limit, request)
    }

    /** `DefaultIntoOffset::into_offset`: the crate-wide defaults. */
    function DefaultIntoOffset(): (o: OffsetRequest<T>)
      ensures o == IntoOffset(DEFAULT_PAGE_SIZE, DEFAULT_MAX_PAGE_SIZE)
    {
      var param := OffsetParams.New(AsPageable(), DEFAULT_PAGE_SIZE, DEFAULT_MAX_PAGE_SIZE);
      OffsetRequest(param.offset, param.limit, request)
    }
  }

  /** An offset-based request with an optional payload. */
  datatype OffsetRequest<T> = OffsetRequest(offset: U64, limit: U32, request: Option<T>) {

    /** Stores offset and limit as given, with no payload. */
    static function New(offset: U64, limit: U32): (o: OffsetRequest<T>)
      ensures o.offset == offset && o.limit == limit && o.request == None
    {
      OffsetRequest(offset, limit, None)
    }

    /** The `Offsetable` view: the stored offset and limit. */
    function AsOffsetable(): (v: Offsetable)
      ensures v.offset == offset && v.limit == limit
    {
      Offsetable(offset, limit)
    }
  }

  /** A request with a payload converts exactly as the payload-free request
      with the same page number and size: one conversion serves both. */
  lemma IntoOffsetAgreesWithPageParams<T>(p: PageRequest<T>, defaultPageSize: U32, maxPageSize: U32)
    ensures p.IntoOffset(defaultPageSize, maxPageSize).AsOffsetable()
            == PageParams.New(p.pageNumber, p.pageSize).IntoOffset(defaultPageSize, maxPageSize).AsOffsetable()
  {
  }

  /** The payload has no influence on offset and limit. */
  lemma PayloadDoesNotAffectOffset<T>(n: U32, s: U32, a: Option<T>, b: Option<T>, defaultPageSize: U32, maxPageSize: U32)
    ensures PageRequest.New(n, s, a).IntoOffset(defaultPageSize, maxPageSize).AsOffsetable()
            == PageRequest.New(n, s, b).IntoOffset(defaultPageSize, maxPageSize).AsOffsetable()
  {
  }

  /** Both conversions carry the payload across, `None` included. */
  lemma PayloadPreserved<T>(n: U32, s: U32, request: Option<T>, defaultPageSize: U32, maxPageSize: U32)
    ensures PageRequest.New(n, s, request).IntoOffset(defaultPageSize, maxPageSize).request == request
    ensures PageRequest.New(n, s, request).DefaultIntoOffset().request == request
  {
  }

  lemma DefaultIntoOffsetScenario()
    ensures PageRequest.New(5, 20, Some(10)).pageSize == 20
    ensures PageRequest.New(5, 20, Some(10)).pageNumber == 5
    ensures PageRequest.New(5, 20, Some(10)).request == Some(10)
    ensures PageRequest.New(5, 20, Some(10)).DefaultIntoOffset() == OffsetRequest(80, 20, Some(10))
  {
  }

  lemma IntoOffsetScenario()
    ensures PageRequest.New(5, 20, Some(10)).IntoOffset(0, 40) == OffsetRequest(80, 20, Some(10))
  {
  }
}
