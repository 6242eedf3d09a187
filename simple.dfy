/** The simple parameter types and the one conversion algorithm from
    page-based to offset-based pagination. */
module Simple {
  import opened RustCore
  import opened Pagination

  /** The ceiling on a requested page size: the caller's maximum, or
      DEFAULT_MAX_PAGE_SIZE when the caller gives 0 ("no maximum"). */
  function EffectiveMaxPageSize(maxSize: U32): (r: U32)
    ensures r >= 1
    ensures maxSize > 0 ==> r == maxSize
    ensures maxSize == 0 ==> r == DEFAULT_MAX_PAGE_SIZE
  {
    if maxSize == 0 then DEFAULT_MAX_PAGE_SIZE else maxSize
  }

  /** Page numbers are 1-based, and page 0 means page 1. */
  function NormalizedPageNumber(pageNumber: U32): (r: U32)
    ensures r >= 1
    ensures pageNumber > 0 ==> r == pageNumber
    ensures pageNumber == 0 ==> r == 1
  {
    if pageNumber == 0 then 1 else pageNumber
  }

  /** The limit policy (`build_page_size`). A page size of 0 asks for the
      caller's default, or DEFAULT_PAGE_SIZE when that is 0 too; that arm is
      not clamped to any maximum. A positive page size is cut down to the
      effective maximum. */
  function BuildPageSize(pageable: Pageable, defaultSize: U32, maxSize: U32): (r: U32)
    ensures r >= 1
    ensures pageable.pageSize == 0 && defaultSize > 0 ==> r == defaultSize
    ensures pageable.pageSize == 0 && defaultSize == 0 ==> r == DEFAULT_PAGE_SIZE
    ensures pageable.pageSize > 0 ==>
              && r <= pageable.pageSize
              && r <= EffectiveMaxPageSize(maxSize)
              && (r == pageable.pageSize || r == EffectiveMaxPageSize(maxSize))
  {
    match pageable.pageSize
    case 0 => if defaultSize > 0 then defaultSize else DEFAULT_PAGE_SIZE
    case x => if maxSize == 0 then Min(DEFAULT_MAX_PAGE_SIZE, x) else Min(maxSize, x)
  }

  /** A page-based request with no payload. */
  datatype PageParams = PageParams(pageNumber: U32, pageSize: U32) {

    static function New(pageNumber: U32, pageSize: U32): (p: PageParams)
      ensures p.pageNumber == pageNumber && p.pageSize == pageSize
    {
      PageParams(pageNumber, pageSize)
    }

    /** The `Pageable` view: the stored fields, unchanged. */
    function AsPageable(): (v: Pageable)
      ensures v.pageNumber == pageNumber && v.pageSize == pageSize
    {
      Pageable(pageNumber, pageSize)
    }

    /** `IntoOffset::into_offset`: consumes the request and returns the
        offset-based one for the given default and maximum page size. */
    function IntoOffset(defaultPageSize: U32, maxPageSize: U32): (o: OffsetParams)
      ensures o.limit == BuildPageSize(AsPageable(), defaultPageSize, maxPageSize)
      ensures o.offset as int == (NormalizedPageNumber(pageNumber) as int - 1) * o.limit as int
    {
      var o := OffsetParams.New(AsPageable(), defaultPageSize, maxPageSize);
      OffsetIsPrecedingRecords(AsPageable(), defaultPageSize, maxPageSize);
      o
    }

    /** `DefaultIntoOffset::into_offset`: the crate-wide defaults. */
    function DefaultIntoOffset(): (o: OffsetParams)
      ensures o == IntoOffset(DEFAULT_PAGE_SIZE, DEFAULT_MAX_PAGE_SIZE)
    {
      OffsetParams.New(AsPageable(), DEFAULT_PAGE_SIZE, DEFAULT_MAX_PAGE_SIZE)
    }
  }

  /** An offset-based request: skip `offset` records, then take `limit`. */
  datatype OffsetParams = OffsetParams(offset: U64, limit: U32) {

    /** The conversion algorithm. The limit is the policy's; the offset is a
        whole number of such pages, namely as many as precede the requested
        page, so that the page number is recovered by division. */
    static function New(pageable: Pageable, defaultPageSize: U32, maxPageSize: U32): (o: OffsetParams)
      ensures o.limit == BuildPageSize(pageable, defaultPageSize, maxPageSize)
      ensures o.offset as int % o.limit as int == 0
      ensures o.offset as int / o.limit as int + 1 == NormalizedPageNumber(pageable.pageNumber) as int
    {
      var pageNumber := if pageable.pageNumber == 0 then 1 else pageable.pageNumber;
      var pageSize := BuildPageSize(pageable, defaultPageSize, maxPageSize);
      PageOffsetArithmetic(pageNumber as int - 1, pageSize as int);
      var offset: U64 := ((pageNumber as U64) - 1) * (pageSize as U64);
      OffsetParams(offset, pageSize)
    }

    /** The `Offsetable` view: the stored fields, unchanged. */
    function AsOffsetable(): (v: Offsetable)
      ensures v.offset == offset && v.limit == limit
    {
      Offsetable(offset, limit)
    }
  }

  /** The page number an offset-based request starts, 1-based; the inverse of the conversion. */
  function PageNumberOf(o: OffsetParams): int
    requires o.limit > 0
  {
    o.offset as int / o.limit as int + 1
  }

  // ---------------------------------------------------------------- arithmetic

  /** Two factors below 2^32 never overflow a u64, even with one more factor's worth added. */
  lemma ProductFitsU64(k: int, l: int)
    requires 0 <= k < U32_MAX && 0 <= l <= U32_MAX
    ensures k * l + l <= U64_MAX
  {
    calc {
      k * l + l;
    ==
      (k + 1) * l;
    <=  { MulLeftMonotone(k + 1, U32_MAX, l); }
      U32_MAX * l;
    <=  { MulLeftMonotone(l, U32_MAX, U32_MAX); }
      U32_MAX * U32_MAX;
    <=
      U64_MAX;
    }
  }

  /** What the conversion needs of the product of the preceding page count and the limit. */
  lemma PageOffsetArithmetic(k: int, l: int)
    requires 0 <= k < U32_MAX && 1 <= l <= U32_MAX
    ensures 0 <= k * l <= U64_MAX
    ensures (k * l) % l == 0 && (k * l) / l == k
  {
    ProductFitsU64(k, l);
    MultipleDivMod(k, l);
  }

  lemma MulLeftMonotone(a: int, b: int, c: int)
    requires a <= b && c >= 0
    ensures a * c <= b * c
  {
    assert b * c - a * c == (b - a) * c;
  }

  /** Division and remainder undo a multiplication. */
  lemma MultipleDivMod(k: int, l: int)
    requires k >= 0 && l > 0
    ensures (k * l) / l == k && (k * l) % l == 0
  {
    var q, r := (k * l) / l, (k * l) % l;
    assert k * l == q * l + r;
    assert (k - q) * l == r;
    if k - q >= 1 {
      MulLeftMonotone(1, k - q, l);
    } else if k - q <= -1 {
      MulLeftMonotone(1, q - k, l);
    }
  }

  // ---------------------------------------------------------------- properties

  /** The offset is the number of records on the pages before the requested one. */
  lemma OffsetIsPrecedingRecords(pageable: Pageable, defaultPageSize: U32, maxPageSize: U32)
    ensures var o := OffsetParams.New(pageable, defaultPageSize, maxPageSize);
            o.offset as int == (NormalizedPageNumber(pageable.pageNumber) as int - 1) * o.limit as int
  {
    var o := OffsetParams.New(pageable, defaultPageSize, maxPageSize);
    var x, l := o.offset as int, o.limit as int;
    assert x == (x / l) * l + x % l;
  }

  /** The records held by `pages` full pages of `limit` records, counted page by page. */
  function RecordsInPages(pages: nat, limit: nat): nat
  {
    if pages == 0 then 0 else RecordsInPages(pages - 1, limit) + limit
  }

  lemma {:induction false} RecordsInPagesIsProduct(pages: nat, limit: nat)
    ensures RecordsInPages(pages, limit) == pages * limit
  {
    if pages > 0 {
      RecordsInPagesIsProduct(pages - 1, limit);
      assert pages * limit == (pages - 1) * limit + limit;
    }
  }

  /** The offset skips exactly the pages before the requested one, each of `limit` records. */
  lemma OffsetSkipsPrecedingPages(pageable: Pageable, defaultPageSize: U32, maxPageSize: U32)
    ensures var o := OffsetParams.New(pageable, defaultPageSize, maxPageSize);
            o.offset as int == RecordsInPages(NormalizedPageNumber(pageable.pageNumber) as int - 1, o.limit as int)
  {
    var o := OffsetParams.New(pageable, defaultPageSize, maxPageSize);
    OffsetIsPrecedingRecords(pageable, defaultPageSize, maxPageSize);
    RecordsInPagesIsProduct(NormalizedPageNumber(pageable.pageNumber) as int - 1, o.limit as int);
  }

  /** The conversion is the only offset-based request with the policy's limit
      whose offset is a whole number of pages and falls on the requested page. */
  lemma {:induction false} ConversionIsOnlyAlignedRequestOnPage(
    pageable: Pageable, defaultPageSize: U32, maxPageSize: U32, o: OffsetParams)
    requires o.limit == BuildPageSize(pageable, defaultPageSize, maxPageSize)
    requires o.offset as int % o.limit as int == 0
    requires PageNumberOf(o) == NormalizedPageNumber(pageable.pageNumber) as int
    ensures o == OffsetParams.New(pageable, defaultPageSize, maxPageSize)
  {
    var c := OffsetParams.New(pageable, defaultPageSize, maxPageSize);
    var x, y, l := o.offset as int, c.offset as int, o.limit as int;
    assert x == (x / l) * l + x % l;
    assert y == (y / l) * l + y % l;
  }

  /** Page 0 is page 1: both convert to the same request, which starts at offset 0. */
  lemma PageZeroIsPageOne(pageSize: U32, defaultPageSize: U32, maxPageSize: U32)
    ensures OffsetParams.New(Pageable(0, pageSize), defaultPageSize, maxPageSize)
            == OffsetParams.New(Pageable(1, pageSize), defaultPageSize, maxPageSize)
    ensures OffsetParams.New(Pageable(0, pageSize), defaultPageSize, maxPageSize).offset == 0
  {
  }

  /** The limit depends on the page size and the configuration, never on the page number. */
  lemma LimitIgnoresPageNumber(n1: U32, n2: U32, pageSize: U32, defaultPageSize: U32, maxPageSize: U32)
    ensures OffsetParams.New(Pageable(n1, pageSize), defaultPageSize, maxPageSize).limit
            == OffsetParams.New(Pageable(n2, pageSize), defaultPageSize, maxPageSize).limit
  {
  }

  /** Consecutive pages are adjacent windows: page n+1 starts where page n ends. */
  lemma {:induction false} ConsecutivePagesAdjoin(n: U32, pageSize: U32, defaultPageSize: U32, maxPageSize: U32)
    requires 1 <= n as int < U32_MAX
    ensures var here := OffsetParams.New(Pageable(n, pageSize), defaultPageSize, maxPageSize);
            var next := OffsetParams.New(Pageable(n + 1, pageSize), defaultPageSize, maxPageSize);
            next.offset as int == here.offset as int + here.limit as int
  {
    OffsetSkipsPrecedingPages(Pageable(n, pageSize), defaultPageSize, maxPageSize);
    OffsetSkipsPrecedingPages(Pageable(n + 1, pageSize), defaultPageSize, maxPageSize);
  }

  /** The whole window the result describes, offset plus limit, fits in a u64. */
  lemma WindowFitsU64(pageable: Pageable, defaultPageSize: U32, maxPageSize: U32)
    ensures var o := OffsetParams.New(pageable, defaultPageSize, maxPageSize);
            o.offset as int + o.limit as int <= U64_MAX
  {
    var o := OffsetParams.New(pageable, defaultPageSize, maxPageSize);
    OffsetIsPrecedingRecords(pageable, defaultPageSize, maxPageSize);
    ProductFitsU64(NormalizedPageNumber(pageable.pageNumber) as int - 1, o.limit as int);
  }

  /** With a positive maximum, a positive page size never yields more than the maximum. */
  lemma LimitNeverExceedsPositiveMax(pageable: Pageable, defaultPageSize: U32, maxPageSize: U32)
    requires pageable.pageSize > 0 && maxPageSize > 0
    ensures OffsetParams.New(pageable, defaultPageSize, maxPageSize).limit <= maxPageSize
  {
  }

  /** The default arm is not clamped: with no page size requested, a caller
      default above the effective maximum is used as it is. */
  lemma DefaultSizeNotClamped(pageNumber: U32, defaultPageSize: U32, maxPageSize: U32)
    requires defaultPageSize > EffectiveMaxPageSize(maxPageSize)
    ensures BuildPageSize(Pageable(pageNumber, 0), defaultPageSize, maxPageSize) == defaultPageSize
    ensures BuildPageSize(Pageable(pageNumber, 0), defaultPageSize, maxPageSize) > EffectiveMaxPageSize(maxPageSize)
  {
  }

  /** Nor is the crate default: with neither a page size nor a caller default,
      DEFAULT_PAGE_SIZE is used even above a smaller caller maximum. */
  lemma LibraryDefaultNotClamped(pageNumber: U32, maxPageSize: U32)
    requires 0 < maxPageSize < DEFAULT_PAGE_SIZE
    ensures BuildPageSize(Pageable(pageNumber, 0), 0, maxPageSize) == DEFAULT_PAGE_SIZE
    ensures BuildPageSize(Pageable(pageNumber, 0), 0, maxPageSize) > maxPageSize
  {
  }

  /** Without a caller maximum, a requested page size is cut down to DEFAULT_MAX_PAGE_SIZE. */
  lemma PositiveSizeWithoutMaxClampsToDefaultMax(pageable: Pageable, defaultPageSize: U32)
    requires pageable.pageSize > 0
    ensures BuildPageSize(pageable, defaultPageSize, 0) == Min(DEFAULT_MAX_PAGE_SIZE, pageable.pageSize)
  {
  }

  /** With a caller maximum, a requested page size is cut down to that maximum. */
  lemma PositiveSizeWithMaxClampsToMax(pageable: Pageable, defaultPageSize: U32, maxPageSize: U32)
    requires pageable.pageSize > 0 && maxPageSize > 0
    ensures BuildPageSize(pageable, defaultPageSize, maxPageSize) == Min(maxPageSize, pageable.pageSize)
  {
  }

  // ---------------------------------------------------------------- page windows

  /** The record positions start, start + 1, ..., start + count - 1. */
  function Range(start: int, count: nat): (r: seq<int>)
    ensures |r| == count
    ensures forall i :: 0 <= i < count ==> r[i] == start + i
  {
    seq(count, i => start + i)
  }

  /** Two ranges laid end to end form one range. */
  lemma RangeConcat(start: int, m: nat, k: nat)
    ensures Range(start, m) + Range(start + m, k) == Range(start, m + k)
  {
    var a, b := Range(start, m) + Range(start + m, k), Range(start, m + k);
    assert |a| == |b|;
    forall i | 0 <= i < |a| ensures a[i] == b[i] {
      if i >= m { assert a[i] == Range(start + m, k)[i - m]; }
    }
  }

  /** The positions of the records an offset-based request covers. */
  function Window(o: OffsetParams): seq<int>
  {
    Range(o.offset as int, o.limit as int)
  }

  /** The windows of pages 1 to n, for one page size and configuration, in page order. */
  function PageWindows(n: U32, pageSize: U32, defaultPageSize: U32, maxPageSize: U32): seq<int>
    decreases n
  {
    if n == 0 then []
    else PageWindows(n - 1, pageSize, defaultPageSize, maxPageSize)
         + Window(OffsetParams.New(Pageable(n, pageSize), defaultPageSize, maxPageSize))
  }

  /** The windows of pages 1 to n tile the first n pages' worth of records:
      every position from 0 on is covered once, in order, with no gap. */
  lemma {:induction false} PagesTileRecords(n: U32, pageSize: U32, defaultPageSize: U32, maxPageSize: U32)
    ensures PageWindows(n, pageSize, defaultPageSize, maxPageSize)
            == Range(0, RecordsInPages(n as int, BuildPageSize(Pageable(n, pageSize), defaultPageSize, maxPageSize) as int))
  {
    if n > 0 {
      var l := BuildPageSize(Pageable(n, pageSize), defaultPageSize, maxPageSize) as int;
      LimitIgnoresPageNumber(n - 1, n, pageSize, defaultPageSize, maxPageSize);
      PagesTileRecords(n - 1, pageSize, defaultPageSize, maxPageSize);
      OffsetSkipsPrecedingPages(Pageable(n, pageSize), defaultPageSize, maxPageSize);
      var before := RecordsInPages(n as int - 1, l);
      assert PageWindows(n - 1, pageSize, defaultPageSize, maxPageSize) == Range(0, before);
      assert Window(OffsetParams.New(Pageable(n, pageSize), defaultPageSize, maxPageSize)) == Range(before, l);
      RangeConcat(0, before, l);
    }
  }

  /** So the windows of pages 1 to n cover exactly [0, offset + limit) of page n. */
  lemma PagesTileUpToRequestedPage(n: U32, pageSize: U32, defaultPageSize: U32, maxPageSize: U32)
    requires n > 0
    ensures var o := OffsetParams.New(Pageable(n, pageSize), defaultPageSize, maxPageSize);
            PageWindows(n, pageSize, defaultPageSize, maxPageSize) == Range(0, o.offset as int + o.limit as int)
  {
    PagesTileRecords(n, pageSize, defaultPageSize, maxPageSize);
    OffsetSkipsPrecedingPages(Pageable(n, pageSize), defaultPageSize, maxPageSize);
  }

  // ---------------------------------------------------------------- scenarios

  lemma BuildPageSizeScenarios()
    ensures BuildPageSize(Pageable(0, 0), 0, 0) == 20
    ensures BuildPageSize(Pageable(0, 10), 0, 0) == 10
    ensures BuildPageSize(Pageable(0, 300), 0, 0) == 100
    ensures BuildPageSize(Pageable(0, 0), 6, 0) == 6
    ensures BuildPageSize(Pageable(0, 3), 6, 0) == 3
    ensures BuildPageSize(Pageable(0, 0), 6, 30) == 6
    ensures BuildPageSize(Pageable(0, 11), 6, 30) == 11
    ensures BuildPageSize(Pageable(0, 42), 6, 33) == 33
  {
  }

  lemma NewOffsetParamsScenarios()
    ensures OffsetParams.New(PageParams(0, 0).AsPageable(), 0, 0) == OffsetParams(0, 20)
    ensures OffsetParams.New(PageParams(3, 0).AsPageable(), 0, 0) == OffsetParams(40, 20)
  {
  }

  lemma DefaultIntoOffsetScenarios()
    ensures PageParams.New(2, 0).DefaultIntoOffset() == OffsetParams(20, 20)
    ensures PageParams.New(3, 120).DefaultIntoOffset() == OffsetParams(200, 100)
  {
  }

  /** The crate's usage example: page 5 of 20 with the defaults. */
  lemma CrateUsageExample()
    ensures PageParams.New(5, 20).DefaultIntoOffset().AsOffsetable() == Offsetable(80, 20)
  {
  }

  lemma IntoOffsetScenarios()
    ensures PageParams.New(5, 0).IntoOffset(7, 15) == OffsetParams(28, 7)
    ensures PageParams.New(7, 20).IntoOffset(7, 15) == OffsetParams(90, 15)
  {
  }
}
