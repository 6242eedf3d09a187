# Pagination data model in Dafny

A model of the `pagination` Rust crate. The crate converts page-based
pagination (a page number and a page size, where 0 means "unspecified") into
offset-based pagination (an offset and a clamped limit). It also wraps a
page of query results together with the total record count. The Rust code is
pure, so the model is too. Every type is a Dafny `datatype` and every
operation is a `function`. The properties are `ensures` clauses and lemmas.

Modules, one per Rust file plus one for the primitive types:

- `RustCore` (`rust_core.dfy`): `U32` and `U64` as bounded newtypes, so that
  Rust's overflow checks become proof obligations. Also `Option<T>` and
  `std::cmp::min`.
- `Pagination` (`lib.dfy`, for `src/lib.rs`): `DEFAULT_PAGE_SIZE` and
  `DEFAULT_MAX_PAGE_SIZE`. The `Pageable` and `Offsetable` contracts are
  modelled as the view datatypes `Pageable` and `Offsetable`.
- `Simple` (`simple.dfy`, for `src/simple.rs`): `PageParams`, `OffsetParams`,
  `build_page_size` and the conversion `OffsetParams::new`.
- `Composite` (`composite.dfy`, for `src/composite.rs`): `PageRequest<T>` and
  `OffsetRequest<T>`, which carry a caller payload.
- `Pages` (`page.dfy`, for `src/page.rs`): `Page<T>`.

Rust traits are modelled this way:

- A type that implements `Pageable` or `Offsetable` gets a function
  `AsPageable()` or `AsOffsetable()`. It returns the view the trait exposes.
- `IntoOffset::into_offset(d, m)` becomes a member function `IntoOffset(d, m)`.
- `DefaultIntoOffset::into_offset()` becomes `DefaultIntoOffset()`. Its
  contract is the promise made in `src/lib.rs`: it equals
  `IntoOffset(DEFAULT_PAGE_SIZE, DEFAULT_MAX_PAGE_SIZE)`.
- The consuming `self` is modelled as a function that returns a new value.

Accessors that only return a stored field (`page_number()`, `page_size()`,
`offset()`, `limit()`, `request()`) are the datatype's field selectors.
`request()` returns `Option<&T>`, which is modelled as the stored `Option<T>`.

The default-size arm of `build_page_size` is not clamped. When the page size
is 0 and the caller's default is positive, the limit is that default, even if
it is larger than the maximum (`Simple.DefaultSizeNotClamped`; for example,
default 50 and maximum 10 give a limit of 50). The same is true of
`DEFAULT_PAGE_SIZE` when the caller's default is 0
(`Simple.LibraryDefaultNotClamped`). So a limit is at most the effective maximum only when a
positive page size was requested. The model follows the code here.

## Model

| member | source | states |
|---|---|---|
| `Pagination.DefaultPageSizeIsSelectable` | src/lib.rs:28-42 | the default page size is one of 5, 10, 15, 20, 50, and so is positive |
| `Pagination.DefaultConstants` | src/lib.rs:39-45 | with no page-size feature the default page size is 20; the default maximum is 100 |
| `Simple.EffectiveMaxPageSize` | src/simple.rs:89-90 | the ceiling is the caller's maximum when it is positive and `DEFAULT_MAX_PAGE_SIZE` (100) when it is 0 |
| `Simple.NormalizedPageNumber` | src/simple.rs:62-66 | page numbers are at least 1; page 0 becomes 1 and any other page is kept |
| `Simple.BuildPageSize` | src/simple.rs:85-92 | the limit is at least 1; page size 0 gives the caller's default, or `DEFAULT_PAGE_SIZE` when that is 0, with no clamp; a positive page size gives the smaller of it and the effective maximum |
| `Simple.PageParams.New` | src/simple.rs:27-32 | page number and page size are stored unchanged |
| `Simple.PageParams.AsPageable` | src/simple.rs:35-45 | the `Pageable` view exposes the stored page number and page size |
| `Simple.PageParams.IntoOffset` | src/simple.rs:104-110 | limit is the policy's limit for this page size; offset is (normalised page number - 1) * limit |
| `Simple.PageParams.DefaultIntoOffset` | src/simple.rs:112-119 | equals `IntoOffset(DEFAULT_PAGE_SIZE, DEFAULT_MAX_PAGE_SIZE)` |
| `Simple.OffsetParams.New` | src/simple.rs:57-73 | limit is `BuildPageSize`'s; offset is a whole number of pages, and offset / limit + 1 is the normalised page number; the u64 arithmetic cannot overflow or underflow |
| `Simple.OffsetParams.AsOffsetable` | src/simple.rs:94-102 | the `Offsetable` view exposes the stored offset and limit |
| `Simple.ProductFitsU64` | src/simple.rs:68 | (page - 1) * limit + limit fits in a u64 when both factors come from u32 values |
| `Simple.PageOffsetArithmetic` | src/simple.rs:68 | the u64 product (page - 1) * limit neither overflows nor underflows, and dividing it by the limit gives back page - 1 |
| `Simple.OffsetIsPrecedingRecords` | src/simple.rs:68 | the offset is the number of records on the pages before the requested one |
| `Simple.OffsetSkipsPrecedingPages` | src/simple.rs:62-68 | the offset equals the records of all preceding pages counted page by page (`RecordsInPages`, an independent recursive definition) |
| `Simple.RecordsInPagesIsProduct` | src/simple.rs:68 | counting page by page agrees with the product (page - 1) * limit that the code computes |
| `Simple.ConversionIsOnlyAlignedRequestOnPage` | src/simple.rs:57-73 | the conversion is the only offset-based request with the policy's limit whose offset is a whole number of pages and lies on the requested page |
| `Simple.PageZeroIsPageOne` | src/simple.rs:62-66 | page 0 and page 1 convert to the same result, whose offset is 0 |
| `Simple.LimitIgnoresPageNumber` | src/simple.rs:67 | the limit does not depend on the page number |
| `Simple.ConsecutivePagesAdjoin` | src/simple.rs:68 | page n+1 starts exactly where page n ends (offset plus limit) |
| `Simple.WindowFitsU64` | src/simple.rs:68 | offset + limit of any conversion fits in a u64 |
| `Simple.LimitNeverExceedsPositiveMax` | src/simple.rs:90 | with a positive page size and a positive maximum, the limit is at most the maximum |
| `Simple.DefaultSizeNotClamped` | src/simple.rs:87 | with page size 0, any caller default above the effective maximum is used as it is, so the limit exceeds that maximum |
| `Simple.LibraryDefaultNotClamped` | src/simple.rs:88 | with page size 0 and caller default 0, the limit is `DEFAULT_PAGE_SIZE` even when a positive caller maximum is smaller |
| `Simple.PositiveSizeWithoutMaxClampsToDefaultMax` | src/simple.rs:89 | a positive page size with maximum 0 gives `min(100, page_size)` |
| `Simple.PositiveSizeWithMaxClampsToMax` | src/simple.rs:90 | a positive page size with a positive maximum gives `min(max_size, page_size)` |
| `Simple.PagesTileRecords` | src/simple.rs:62-68 | the windows of pages 1 to n, in order, are exactly the record positions 0 to n * limit - 1: no gap, no overlap |
| `Simple.PagesTileUpToRequestedPage` | src/simple.rs:62-68 | the windows of pages 1 to n cover exactly [0, offset + limit) of page n |
| `Simple.BuildPageSizeScenarios` | src/simple.rs:128-166 | the eight limit cases of the unit test |
| `Simple.NewOffsetParamsScenarios` | src/simple.rs:169-179 | (0,0) and (3,0) with (0,0) give (0,20) and (40,20) |
| `Simple.DefaultIntoOffsetScenarios` | src/simple.rs:182-193 | (2,0) and (3,120) with the defaults give (20,20) and (200,100) |
| `Simple.IntoOffsetScenarios` | src/simple.rs:196-207 | (5,0) and (7,20) with (7,15) give (28,7) and (90,15) |
| `Simple.CrateUsageExample` | src/lib.rs:12-15 | `PageParams(5,20)` with the defaults gives offset 80, limit 20 |
| `Composite.PageRequest.New` | src/composite.rs:38-47 | page number, page size and payload (or its absence) are stored unchanged |
| `Composite.PageRequest.AsPageable` | src/composite.rs:65-75 | the `Pageable` view exposes the stored page number and page size |
| `Composite.PageRequest.IntoOffset` | src/composite.rs:106-117 | offset and limit are those of `OffsetParams.New` on the same page fields; the payload is carried across unchanged |
| `Composite.PageRequest.DefaultIntoOffset` | src/composite.rs:119-130 | equals `IntoOffset(DEFAULT_PAGE_SIZE, DEFAULT_MAX_PAGE_SIZE)` |
| `Composite.OffsetRequest.New` | src/composite.rs:79-81 | offset and limit are stored as given, with no payload |
| `Composite.OffsetRequest.AsOffsetable` | src/composite.rs:96-104 | the `Offsetable` view exposes the stored offset and limit |
| `Composite.IntoOffsetAgreesWithPageParams` | src/composite.rs:109-113 | a request with a payload converts exactly like a `PageParams` with the same page number and size |
| `Composite.PayloadDoesNotAffectOffset` | src/composite.rs:109-113 | offset and limit do not depend on the payload |
| `Composite.PayloadPreserved` | src/composite.rs:106-130 | both conversions return the payload they were given, `None` included |
| `Composite.DefaultIntoOffsetScenario` | src/composite.rs:139-151 | `PageRequest(5,20,10)` reads back its fields and, with the defaults, gives (80,20,10) |
| `Composite.IntoOffsetScenario` | src/composite.rs:154-166 | `PageRequest(5,20,10)` with (0,40) gives (80,20,10) |
| `Pages.Page.New` | src/page.rs:24-26 | records and total are stored unchanged |
| `Pages.Page.Total` | src/page.rs:28-30 | the total is the one given, whatever the records |
| `Pages.Page.Size` | src/page.rs:33-35 | the record count when it fits in a u32, else its low 32 bits |
| `Pages.Page.Records` | src/page.rs:37-39 | the stored records, unmodified |
| `Pages.Page.Index` | src/page.rs:51-57 | defined only for an index below the record count, and then it is that record |
| `Pages.Page.IntoIter` | src/page.rs:42-49 | yields every record, in stored order |
| `Pages.IndexInBoundsIffBelowSize` | src/page.rs:54-56 | if the count fits a u32, an index is in bounds exactly when it is below `Size()` |
| `Pages.IterationMatchesIndexing` | src/page.rs:42-57 | iteration yields `Size()` items, and the i-th one is `page[i]` |
| `Pages.TotalIndependentOfRecords` | src/page.rs:15-18 | two pages with the same total report it whatever their records; a total below the record count is kept as given |
| `Pages.PageScenario` | src/page.rs:67-73 | six records with total 10: size 6, total 10, `page[5]` 60, `page[2]` 30 |
| `Pages.PageDocExample` | src/page.rs:9-11 | `page[0]` of `[10,20,30]` is 10 |

## Left out

- Serde serialisation and deserialisation (`with-serde` feature): it is derived by a foreign library and has no logic in this crate.
- Build-time selection of `DEFAULT_PAGE_SIZE` through `cfg_if!` features: modelled as one constant of a subset type that admits only 5, 10, 15, 20 and 50. It is set to 20, the value of a build with no feature. The scenario lemmas assume 20, as the crate's tests do.
- The `IntoOffset`/`DefaultIntoOffset` traits and their associated `Offset` type: trait declarations are not modelled. Each implementing type has its own `IntoOffset` and `DefaultIntoOffset` functions.
- Ownership, moves and `Sized` bounds: the source object is not invalidated after conversion, because values are immutable in the model.
- `Composite.PageRequest.New`: Rust's `Into<Option<T>>` argument is modelled as an `Option<T>`, so a bare payload `v` is written `Some(v)`.
- `Pages.Page.Index`: an out-of-range index is a panic in Rust. Here it is a precondition, so the fault itself is not modelled as a value.
- `Pages.Page.IntoIter`: the `std::vec::IntoIter` object is modelled as the sequence it yields. Its one-shot, consuming nature is not captured.
- `Clone` and `Debug` derives: nothing to model.
