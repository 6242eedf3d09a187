/** Crate-level configuration and the two capability contracts every
    pagination parameter type provides. */
module Pagination {
  import opened RustCore

  /** The default page sizes a build can select; exactly one is active. */
  type SelectablePageSize = x: U32 | x == 5 || x == 10 || x == 15 || x == 20 || x == 50 witness 20

  /** The page size used when neither the request nor the caller gives one.
      This is the value of a build that selects no page-size feature. */
  const DEFAULT_PAGE_SIZE: SelectablePageSize := 20

  /** The ceiling applied when the caller gives no maximum page size. */
  const DEFAULT_MAX_PAGE_SIZE: U32 := 100

  /** What a page-based request exposes (the `Pageable` contract):
      a page number and a page size, either of which may be 0 for "unspecified". */
  datatype Pageable = Pageable(pageNumber: U32, pageSize: U32)

  /** What an offset-based request exposes (the `Offsetable` contract). */
  datatype Offsetable = Offsetable(offset: U64, limit: U32)

  /** The active default page size is one of the selectable ones and is positive,
      so every arm of the limit computation yields a positive limit. */
  lemma DefaultPageSizeIsSelectable()
    ensures DEFAULT_PAGE_SIZE in {5, 10, 15, 20, 50}
    ensures DEFAULT_PAGE_SIZE > 0
  {
  }

  /** The fallback build, with no page-size feature, uses 20; the default maximum is 100. */
  lemma DefaultConstants()
    ensures DEFAULT_PAGE_SIZE == 20
    ensures DEFAULT_MAX_PAGE_SIZE == 100
  {
  }
}
