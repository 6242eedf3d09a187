/** The result container: the records of one page and the total number of
    records over all pages. */
module Pages {
  import opened RustCore

  /** `total` is supplied by the caller and is independent of `records`. */
  datatype Page<T> = Page(records: seq<T>, total: U64) {

    static function New(records: seq<T>, total: U64): (p: Page<T>)
      ensures p.records == records && p.total == total
    {
      Page(records, total)
    }

    function Total(): (t: U64)
      ensures t == total
    {
      total
    }

    /** The record count as a `u32`: exact when the count fits, otherwise
        truncated to its low 32 bits, as `len() as u32` does. */
    function Size(): (n: U32)
      ensures |records| <= U32_MAX ==> n as int == |records|
      ensures n as int == |records| % (U32_MAX + 1)
    {
      (|records| % (U32_MAX + 1)) as U32
    }

    /** The stored records, as a read-only view. */
    function Records(): (rs: seq<T>)
      ensures rs == records
    {
      records
    }

    /** `page[index]`; an index at or past the last record is a fault, so it is excluded here. */
    function Index(index: U32): (r: T)
      requires index as int < |records|
      ensures r == records[index]
    {
      records[index]
    }

    /** Consuming the page: its records, first to last. */
    function IntoIter(): (rs: seq<T>)
      ensures |rs| == |records|
      ensures forall i :: 0 <= i < |rs| ==> rs[i] == records[i]
    {
      records
    }
  }

  /** For a page whose count fits a `u32`, an index is in bounds exactly when it is below `Size()`. */
  lemma IndexInBoundsIffBelowSize<T>(p: Page<T>, index: U32)
    requires |p.records| <= U32_MAX
    ensures index as int < |p.records| <==> index < p.Size()
  {
  }

  /** Iteration yields what indexing yields, in index order, and nothing more. */
  lemma IterationMatchesIndexing<T>(p: Page<T>)
    requires |p.records| <= U32_MAX
    ensures |p.IntoIter()| == p.Size() as int
    ensures forall i: U32 :: i < p.Size() ==> p.IntoIter()[i] == p.Index(i)
  {
  }

  /** The total is whatever the caller gave, whatever the records; it may even be below their count. */
  lemma TotalIndependentOfRecords<T>(a: seq<T>, b: seq<T>, total: U64)
    ensures Page.New(a, total).Total() == Page.New(b, total).Total() == total
    ensures Page.New([1, 2, 3], 1).Total() as int < |Page.New([1, 2, 3], 1).Records()|
  {
  }

  lemma PageScenario()
    ensures Page.New([10, 20, 30, 40, 50, 60], 10).Size() == 6
    ensures Page.New([10, 20, 30, 40, 50, 60], 10).Total() == 10
    ensures Page.New([10, 20, 30, 40, 50, 60], 10).Index(5) == 60
    ensures Page.New([10, 20, 30, 40, 50, 60], 10).Index(2) == 30
  {
  }

  /** The type's documentation example: the first of three records. */
  lemma PageDocExample()
    ensures Page.New([10, 20, 30], 10).Index(0) == 10
  {
  }
}
