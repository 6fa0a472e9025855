/** The page arithmetic of a paginated query result (`PagedResult<T>`). */
module PagedResults {
  import opened IntMath

  /** One page of a query: the rows, the total number of matching rows, the 1-based
      page number and the page size, stored exactly as given. */
  datatype PagedResult<T> = PagedResult(data: seq<T>, totalCount: int, pageNumber: int, pageSize: int)
  {
    /** The number of pages: the integer ceiling of totalCount / pageSize, and 0 when the
        page size is not positive. */
    function PageCount(): (r: int)
      ensures pageSize <= 0 ==> r == 0
      ensures pageSize > 0 ==> (r - 1) * pageSize < totalCount <= r * pageSize
    {
      if pageSize > 0 then CeilDiv(totalCount, pageSize) else 0
    }

    predicate HasPreviousPage() { pageNumber > 1 }

    predicate HasNextPage() { pageNumber < PageCount() }
  }

  /** A page count is never negative for a non-negative total, and it is zero exactly
      when there is nothing to page through. */
  lemma PageCountBounds<T>(p: PagedResult<T>)
    requires p.totalCount >= 0
    ensures p.PageCount() >= 0
    ensures p.pageSize > 0 ==> (p.PageCount() == 0 <==> p.totalCount == 0)
  {
    if p.pageSize > 0 {
      var c := p.PageCount();
      if c < 0 {
        MulMonotone(c, -1, p.pageSize);
      }
      if c > 0 && p.totalCount == 0 {
        MulMonotone(0, c - 1, p.pageSize);
      }
    }
  }

  /** For a positive page size, a page has a successor exactly when some row lies beyond
      it, and a page has a predecessor exactly when it is not the first. */
  lemma HasNextPageIffRowsRemain<T>(p: PagedResult<T>)
    requires p.pageSize > 0
    ensures p.HasNextPage() <==> p.pageNumber * p.pageSize < p.totalCount
    ensures p.HasPreviousPage() <==> p.pageNumber >= 2
  {
    var c := p.PageCount();
    if p.pageNumber < c {
      MulMonotone(p.pageNumber, c - 1, p.pageSize);
    } else {
      MulMonotone(c, p.pageNumber, p.pageSize);
    }
  }

  /** Every row index of a non-negative total falls on a page between 1 and PageCount. */
  lemma RowLiesOnSomePage<T>(p: PagedResult<T>, row: nat)
    requires p.pageSize > 0 && row < p.totalCount
    ensures 1 <= row / p.pageSize + 1 <= p.PageCount()
  {
    var c := p.PageCount();
    var q := row / p.pageSize;
    assert q * p.pageSize <= row;
    if q + 1 > c {
      MulMonotone(c, q, p.pageSize);
    }
  }
}
