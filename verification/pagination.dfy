/**
  The pagination arithmetic of the handler: the row offset of a page, the
  page count, and the `pagination` object of the 200 answer.
 */
module Pagination {
  import opened JsNumber

  /** `(page - 1) * size` */
  function Offset(page: Num, size: Num): Num
  {
    Times(Minus(page, 1), size)
  }

  /**
    For a page and size of at least 1 the offset is a non-negative multiple
    of the size, and the page is recovered from it: the offset skips exactly
    the rows of the earlier pages.
   */
  lemma OffsetOfPage(page: int, size: int)
    requires page >= 1 && size >= 1
    ensures Offset(Finite(page), Finite(size)).Finite?
    ensures Offset(Finite(page), Finite(size)).n >= 0
    ensures Offset(Finite(page), Finite(size)).n % size == 0
    ensures Offset(Finite(page), Finite(size)).n / size + 1 == page
  {
    var o := (page - 1) * size;
    assert Offset(Finite(page), Finite(size)) == Finite(o);
    MulNonNegative(page - 1, size);
    DivMulExact(page - 1, size);
  }

  /** A page or size that is NaN makes the offset NaN, and nothing else does. */
  lemma OffsetNaN(page: Num, size: Num)
    ensures Offset(page, size).NaN? <==> page.NaN? || size.NaN?
  {
  }

  lemma MulNonNegative(a: int, b: int)
    requires a >= 0 && b >= 0
    ensures a * b >= 0
  {
  }

  lemma DivMulExact(a: int, b: int)
    requires a >= 0 && b >= 1
    ensures (a * b) % b == 0 && (a * b) / b == a
  {
    var q, r := (a * b) / b, (a * b) % b;
    assert a * b == q * b + r && 0 <= r < b;
    assert (a - q) * b == r;
    if a > q {
      MulMonotone(1, a - q, b);
    } else if a < q {
      MulMonotone(a - q, -1, b);
    }
  }

  /** `Math.ceil(totalItems / size)`; NaN when either is NaN. */
  function TotalPages(items: Num, size: Num): Num
    requires size.NaN? || size.n >= 1
  {
    if items.Finite? && size.Finite? then Finite(CeilDiv(items.n, size.n)) else NaN
  }

  /**
    The page count of `items` rows in pages of `size`: none for no rows,
    otherwise the least number of pages whose capacity holds them all.
   */
  lemma TotalPagesBounds(items: int, size: int)
    requires items >= 0 && size >= 1
    ensures TotalPages(Finite(items), Finite(size)).Finite?
    ensures var t := TotalPages(Finite(items), Finite(size)).n;
      && (t == 0 <==> items == 0)
      && (items > 0 ==> (t - 1) * size < items <= t * size)
  {
    var t := CeilDiv(items, size);
    if items == 0 {
      CeilDivUnique(0, size, 0);
    } else {
      assert t * size >= items > 0;
      if t <= 0 {
        MulNonPositive(t, size);
      }
    }
  }

  lemma MulNonPositive(a: int, b: int)
    requires a <= 0 && b >= 0
    ensures a * b <= 0
  {
  }

  /** The number of rows `LIMIT limit OFFSET offset` keeps out of `items` matching rows. */
  function RowsOnPage(items: int, offset: int, limit: int): nat
  {
    if items - offset <= 0 || limit <= 0 then 0
    else if items - offset < limit then items - offset
    else limit
  }

  /** Page `page` holds at least one row exactly when it is one of the first `totalPages` pages. */
  lemma PageNonEmptyIff(items: int, size: int, page: int)
    requires items >= 0 && size >= 1 && page >= 1
    ensures RowsOnPage(items, (page - 1) * size, size) > 0 <==> page <= CeilDiv(items, size)
  {
    var t := CeilDiv(items, size);
    if page <= t {
      MulMonotone(page - 1, t - 1, size);
    } else {
      MulMonotone(t, page - 1, size);
    }
  }

  /** The rows held by pages 1 through `pages`. */
  function RowsOnFirstPages(items: int, size: int, pages: nat): int
  {
    if pages == 0 then 0
    else RowsOnFirstPages(items, size, pages - 1) + RowsOnPage(items, (pages - 1) * size, size)
  }

  lemma {:induction false} RowsOnFirstPagesCapped(items: int, size: int, pages: nat)
    requires items >= 0 && size >= 1
    ensures RowsOnFirstPages(items, size, pages) == if items < pages * size then items else pages * size
  {
    if pages > 0 {
      RowsOnFirstPagesCapped(items, size, pages - 1);
      assert (pages - 1) * size + size == pages * size;
      MulNonNegative(pages - 1, size);
    }
  }

  /** Pages 1 through `totalPages` together hold `items` rows: the page sizes add up to the row count. */
  lemma PagesCoverAllRows(items: int, size: int)
    requires items >= 0 && size >= 1
    ensures CeilDiv(items, size) >= 0
    ensures RowsOnFirstPages(items, size, CeilDiv(items, size)) == items
  {
    TotalPagesBounds(items, size);
    RowsOnFirstPagesCapped(items, size, CeilDiv(items, size));
  }

  /** The `pagination` object of a 200 answer. */
  datatype PageInfo = PageInfo(totalItems: Num, totalPages: Num, currentPage: Num, pageSize: Num)

  /** The envelope echoes the requested page and size and derives the page count from the row count. */
  function MakePageInfo(items: Num, page: Num, size: Num): (p: PageInfo)
    requires size.NaN? || size.n >= 1
    ensures p.totalItems == items && p.currentPage == page && p.pageSize == size
    ensures items.Finite? && size.Finite? && items.n >= 0 ==>
      p.totalPages.Finite? && (p.totalPages.n - 1) * size.n < items.n <= p.totalPages.n * size.n
  {
    PageInfo(items, TotalPages(items, size), page, size)
  }
}
