/** The arithmetic of `GET /logs`: query values that fall back to a default,
    the offset of a page and the number of pages. */
module Pagination {
  import opened Wrappers

  const DefaultPage: int := 1
  const DefaultLimit: int := 50

  /** `parseInt(v) || fallback`, with `None` standing for NaN: NaN and zero
      are falsy and give way to the fallback, every other number is kept. */
  function ParseOr(v: Option<int>, fallback: int): (r: int)
    ensures fallback != 0 ==> r != 0
    ensures v.Some? && v.value != 0 ==> r == v.value
    ensures v.None? || v == Some(0) ==> r == fallback
  {
    if v.Some? && v.value != 0 then v.value else fallback
  }

  /** `Math.ceil(total / limit)` on whole numbers: the exact ceiling of the
      quotient, for a divisor of either sign. */
  function CeilDiv(total: int, limit: int): (n: int)
    requires limit != 0
    ensures limit > 0 ==> (n - 1) * limit < total <= n * limit
    ensures limit < 0 ==> n * limit <= total < (n - 1) * limit
  {
    if limit > 0 then
      var n := (total + limit - 1) / limit;
      var m := (total + limit - 1) % limit;
      assert total + limit - 1 == n * limit + m && 0 <= m < limit;
      assert (n - 1) * limit == n * limit - limit;
      n
    else
      var n := (-total - limit - 1) / -limit;
      var m := (-total - limit - 1) % -limit;
      assert -total - limit - 1 == n * -limit + m && 0 <= m < -limit;
      assert (n - 1) * limit == n * limit - limit;
      n
  }

  /** Sign facts about a product with a positive factor. */
  lemma MulBounds(a: int, k: int)
    requires k > 0
    ensures a >= 1 ==> a * k >= k
    ensures a <= -1 ==> a * k <= -k
    ensures a >= 0 ==> a * k >= 0
    ensures a <= 0 ==> a * k <= 0
  {
  }

  /** The ceiling is the only number with the defining bounds. */
  lemma CeilDivUnique(total: int, limit: int, n: int)
    requires limit > 0
    requires (n - 1) * limit < total <= n * limit
    ensures n == CeilDiv(total, limit)
  {
    var c := CeilDiv(total, limit);
    MulBounds(n - c, limit);
    assert (n - c) * limit == n * limit - c * limit;
    assert (n - 1) * limit == n * limit - limit;
    assert (c - 1) * limit == c * limit - limit;
  }

  /** No rows make no pages (not one empty page), and rows always make at
      least one. */
  lemma PageCountSign(total: int, limit: int)
    requires limit > 0 && total >= 0
    ensures total == 0 <==> CeilDiv(total, limit) == 0
    ensures total > 0 ==> CeilDiv(total, limit) >= 1
  {
    var n := CeilDiv(total, limit);
    MulBounds(n, limit);
    MulBounds(n - 1, limit);
  }

  /** The page counts the server's tests expect. */
  lemma PageCountExamples()
    ensures CeilDiv(100, 50) == 2
    ensures CeilDiv(100, 10) == 10
    ensures CeilDiv(0, 50) == 0
  {
    CeilDivUnique(100, 50, 2);
    CeilDivUnique(100, 10, 10);
    CeilDivUnique(0, 50, 0);
  }

  /** The first row of a page, counting rows from 0 in listing order. */
  function PageOffset(page: int, limit: int): int {
    (page - 1) * limit
  }

  /** A page holds rows exactly when its number is at most the page count. */
  lemma PageHasRowsIffCounted(page: int, limit: int, total: int)
    requires page >= 1 && limit > 0
    ensures PageOffset(page, limit) < total <==> page <= CeilDiv(total, limit)
  {
    var n := CeilDiv(total, limit);
    MulBounds(n - page, limit);
    MulBounds(n - page + 1, limit);
    assert (n - page) * limit == (n - 1) * limit - (page - 1) * limit;
    assert (n - page + 1) * limit == n * limit - (page - 1) * limit;
  }

  /** Row `i` of `total`, counting from 0 in listing order, is on page
      `i / limit + 1`, and that page is counted. */
  lemma RowOnPage(i: int, limit: int, total: int)
    requires limit > 0 && 0 <= i < total
    ensures var p := i / limit + 1;
      && 1 <= p <= CeilDiv(total, limit)
      && PageOffset(p, limit) <= i < PageOffset(p, limit) + limit
  {
    var p := i / limit + 1;
    assert i == (p - 1) * limit + i % limit;
    PageHasRowsIffCounted(p, limit, total);
  }

  /** No two pages share a row: a page whose window holds row `i` is page
      `i / limit + 1`. */
  lemma RowOnOnePage(i: int, limit: int, page: int)
    requires limit > 0 && 0 <= i
    requires PageOffset(page, limit) <= i < PageOffset(page, limit) + limit
    ensures page == i / limit + 1
  {
    var p := i / limit + 1;
    assert i == (p - 1) * limit + i % limit;
    MulBounds(page - p, limit);
    assert (page - p) * limit == PageOffset(page, limit) - PageOffset(p, limit);
  }
}
