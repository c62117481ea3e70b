/**
  * The listing pagination of `search`: `query.paginate(page=page, per_page=50,
  * error_out=False)`, 1-based pages of fifty rows, where a page past the end is
  * empty rather than an error.
  */
module Paging {

  /** `per_page = 50`. */
  const PerPage: nat := 50

  function Min(a: int, b: int): int
  {
    if a <= b then a else b
  }

  /** The first row of a 1-based page, `(page - 1) * per_page`. */
  function Offset(page: nat): nat
    requires page >= 1
  {
    (page - 1) * PerPage
  }

  /**
    * `pagination.items`: row `k` of page `page` is row `Offset(page) + k` of
    * the result, the page holds at most fifty rows, and it holds every row of
    * the result that falls in its window (so it is empty past the end).
    */
  function Paginate<T>(items: seq<T>, page: nat): (r: seq<T>)
    requires page >= 1
    ensures |r| <= PerPage
    ensures forall k :: 0 <= k < |r| ==> Offset(page) + k < |items| && r[k] == items[Offset(page) + k]
    ensures |r| == if Offset(page) >= |items| then 0 else Min(PerPage, |items| - Offset(page))
  {
    var start := Offset(page);
    if start >= |items| then [] else items[start..Min(start + PerPage, |items|)]
  }

  /** `pagination.pages`: the number of non-empty pages, ceil(total / 50). */
  function PageCount(total: nat): (n: nat)
    ensures n * PerPage >= total
    ensures n > 0 ==> (n - 1) * PerPage < total
  {
    (total + PerPage - 1) / PerPage
  }

  /** Pages `1..count` laid end to end. */
  function Pages<T>(items: seq<T>, count: nat): seq<T>
  {
    if count == 0 then [] else Pages(items, count - 1) + Paginate(items, count)
  }

  /** The first `count` pages are exactly the first `count * 50` rows of the result. */
  lemma {:induction false} PagesArePrefix<T>(items: seq<T>, count: nat)
    ensures Pages(items, count) == items[..Min(count * PerPage, |items|)]
  {
    if count > 0 {
      PagesArePrefix(items, count - 1);
      var prev := Min((count - 1) * PerPage, |items|);
      var page := Paginate(items, count);
      assert Offset(count) == (count - 1) * PerPage;
      if Offset(count) >= |items| {
        assert prev == |items| && Min(count * PerPage, |items|) == |items|;
      } else {
        assert page == items[prev..Min(count * PerPage, |items|)];
        assert items[..prev] + items[prev..Min(count * PerPage, |items|)] == items[..Min(count * PerPage, |items|)];
      }
    }
  }

  /** Walking every page lists every row of the result exactly once, in order. */
  lemma PagesCoverItems<T>(items: seq<T>)
    ensures Pages(items, PageCount(|items|)) == items
  {
    PagesArePrefix(items, PageCount(|items|));
  }

  /** Every page after the last one is empty. */
  lemma PastTheEndIsEmpty<T>(items: seq<T>, page: nat)
    requires page > PageCount(|items|)
    ensures Paginate(items, page) == []
  {
    assert Offset(page) >= PageCount(|items|) * PerPage;
  }

  /** 120 matching rows give three pages of 50, 50 and 20 rows, and page 4 is empty. */
  lemma HundredTwentyRows<T>(items: seq<T>)
    requires |items| == 120
    ensures PageCount(|items|) == 3
    ensures |Paginate(items, 1)| == 50 && |Paginate(items, 2)| == 50 && |Paginate(items, 3)| == 20
    ensures Paginate(items, 4) == []
  {
  }
}
