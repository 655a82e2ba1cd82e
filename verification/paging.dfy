/** The fixed-size pages `getPaginatedProducts` and `getTotalPages` cut out of the search results. */
module Paging {
  /** `itemsPerPage` of `ProductDB`. */
  const PageSize: nat := 20

  function Min(a: int, b: int): int { if a <= b then a else b }
  function Max(a: int, b: int): int { if a >= b then a else b }

  /**
   * JavaScript's `Array.slice(start, end)`: a negative index counts from the
   * end, both indices are clamped to the array, and a crossed pair gives [].
   */
  function Slice<T>(s: seq<T>, start: int, end: int): (r: seq<T>)
    ensures |r| <= |s|
  {
    var b := if start < 0 then Max(|s| + start, 0) else Min(start, |s|);
    var e := if end < 0 then Max(|s| + end, 0) else Min(end, |s|);
    if b < e then s[b..e] else []
  }

  /** Index of the first item of page `page` (pages count from 1). */
  function PageStart(page: int): int {
    (page - 1) * PageSize
  }

  /** `getPaginatedProducts`: the slice `[PageStart(page), PageStart(page) + PageSize)` of `results`. */
  function Page<T>(results: seq<T>, page: int): (items: seq<T>)
    ensures |items| <= PageSize
  {
    Slice(results, PageStart(page), PageStart(page) + PageSize)
  }

  /** `getTotalPages`: `Math.ceil(count / itemsPerPage)`, the least number of pages that hold `count` items. */
  function TotalPages(count: nat): (r: nat)
    ensures count <= r * PageSize
    ensures r == 0 || (r - 1) * PageSize < count
  {
    (count + PageSize - 1) / PageSize
  }

  /** A page at or after the first is a window of at most `PageSize` consecutive results. */
  lemma PageWindow<T>(results: seq<T>, page: int)
    requires page >= 1
    ensures |Page(results, page)| ==
      if PageStart(page) >= |results| then 0 else Min(PageSize, |results| - PageStart(page))
    ensures |Page(results, page)| <= PageSize
    ensures forall i :: 0 <= i < |Page(results, page)| ==>
      Page(results, page)[i] == results[PageStart(page) + i]
  {
  }

  /** A page holds something exactly when its number is at most the page count. */
  lemma PageNonEmptyIff<T>(results: seq<T>, page: int)
    requires page >= 1
    ensures Page(results, page) != [] <==> page <= TotalPages(|results|)
  {
    PageWindow(results, page);
    var n, t := |results|, TotalPages(|results|);
    if page <= t {
      assert (t - 1) * PageSize < n;
      assert PageStart(page) <= PageStart(t);
    } else {
      assert n <= t * PageSize;
      assert t * PageSize <= PageStart(page);
    }
  }

  /** Pages 1 to `k` one after another. */
  function Pages<T>(results: seq<T>, k: nat): seq<T> {
    if k == 0 then [] else Pages(results, k - 1) + Page(results, k)
  }

  lemma {:induction false} PagesPrefix<T>(results: seq<T>, k: nat)
    ensures Pages(results, k) == results[..Min(k * PageSize, |results|)]
  {
    if k > 0 {
      PagesPrefix(results, k - 1);
      PageWindow(results, k);
      assert PageStart(k) == (k - 1) * PageSize;
      var lo, hi := Min((k - 1) * PageSize, |results|), Min(k * PageSize, |results|);
      assert results[..hi] == results[..lo] + results[lo..hi];
    }
  }

  /** Reading pages 1 to `getTotalPages()` in turn shows every result once, in order. */
  lemma PagesCoverResults<T>(results: seq<T>)
    ensures Pages(results, TotalPages(|results|)) == results
  {
    PagesPrefix(results, TotalPages(|results|));
  }

  /** 45 results make 3 pages; the third holds 5 items and the fourth none. */
  lemma FortyFiveResults<T>(results: seq<T>)
    requires |results| == 45
    ensures TotalPages(|results|) == 3
    ensures |Page(results, 3)| == 5 && Page(results, 3) == results[40..]
    ensures Page(results, 4) == []
  {
    PageWindow(results, 3);
    PageWindow(results, 4);
  }
}
