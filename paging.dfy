/** Paging of the filtered list (src/App.jsx:29, 63-67, 166, 204-206): a fixed page
    size, the page count, the slice shown for the current page and the
    "Showing X to Y of N" line. */
module Paging {

  const PageSize: nat := 6

  function Min(a: int, b: int): int {
    if a <= b then a else b
  }

  /** `Math.ceil(n / PageSize)`: the fewest pages of `PageSize` that hold `n` items. */
  function TotalPages(n: nat): (k: nat)
    ensures k * PageSize >= n
    ensures k > 0 ==> (k - 1) * PageSize < n
    ensures k == 0 <==> n == 0
  {
    (n + PageSize - 1) / PageSize
  }

  /** How `Array.prototype.slice` turns an argument into an index in `[0, len]`:
      negative arguments count back from the end. */
  function SliceIndex(i: int, len: nat): (k: nat)
    ensures k <= len
    ensures 0 <= i <= len ==> k == i
    ensures i > len ==> k == len
    ensures -(len as int) <= i < 0 ==> k == len + i
    ensures i < -(len as int) ==> k == 0
  {
    if i < 0 then (if len + i < 0 then 0 else len + i)
    else if i < len then i
    else len
  }

  /** `s.slice(start, end)`. */
  function JsSlice<T>(s: seq<T>, start: int, end: int): (r: seq<T>)
    ensures |r| <= |s|
  {
    var from, to := SliceIndex(start, |s|), SliceIndex(end, |s|);
    if from < to then s[from..to] else []
  }

  /** With non-negative bounds, `slice` is the sub-sequence between the bounds cut at the length. */
  lemma JsSliceNonNegative<T>(s: seq<T>, start: int, end: int)
    requires 0 <= start <= end
    ensures JsSlice(s, start, end) == s[Min(start, |s|)..Min(end, |s|)]
  {
  }

  /** The tags shown on page `page` (src/App.jsx:64-67). */
  function PageSlice<T>(s: seq<T>, page: int): (r: seq<T>)
    ensures |r| <= PageSize
    ensures page >= 1 ==> r == s[Min((page - 1) * PageSize, |s|)..Min(page * PageSize, |s|)]
  {
    if page >= 1 then
      JsSliceNonNegative(s, (page - 1) * PageSize, page * PageSize);
      JsSlice(s, (page - 1) * PageSize, page * PageSize)
    else
      JsSlice(s, (page - 1) * PageSize, page * PageSize)
  }

  /** A page in range shows the items from `(p-1)*6` up to `min(p*6, n)`:
      at least one and at most `PageSize` of them. */
  lemma PageSliceInRange<T>(s: seq<T>, p: int)
    requires 1 <= p <= TotalPages(|s|)
    ensures PageSlice(s, p) == s[(p - 1) * PageSize..Min(p * PageSize, |s|)]
    ensures 0 < |PageSlice(s, p)| <= PageSize
  {
    JsSliceNonNegative(s, (p - 1) * PageSize, p * PageSize);
  }

  /** A page after the last one shows nothing. */
  lemma PageSliceBeyond<T>(s: seq<T>, p: int)
    requires p > TotalPages(|s|)
    ensures PageSlice(s, p) == []
  {
    JsSliceNonNegative(s, (p - 1) * PageSize, p * PageSize);
  }

  /** Whatever the page number, at most `PageSize` items are shown, all of them from the list. */
  lemma PageSliceBounded<T>(s: seq<T>, p: int)
    ensures |PageSlice(s, p)| <= PageSize
    ensures forall x :: x in PageSlice(s, p) ==> x in s
  {
    var from, to := SliceIndex((p - 1) * PageSize, |s|), SliceIndex(p * PageSize, |s|);
    if from < to {
      assert PageSlice(s, p) == s[from..to];
      forall x | x in s[from..to] ensures x in s {
        var k :| from <= k < to && s[k] == x;
      }
    }
  }

  /** Pages `1..k` laid end to end. */
  function PagesUpTo<T>(s: seq<T>, k: nat): seq<T> {
    if k == 0 then [] else PagesUpTo(s, k - 1) + PageSlice(s, k)
  }

  lemma {:induction false} PagesUpToPrefix<T>(s: seq<T>, k: nat)
    requires k <= TotalPages(|s|)
    ensures PagesUpTo(s, k) == s[..Min(k * PageSize, |s|)]
  {
    if k > 0 {
      PagesUpToPrefix(s, k - 1);
      PageSliceInRange(s, k);
      assert Min((k - 1) * PageSize, |s|) == (k - 1) * PageSize;
      assert s[..(k - 1) * PageSize] + s[(k - 1) * PageSize..Min(k * PageSize, |s|)]
          == s[..Min(k * PageSize, |s|)];
    }
  }

  /** Every item is on exactly one page: the pages concatenate back to the list. */
  lemma PagesCoverList<T>(s: seq<T>)
    ensures PagesUpTo(s, TotalPages(|s|)) == s
  {
    PagesUpToPrefix(s, TotalPages(|s|));
  }

  /** The numbers of the results line: first and last position shown, and the total. */
  datatype ResultsLine = ResultsLine(first: int, last: int, total: nat)

  /** "Showing first to last of total" (src/App.jsx:204-206). */
  function Results(page: int, n: nat): (r: ResultsLine)
    ensures r.total == n && r.last <= n
    ensures page >= 1 ==> 1 <= r.first && r.last - r.first < PageSize
  {
    ResultsLine((page - 1) * PageSize + 1, Min(page * PageSize, n), n)
  }

  /** On a page in range, the results line gives the 1-based positions of the first
      and last item shown, and it counts exactly the items shown. */
  lemma ResultsLineCountsShown<T>(s: seq<T>, p: int)
    requires 1 <= p <= TotalPages(|s|)
    ensures var r := Results(p, |s|);
      1 <= r.first <= r.last <= r.total == |s| &&
      r.last - r.first + 1 == |PageSlice(s, p)| &&
      PageSlice(s, p)[0] == s[r.first - 1] &&
      PageSlice(s, p)[|PageSlice(s, p)| - 1] == s[r.last - 1]
  {
    PageSliceInRange(s, p);
  }

  /** With nothing to show, the line on page 1 reads "Showing 1 to 0 of 0". */
  lemma ResultsLineWhenEmpty()
    ensures Results(1, 0) == ResultsLine(1, 0, 0)
  {
  }

  /** The pagination bar is rendered when there are more items than fit one page. */
  predicate ShowPagination(n: nat): (r: bool)
    ensures r <==> TotalPages(n) > 1
  {
    n > PageSize
  }
}
