/** What the upload page and the calculate page share: the four filter
    strings, 20-row pages cut with `Array.prototype.slice`, and the
    Previous/Next controls that clamp the page number. */
module TableView {
  import opened Common

  /** The `filters` state object; an empty string is an inactive filter. */
  datatype Filters = Filters(product: string, date: string, transactionType: string, customer: string)

  const NoFilters := Filters("", "", "", "")

  /** `itemsPerPage`. */
  const PageSize: nat := 20

  /** `Math.ceil(count / itemsPerPage)`; 0 for an empty list. */
  function TotalPages(count: nat): (r: nat)
    ensures r * PageSize >= count
    ensures r > 0 ==> (r - 1) * PageSize < count
    ensures r == 0 <==> count == 0
  {
    (count + PageSize - 1) / PageSize
  }

  /** ECMAScript `s.slice(start, end)`: a negative index counts from the end,
      both ends are clamped to the list, and a reversed range is empty. */
  function JsSlice<T>(s: seq<T>, start: int, end: int): seq<T>
  {
    var from := if start < 0 then Max(|s| + start, 0) else Min(start, |s|);
    var to := if end < 0 then Max(|s| + end, 0) else Min(end, |s|);
    if from >= to then [] else s[from..to]
  }

  /** The rows shown on (1-based) page `page`: `slice((page - 1) * 20, page * 20)`. */
  function Page<T>(s: seq<T>, page: int): (r: seq<T>)
    ensures |r| <= PageSize
  {
    JsSlice(s, (page - 1) * PageSize, page * PageSize)
  }

  /** From page 1 on, a page is the window starting at `(page - 1) * 20`, cut at the end of the list. */
  lemma PageWindow<T>(s: seq<T>, page: int)
    requires page >= 1
    ensures Min((page - 1) * PageSize, |s|) <= Min(page * PageSize, |s|)
    ensures Page(s, page) == s[Min((page - 1) * PageSize, |s|)..Min(page * PageSize, |s|)]
  {
  }

  /** A page from 1 on holds rows exactly when it is one of the `TotalPages` pages. */
  lemma PageNonEmptyIffInRange<T>(s: seq<T>, page: int)
    requires page >= 1
    ensures Page(s, page) != [] <==> page <= TotalPages(|s|)
  {
    PageWindow(s, page);
  }

  /** Pages 1 to `n`, one after the other. */
  function PagesUpTo<T>(s: seq<T>, n: nat): seq<T>
  {
    if n == 0 then [] else PagesUpTo(s, n - 1) + Page(s, n)
  }

  lemma {:induction false} PagesUpToIsPrefix<T>(s: seq<T>, n: nat)
    ensures PagesUpTo(s, n) == s[..Min(n * PageSize, |s|)]
  {
    if n > 0 {
      PagesUpToIsPrefix(s, n - 1);
      PageWindow(s, n);
      var a, b := Min((n - 1) * PageSize, |s|), Min(n * PageSize, |s|);
      assert s[..a] + s[a..b] == s[..b];
    }
  }

  /** Putting pages 1 to `TotalPages` together gives back the whole list. */
  lemma PagesPartition<T>(s: seq<T>)
    ensures PagesUpTo(s, TotalPages(|s|)) == s
  {
    PagesUpToIsPrefix(s, TotalPages(|s|));
  }

  /** Row `i` is shown on page `i / 20 + 1`, at position `i % 20`. */
  lemma RowPlacement<T>(s: seq<T>, i: nat)
    requires i < |s|
    ensures 1 <= i / PageSize + 1 <= TotalPages(|s|)
    ensures i % PageSize < |Page(s, i / PageSize + 1)|
    ensures Page(s, i / PageSize + 1)[i % PageSize] == s[i]
  {
    PageWindow(s, i / PageSize + 1);
  }

  /** `Math.max(prev - 1, 1)`. */
  function Previous(page: int): int
  {
    Max(page - 1, 1)
  }

  /** `Math.min(prev + 1, totalPages)`. */
  function Next(page: int, totalPages: int): int
  {
    Min(page + 1, totalPages)
  }

  /** The Previous button is rendered (`totalPages > 1`) and enabled (`currentPage !== 1`). */
  predicate PreviousEnabled(page: int, totalPages: int)
  {
    totalPages > 1 && page != 1
  }

  /** The Next button is rendered (`totalPages > 1`) and enabled (`currentPage !== totalPages`). */
  predicate NextEnabled(page: int, totalPages: int)
  {
    totalPages > 1 && page != totalPages
  }

  /** The page number after a click on Previous: unchanged while the button is disabled. */
  function AfterPrevious(page: int, totalPages: int): int
  {
    if PreviousEnabled(page, totalPages) then Previous(page) else page
  }

  /** The page number after a click on Next: unchanged while the button is disabled. */
  function AfterNext(page: int, totalPages: int): int
  {
    if NextEnabled(page, totalPages) then Next(page, totalPages) else page
  }

  /** From a page in `[1, totalPages]`, Previous gives `max(p - 1, 1)` and Next
      gives `min(p + 1, totalPages)`, and both stay in `[1, totalPages]`. */
  lemma ClicksStayInRange(page: int, totalPages: int)
    requires 1 <= page <= totalPages
    ensures AfterPrevious(page, totalPages) == Max(page - 1, 1)
    ensures AfterNext(page, totalPages) == Min(page + 1, totalPages)
    ensures 1 <= AfterPrevious(page, totalPages) <= totalPages
    ensures 1 <= AfterNext(page, totalPages) <= totalPages
  {
  }

  /** A click never takes the page number below 1, whatever page it starts from. */
  lemma ClicksKeepPagePositive(page: int, totalPages: int)
    requires page >= 1
    ensures AfterPrevious(page, totalPages) >= 1
    ensures AfterNext(page, totalPages) >= 1
  {
  }

  /** From a page beyond the last one, Next brings the page number back to the last page. */
  lemma NextFromBeyondTheEnd(page: int, totalPages: int)
    requires totalPages > 1 && page > totalPages
    ensures AfterNext(page, totalPages) == totalPages
  {
  }
}
