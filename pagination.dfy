/** Pagination of the filtered rows: ten rows per page, the page slice taken
    with `Array.prototype.slice`, page clamping, and the row numbers and the
    "first - last" range shown under the table. */
module Pagination {
  import opened Sequences

  const RowsPerPage: nat := 10

  /** `Math.ceil(n / rowsPerPage)`: the fewest pages that hold `n` rows. */
  function TotalPages(n: nat): (r: nat)
    ensures n <= r * RowsPerPage
    ensures (r - 1) * RowsPerPage < n
  {
    (n + RowsPerPage - 1) / RowsPerPage
  }

  /** More rows never need fewer pages. */
  lemma TotalPagesMonotone(m: nat, n: nat)
    requires m <= n
    ensures TotalPages(m) <= TotalPages(n)
  {
  }

  /** How `Array.prototype.slice` reads one bound for a sequence of length
      `len`: a negative bound counts from the end; the result is clamped to
      `[0, len]`. */
  function SliceBound(k: int, len: nat): (r: nat)
    ensures r <= len
    ensures 0 <= k ==> r == Min(k, len)
  {
    if k < 0 then (if len + k < 0 then 0 else len + k)
    else if k < len then k
    else len
  }

  /** `s.slice(start, end)`. */
  function Slice<T>(s: seq<T>, start: int, end: int): (r: seq<T>)
    ensures |r| <= |s|
    ensures 0 <= start <= end <= |s| ==> r == s[start..end]
    ensures start >= |s| || 0 <= end <= start ==> r == []
  {
    var b, e := SliceBound(start, |s|), SliceBound(end, |s|);
    if b < e then s[b..e] else []
  }

  /** `currentData`: the rows of page `page`, `filteredData.slice((page - 1) * 10, page * 10)`. */
  function Page<T>(s: seq<T>, page: int): (r: seq<T>)
    ensures page >= 1 ==> forall i :: 0 <= i < |r| ==>
              (page - 1) * RowsPerPage + i < |s| && r[i] == s[(page - 1) * RowsPerPage + i]
  {
    Slice(s, (page - 1) * RowsPerPage, page * RowsPerPage)
  }

  /** A page between 1 and the page count is a non-empty run of at most ten
      consecutive rows, starting at row `(page - 1) * 10`. */
  lemma PageInRange<T>(s: seq<T>, page: int)
    requires 1 <= page <= TotalPages(|s|)
    ensures Page(s, page) == s[(page - 1) * RowsPerPage..Min(page * RowsPerPage, |s|)]
    ensures 1 <= |Page(s, page)| <= RowsPerPage
  {
  }

  /** Page 0 and the pages after the last one are empty. */
  lemma PageOutOfRange<T>(s: seq<T>, page: int)
    requires page == 0 || page > TotalPages(|s|)
    ensures Page(s, page) == []
  {
  }

  /** Whatever the page number, a page holds at most ten rows. */
  lemma PageSize<T>(s: seq<T>, page: int)
    ensures |Page(s, page)| <= RowsPerPage
  {
  }

  /** Pages 1 to `k` laid end to end. */
  function PagesThrough<T>(s: seq<T>, k: nat): seq<T> {
    if k == 0 then [] else PagesThrough(s, k - 1) + Page(s, k)
  }

  /** The first `k` pages are the first `10 k` rows. */
  lemma {:induction false} PagesThroughIsPrefix<T>(s: seq<T>, k: nat)
    requires k <= TotalPages(|s|)
    ensures PagesThrough(s, k) == s[..Min(k * RowsPerPage, |s|)]
  {
    if k > 0 {
      PagesThroughIsPrefix(s, k - 1);
      PageInRange(s, k);
      assert (k - 1) * RowsPerPage < |s|;
      var lo, hi := (k - 1) * RowsPerPage, Min(k * RowsPerPage, |s|);
      assert s[..lo] + s[lo..hi] == s[..hi];
    }
  }

  /** All pages together give back the filtered rows, in order. */
  lemma {:induction false} PagesCoverRows<T>(s: seq<T>)
    ensures PagesThrough(s, TotalPages(|s|)) == s
  {
    PagesThroughIsPrefix(s, TotalPages(|s|));
    assert s[..|s|] == s;
  }

  /** The "No." cell of the row at `rowIndex` on page `page`. */
  function RowNumber(page: int, rowIndex: int): (r: int)
    ensures page >= 1 && rowIndex >= 0 ==> r >= 1
    ensures 0 <= rowIndex < RowsPerPage ==> (page - 1) * RowsPerPage < r <= page * RowsPerPage
  {
    (page - 1) * RowsPerPage + rowIndex + 1
  }

  /** The row numbers on a page are the 1-based positions of its rows in the
      filtered rows. */
  lemma RowNumbersMatchPage<T>(s: seq<T>, page: int, i: int)
    requires 1 <= page <= TotalPages(|s|)
    requires 0 <= i < |Page(s, page)|
    ensures 1 <= RowNumber(page, i) <= |s|
    ensures Page(s, page)[i] == s[RowNumber(page, i) - 1]
  {
  }

  /** The first number of the "first - last" range: 0 when nothing matched. */
  function RangeStart(n: nat, page: int): (r: int)
    ensures n == 0 ==> r == 0
    ensures n > 0 ==> r == RowNumber(page, 0)
  {
    if n > 0 then (page - 1) * RowsPerPage + 1 else 0
  }

  /** The last number of the "first - last" range. */
  function RangeEnd(n: nat, page: int): (r: int)
    ensures r <= n && r <= page * RowsPerPage
    ensures r == n || r == page * RowsPerPage
  {
    Min(page * RowsPerPage, n)
  }

  /** On a page in range, the displayed range runs from the first to the last
      row number on the page and counts exactly its rows. */
  lemma RangeMatchesPage<T>(s: seq<T>, page: int)
    requires 1 <= page <= TotalPages(|s|)
    ensures |Page(s, page)| > 0
    ensures RangeStart(|s|, page) == RowNumber(page, 0)
    ensures RangeEnd(|s|, page) == RowNumber(page, |Page(s, page)| - 1)
    ensures RangeEnd(|s|, page) - RangeStart(|s|, page) + 1 == |Page(s, page)|
  {
  }

  /** With no rows the range reads "0 - 0" on any page the component can reach. */
  lemma RangeOfNoRows(page: int)
    requires page >= 0
    ensures RangeStart(0, page) == 0 && RangeEnd(0, page) == 0
  {
  }

  /** The clamping of `changePage`: first up to 1, then down to the page
      count, so with no pages at all the result is 0. */
  function ClampPage(page: int, totalPages: nat): (r: int)
    ensures totalPages >= 1 ==> 1 <= r <= totalPages
    ensures 1 <= page <= totalPages ==> r == page
    ensures page < 1 && totalPages >= 1 ==> r == 1
    ensures page > totalPages ==> r == totalPages
    ensures totalPages == 0 ==> r == 0
  {
    var lower := if page < 1 then 1 else page;
    if lower > totalPages then totalPages else lower
  }

  /** Twenty-five rows make three pages; the third holds rows 20 to 24, and
      asking for page 5 lands on page 3. */
  lemma TwentyFiveRows<T>(s: seq<T>)
    requires |s| == 25
    ensures TotalPages(|s|) == 3
    ensures Page(s, 1) == s[..10] && Page(s, 3) == s[20..]
    ensures ClampPage(5, TotalPages(|s|)) == 3
  {
  }
}
