/** The `Pagination` component: the list of page buttons it shows (first
    page, a window of siblings around the current page, ellipses for the
    gaps, last page), the guard in front of `onPageChange`, and the
    conditions under which it renders nothing or disables Previous / Next. */
module PaginationControls {

  /** One entry of the button row: a page number or the '...' marker. */
  datatype PageItem = Page(n: int) | Ellipsis

  function Max(a: int, b: int): int { if a >= b then a else b }

  function Min(a: int, b: int): int { if a <= b then a else b }

  /** First page of the sibling window. */
  function LeftSibling(currentPage: int, siblingCount: int): int {
    Max(2, currentPage - siblingCount)
  }

  /** Last page of the sibling window. */
  function RightSibling(currentPage: int, totalPages: int, siblingCount: int): int {
    Min(totalPages - 1, currentPage + siblingCount)
  }

  /** The pages lo, lo+1, ..., hi as buttons (none when lo > hi). */
  function Run(lo: int, hi: int): (r: seq<PageItem>)
    ensures |r| == if lo <= hi then hi - lo + 1 else 0
    ensures forall k :: 0 <= k < |r| ==> r[k] == Page(lo + k)
    decreases hi - lo
  {
    if lo > hi then [] else [Page(lo)] + Run(lo + 1, hi)
  }

  /** The numbers on the page buttons, in row order. */
  function Numbers(items: seq<PageItem>): seq<int> {
    if items == [] then []
    else if items[0].Page? then [items[0].n] + Numbers(items[1..])
    else Numbers(items[1..])
  }

  ghost predicate StrictlyIncreasing(s: seq<int>) {
    forall i, j :: 0 <= i < j < |s| ==> s[i] < s[j]
  }

  /** The row `getPageNumbers` builds: page 1, an ellipsis when the window
      starts after 2, the window, an ellipsis when it ends before the
      second-to-last page, and the last page when there is more than one. */
  function Row(currentPage: int, totalPages: int, siblingCount: int): seq<PageItem> {
    var lo, hi := LeftSibling(currentPage, siblingCount), RightSibling(currentPage, totalPages, siblingCount);
    [Page(1)] + (if lo > 2 then [Ellipsis] else []) + Run(lo, hi)
    + (if hi < totalPages - 1 then [Ellipsis] else [])
    + (if totalPages > 1 then [Page(totalPages)] else [])
  }

  /** `getPageNumbers`. */
  method GetPageNumbers(currentPage: int, totalPages: int, siblingCount: int) returns (pages: seq<PageItem>)
    ensures pages != [] && pages[0] == Page(1)
    ensures totalPages > 1 ==> pages[|pages| - 1] == Page(totalPages)
    ensures pages == Row(currentPage, totalPages, siblingCount)
  {
    pages := [Page(1)];
    var leftSibling := Max(2, currentPage - siblingCount);
    var rightSibling := Min(totalPages - 1, currentPage + siblingCount);
    if leftSibling > 2 {
      pages := pages + [Ellipsis];
    }
    ghost var head := pages;
    var i := leftSibling;
    while i <= rightSibling
      invariant leftSibling <= i <= Max(leftSibling, rightSibling + 1)
      invariant pages == head + Run(leftSibling, i - 1)
      decreases rightSibling - i
    {
      if i != 1 && i != totalPages {
        pages := pages + [Page(i)];
      }
      RunSnoc(leftSibling, i);
      i := i + 1;
    }
    if rightSibling < totalPages - 1 {
      pages := pages + [Ellipsis];
    }
    if totalPages > 1 {
      pages := pages + [Page(totalPages)];
    }
    RowEnds(currentPage, totalPages, siblingCount);
  }

  /** The row starts at page 1 and, with more than one page, ends at the last. */
  lemma RowEnds(currentPage: int, totalPages: int, siblingCount: int)
    ensures var r := Row(currentPage, totalPages, siblingCount);
      r != [] && r[0] == Page(1) && (totalPages > 1 ==> r[|r| - 1] == Page(totalPages))
  {
  }

  /** A run grows at its right end one page at a time. */
  lemma {:induction false} RunSnoc(lo: int, hi: int)
    requires lo <= hi
    ensures Run(lo, hi) == Run(lo, hi - 1) + [Page(hi)]
  {
  }

  lemma {:induction false} NumbersAppend(a: seq<PageItem>, b: seq<PageItem>)
    ensures Numbers(a + b) == Numbers(a) + Numbers(b)
    decreases |a|
  {
    if a == [] {
      assert a + b == b;
    } else {
      NumbersAppend(a[1..], b);
      assert (a + b)[1..] == a[1..] + b;
    }
  }

  lemma {:induction false} NumbersOfRun(lo: int, hi: int)
    ensures Numbers(Run(lo, hi)) == seq(if lo <= hi then hi - lo + 1 else 0, k => lo + k)
    decreases hi - lo
  {
    if lo <= hi {
      NumbersOfRun(lo + 1, hi);
      assert Run(lo, hi)[1..] == Run(lo + 1, hi);
    }
  }

  /** The page buttons the row shows: 1, the window lo..hi, and the last page. */
  lemma PageNumbersNumbers(currentPage: int, totalPages: int, siblingCount: int, pages: seq<PageItem>)
    requires pages == Row(currentPage, totalPages, siblingCount)
    ensures var lo, hi := LeftSibling(currentPage, siblingCount), RightSibling(currentPage, totalPages, siblingCount);
      Numbers(pages) == [1] + seq(if lo <= hi then hi - lo + 1 else 0, k => lo + k)
                        + (if totalPages > 1 then [totalPages] else [])
  {
    var lo, hi := LeftSibling(currentPage, siblingCount), RightSibling(currentPage, totalPages, siblingCount);
    var e1: seq<PageItem> := if lo > 2 then [Ellipsis] else [];
    var e2: seq<PageItem> := if hi < totalPages - 1 then [Ellipsis] else [];
    var last: seq<PageItem> := if totalPages > 1 then [Page(totalPages)] else [];
    assert Numbers(e1) == [] && Numbers(e2) == [];
    assert Numbers([Page(1)]) == [1];
    assert Numbers(last) == if totalPages > 1 then [totalPages] else [];
    NumbersAppend([Page(1)], e1);
    NumbersAppend([Page(1)] + e1, Run(lo, hi));
    NumbersAppend([Page(1)] + e1 + Run(lo, hi), e2);
    NumbersAppend([Page(1)] + e1 + Run(lo, hi) + e2, last);
    NumbersOfRun(lo, hi);
  }

  /** The row as a reader sees it: it ends with a page button, two page
      buttons side by side are consecutive pages, and an ellipsis stands
      between two page buttons exactly where pages are skipped. */
  ghost predicate WellFormedRow(pages: seq<PageItem>) {
    && pages != [] && pages[|pages| - 1].Page?
    && (forall k :: 0 <= k < |pages| - 1 && pages[k].Page? && pages[k + 1].Page? ==>
          pages[k + 1].n == pages[k].n + 1)
    && (forall k :: 0 <= k < |pages| && pages[k] == Ellipsis ==>
          0 < k < |pages| - 1 && pages[k - 1].Page? && pages[k + 1].Page? &&
          pages[k + 1].n > pages[k - 1].n + 1)
  }


  /** Entry k of a row whose sibling window lo..hi is not empty. */
  function Slot(lo: int, hi: int, totalPages: int, k: int): PageItem {
    var a := if lo > 2 then 1 else 0;
    var b := if hi < totalPages - 1 then 1 else 0;
    var m := hi - lo + 1;
    if k == 0 then Page(1)
    else if k < 1 + a then Ellipsis
    else if k < 1 + a + m then Page(lo + k - 1 - a)
    else if k < 1 + a + m + b then Ellipsis
    else Page(totalPages)
  }

  lemma RowSlots(lo: int, hi: int, totalPages: int, pages: seq<PageItem>)
    requires 2 <= lo <= hi <= totalPages - 1
    requires pages == [Page(1)] + (if lo > 2 then [Ellipsis] else []) + Run(lo, hi)
               + (if hi < totalPages - 1 then [Ellipsis] else []) + [Page(totalPages)]
    ensures |pages| == 2 + (hi - lo + 1) + (if lo > 2 then 1 else 0) + (if hi < totalPages - 1 then 1 else 0)
    ensures forall k :: 0 <= k < |pages| ==> pages[k] == Slot(lo, hi, totalPages, k)
  {
    var e1: seq<PageItem> := if lo > 2 then [Ellipsis] else [];
    var e2: seq<PageItem> := if hi < totalPages - 1 then [Ellipsis] else [];
    var run := Run(lo, hi);
    forall k | 0 <= k < |pages| ensures pages[k] == Slot(lo, hi, totalPages, k) {
      var a, m := |e1|, |run|;
      if k == 0 {
      } else if k < 1 + a {
        assert pages[k] == e1[k - 1];
      } else if k < 1 + a + m {
        assert pages[k] == run[k - 1 - a];
      } else if k < 1 + a + m + |e2| {
        assert pages[k] == e2[k - 1 - a - m];
      }
    }
  }

  /** A row with a non-empty sibling window that starts at 2 or later and
      ends before the last page is well formed. */
  lemma {:induction false} WindowRowWellFormed(lo: int, hi: int, totalPages: int, pages: seq<PageItem>)
    requires 2 <= lo <= hi <= totalPages - 1
    requires pages == [Page(1)] + (if lo > 2 then [Ellipsis] else []) + Run(lo, hi)
               + (if hi < totalPages - 1 then [Ellipsis] else []) + [Page(totalPages)]
    ensures WellFormedRow(pages)
  {
    RowSlots(lo, hi, totalPages, pages);
    forall k | 0 <= k < |pages| - 1 && pages[k].Page? && pages[k + 1].Page?
      ensures pages[k + 1].n == pages[k].n + 1
    {
      assert pages[k] == Slot(lo, hi, totalPages, k);
      assert pages[k + 1] == Slot(lo, hi, totalPages, k + 1);
    }
    forall k | 0 <= k < |pages| && pages[k] == Ellipsis
      ensures 0 < k < |pages| - 1 && pages[k - 1].Page? && pages[k + 1].Page? &&
        pages[k + 1].n > pages[k - 1].n + 1
    {
      assert pages[k] == Slot(lo, hi, totalPages, k);
      assert pages[k - 1] == Slot(lo, hi, totalPages, k - 1);
      assert pages[k + 1] == Slot(lo, hi, totalPages, k + 1);
    }
  }

  /** For a current page in range and a sibling count that is not negative,
      the row is well formed. */
  lemma RowWellFormed(currentPage: int, totalPages: int, siblingCount: int)
    requires 1 <= currentPage <= totalPages && siblingCount >= 0
    ensures WellFormedRow(Row(currentPage, totalPages, siblingCount))
  {
    var pages := Row(currentPage, totalPages, siblingCount);
    var lo, hi := LeftSibling(currentPage, siblingCount), RightSibling(currentPage, totalPages, siblingCount);
    if lo <= hi {
      WindowRowWellFormed(lo, hi, totalPages, pages);
    } else if totalPages == 1 {
      assert pages == [Page(1)];
    } else if totalPages == 2 {
      assert pages == [Page(1), Page(2)];
    } else {
      assert pages == [Page(1), Ellipsis, Page(totalPages)];
    }
  }

  /** What the source promises of the row, for every input: it starts with
      page 1, ends with the last page when there is more than one, and its
      page numbers strictly increase; when the sibling window is not empty
      an ellipsis follows 1 exactly when the window starts beyond 2, and one
      precedes the last page exactly when the window ends before the
      second-to-last page. */
  lemma RowShape(currentPage: int, totalPages: int, siblingCount: int)
    ensures var pages := Row(currentPage, totalPages, siblingCount);
      && pages != [] && pages[0] == Page(1)
      && (totalPages > 1 ==> pages[|pages| - 1] == Page(totalPages))
      && StrictlyIncreasing(Numbers(pages))
    ensures var pages := Row(currentPage, totalPages, siblingCount);
      var lo, hi := LeftSibling(currentPage, siblingCount), RightSibling(currentPage, totalPages, siblingCount);
      && (lo <= hi ==> (pages[1] == Ellipsis <==> lo > 2))
      && (lo <= hi && totalPages > 1 ==> (pages[|pages| - 2] == Ellipsis <==> hi < totalPages - 1))
  {
    var pages := Row(currentPage, totalPages, siblingCount);
    var lo, hi := LeftSibling(currentPage, siblingCount), RightSibling(currentPage, totalPages, siblingCount);
    PageNumbersNumbers(currentPage, totalPages, siblingCount, pages);
    var run := Run(lo, hi);
    var e1: seq<PageItem> := if lo > 2 then [Ellipsis] else [];
    var e2: seq<PageItem> := if hi < totalPages - 1 then [Ellipsis] else [];
    var last: seq<PageItem> := if totalPages > 1 then [Page(totalPages)] else [];
    assert pages == [Page(1)] + e1 + run + e2 + last;
    if lo <= hi {
      if lo <= 2 {
        assert pages[1] == run[0];
      }
      if totalPages > 1 && e2 == [] {
        assert pages[|pages| - 2] == run[|run| - 1];
      }
    }
  }

  /** When there is at least one page the page numbers lie in
      [1, totalPages]; a current page in range is among them, and then, for
      a sibling count that is not negative, the row is well formed. */
  lemma RowCoversCurrentPage(currentPage: int, totalPages: int, siblingCount: int)
    ensures var pages := Row(currentPage, totalPages, siblingCount);
      totalPages >= 1 ==> forall p :: p in Numbers(pages) ==> 1 <= p <= totalPages
    ensures var pages := Row(currentPage, totalPages, siblingCount);
      1 <= currentPage <= totalPages && siblingCount >= 0 ==> currentPage in Numbers(pages) && WellFormedRow(pages)
  {
    var pages := Row(currentPage, totalPages, siblingCount);
    var lo, hi := LeftSibling(currentPage, siblingCount), RightSibling(currentPage, totalPages, siblingCount);
    PageNumbersNumbers(currentPage, totalPages, siblingCount, pages);
    var window := seq(if lo <= hi then hi - lo + 1 else 0, k => lo + k);
    var nums := Numbers(pages);
    assert nums == [1] + window + (if totalPages > 1 then [totalPages] else []);
    if 1 <= currentPage <= totalPages && siblingCount >= 0 {
      RowWellFormed(currentPage, totalPages, siblingCount);
      if currentPage == 1 {
        assert nums[0] == 1;
      } else if currentPage == totalPages {
        assert nums[|nums| - 1] == totalPages;
      } else {
        assert window[currentPage - lo] == currentPage;
        assert nums[1 + currentPage - lo] == currentPage;
      }
    }
  }

  /** `handlePageChange`: `onPageChange` is called only for another page
      that exists, and never while the control is disabled. */
  predicate ForwardsPageChange(page: int, currentPage: int, totalPages: int, disabled: bool) {
    page != currentPage && 1 <= page <= totalPages && !disabled
  }

  /** The component renders nothing for a single page (or none). */
  predicate RendersNothing(totalPages: int) { totalPages <= 1 }

  predicate PreviousDisabled(currentPage: int, disabled: bool) { currentPage == 1 || disabled }

  predicate NextDisabled(currentPage: int, totalPages: int, disabled: bool) {
    currentPage == totalPages || disabled
  }

  /** When the row is shown and the control is enabled, every page button
      other than the current page leads to that page, and an enabled
      Previous or Next button leads to the neighbouring page when the
      current page is in range. */
  lemma ButtonsForwardTheirPage(currentPage: int, totalPages: int, siblingCount: int, pages: seq<PageItem>)
    requires !RendersNothing(totalPages)
    requires pages == Row(currentPage, totalPages, siblingCount)
    ensures forall p :: p in Numbers(pages) && p != currentPage ==> ForwardsPageChange(p, currentPage, totalPages, false)
    ensures 1 <= currentPage <= totalPages && !PreviousDisabled(currentPage, false) ==>
      ForwardsPageChange(currentPage - 1, currentPage, totalPages, false)
    ensures 1 <= currentPage <= totalPages && !NextDisabled(currentPage, totalPages, false) ==>
      ForwardsPageChange(currentPage + 1, currentPage, totalPages, false)
    ensures forall p :: !ForwardsPageChange(p, currentPage, totalPages, true)
  {
    PageNumbersNumbers(currentPage, totalPages, siblingCount, pages);
  }
}
