/** The `Pagination` component: which page buttons it shows around the
    current page (at most five consecutive pages), and when it adds
    shortcuts to the first and last pages with an ellipsis between. */
module Pagination {

  import opened Text

  const MAX_VISIBLE := 5

  /** The consecutive pages from `lo` to `hi`. */
  function Range(lo: int, hi: int): (r: seq<int>)
    ensures |r| == Max(0, hi - lo + 1)
    ensures forall k :: 0 <= k < |r| ==> r[k] == lo + k
    decreases hi - lo
  {
    if lo > hi then [] else [lo] + Range(lo + 1, hi)
  }

  /** What is rendered when there is more than one page. */
  datatype Window = Window(
    startPage: int,
    endPage: int,
    pageNumbers: seq<int>,
    showFirst: bool,
    firstEllipsis: bool,
    showLast: bool,
    lastEllipsis: bool)

  /** The render of `Pagination`: nothing for one page or none; otherwise
      the window of page numbers, built by reassigning `startPage` and
      `endPage` and pushing the pages one by one, and the shortcut
      conditions. */
  method Render(currentPage: int, totalPages: int) returns (w: Option<Window>)
    ensures w.None? <==> totalPages <= 1
    ensures w.Some? ==>
      && 1 <= w.value.startPage <= w.value.endPage <= totalPages
      && w.value.pageNumbers == Range(w.value.startPage, w.value.endPage)
      && |w.value.pageNumbers| == Min(MAX_VISIBLE, totalPages)
      && (1 <= currentPage <= totalPages ==> currentPage in w.value.pageNumbers)
      && (w.value.showFirst <==> w.value.startPage > 1)
      && (w.value.firstEllipsis <==> w.value.startPage > 2)
      && (w.value.showLast <==> w.value.endPage < totalPages)
      && (w.value.lastEllipsis <==> w.value.endPage < totalPages - 1)
  {
    if totalPages <= 1 {
      return None;
    }
    var pageNumbers: seq<int> := [];
    var startPage := Max(1, currentPage - MAX_VISIBLE / 2);
    var endPage := Min(totalPages, startPage + MAX_VISIBLE - 1);
    if endPage - startPage + 1 < MAX_VISIBLE {
      startPage := Max(1, endPage - MAX_VISIBLE + 1);
    }
    var i := startPage;
    while i <= endPage
      invariant startPage <= i <= endPage + 1
      invariant pageNumbers == Range(startPage, i - 1)
      decreases endPage - i
    {
      RangeSnoc(startPage, i);
      pageNumbers := pageNumbers + [i];
      i := i + 1;
    }
    if 1 <= currentPage <= totalPages {
      assert pageNumbers[currentPage - startPage] == currentPage;
    }
    var showFirst := startPage > 1;
    var firstEllipsis := showFirst && startPage > 2;
    var showLast := endPage < totalPages;
    var lastEllipsis := showLast && endPage < totalPages - 1;
    return Some(Window(startPage, endPage, pageNumbers, showFirst, firstEllipsis, showLast, lastEllipsis));
  }

  lemma RangeSnoc(lo: int, hi: int)
    requires lo <= hi
    ensures Range(lo, hi) == Range(lo, hi - 1) + [hi]
  {
  }
}
