/** The `usePagination` hook: a current page kept as state over a list of
    items, the number of pages, the slice of items on the current page and
    the page moves, each clamped to the existing pages. */
module UsePagination {

  import opened Text

  const DEFAULT_ITEMS_PER_PAGE := 24

  /** `Math.ceil(n / perPage)`. */
  function TotalPages(n: nat, perPage: nat): (total: nat)
    requires perPage > 0
    ensures (total - 1) * perPage < n <= total * perPage
  {
    (n + perPage - 1) / perPage
  }

  /** `Math.max(1, Math.min(page, totalPages))`. */
  function ValidPage(page: int, totalPages: nat): (p: int)
    ensures p >= 1
    ensures totalPages >= 1 ==> p <= totalPages
    ensures 1 <= page <= totalPages ==> p == page
  {
    Max(1, Min(page, totalPages))
  }

  /** `items.slice((page - 1) * perPage, (page - 1) * perPage + perPage)`
      for a page from 1 on; `slice` clamps both ends to the list. */
  function PageSlice<T>(items: seq<T>, page: int, perPage: nat): seq<T>
    requires page >= 1
  {
    var start := Min((page - 1) * perPage, |items|);
    var end := Min((page - 1) * perPage + perPage, |items|);
    items[start..end]
  }

  /** The state of the hook for one list of items. */
  class Pager<T> {
    var items: seq<T>
    const itemsPerPage: nat
    var currentPage: int

    predicate Valid()
      reads this
    {
      itemsPerPage > 0 && currentPage >= 1
    }

    /** `usePagination(items, itemsPerPage)` on first render: page 1. */
    constructor(items: seq<T>, itemsPerPage: nat)
      requires itemsPerPage > 0
      ensures Valid()
      ensures this.items == items && this.itemsPerPage == itemsPerPage && currentPage == 1
    {
      this.items := items;
      this.itemsPerPage := itemsPerPage;
      currentPage := 1;
    }

    function Total(): nat
      requires Valid()
      reads this
    {
      TotalPages(|items|, itemsPerPage)
    }

    /** `paginatedItems`. */
    function PaginatedItems(): seq<T>
      requires Valid()
      reads this
    {
      PageSlice(items, currentPage, itemsPerPage)
    }

    /** `hasNext` and `hasPrev`. */
    function HasNext(): bool
      requires Valid()
      reads this
    {
      currentPage < Total()
    }

    function HasPrev(): bool
      requires Valid()
      reads this
    {
      currentPage > 1
    }

    /** A later render with another list keeps the current page. */
    method SetItems(newItems: seq<T>)
      requires Valid()
      modifies this
      ensures Valid() && items == newItems && currentPage == old(currentPage)
    {
      items := newItems;
    }

    /** `goToPage(page)`. */
    method GoToPage(page: int)
      requires Valid()
      modifies this
      ensures Valid() && items == old(items)
      ensures currentPage == ValidPage(page, TotalPages(|items|, itemsPerPage))
    {
      currentPage := ValidPage(page, Total());
    }

    /** `nextPage()`. */
    method NextPage()
      requires Valid()
      modifies this
      ensures Valid() && items == old(items)
      ensures currentPage == ValidPage(old(currentPage) + 1, TotalPages(|items|, itemsPerPage))
    {
      GoToPage(currentPage + 1);
    }

    /** `prevPage()`. */
    method PrevPage()
      requires Valid()
      modifies this
      ensures Valid() && items == old(items)
      ensures currentPage == ValidPage(old(currentPage) - 1, TotalPages(|items|, itemsPerPage))
    {
      GoToPage(currentPage - 1);
    }
  }

  // ------------------------------------------------------------ properties

  /** With no pages at all, every move lands on page 1. */
  lemma NoPagesMeansPageOne(page: int)
    ensures ValidPage(page, 0) == 1
  {
  }

  /** A move to the next page advances exactly when there is a next page,
      and one to the previous page goes back exactly when there is one;
      otherwise the page stays. */
  lemma MovesFollowHasNextAndHasPrev(current: int, total: nat)
    requires 1 <= current <= total
    ensures ValidPage(current + 1, total) == (if current < total then current + 1 else current)
    ensures ValidPage(current - 1, total) == (if current > 1 then current - 1 else current)
  {
  }

  /** Every page holds at most `perPage` items, and every page before the
      last holds exactly `perPage`. */
  lemma PageSizes<T>(items: seq<T>, page: int, perPage: nat)
    requires page >= 1 && perPage > 0
    ensures |PageSlice(items, page, perPage)| <= perPage
    ensures page < TotalPages(|items|, perPage) ==> |PageSlice(items, page, perPage)| == perPage
    ensures page > TotalPages(|items|, perPage) ==> PageSlice(items, page, perPage) == []
  {
    var total := TotalPages(|items|, perPage);
    var start := (page - 1) * perPage;
    assert start >= 0;
    assert start + perPage == page * perPage;
    if page < total {
      MulMonotone(page, total - 1, perPage);
    }
    if page > total {
      MulMonotone(total, page - 1, perPage);
    }
  }

  lemma MulMonotone(a: int, b: int, c: nat)
    requires a <= b
    ensures a * c <= b * c
  {
    assert b * c - a * c == (b - a) * c;
  }

  /** The first `k` pages, one after the other. */
  function FirstPages<T>(items: seq<T>, k: nat, perPage: nat): seq<T> {
    if k == 0 then [] else FirstPages(items, k - 1, perPage) + PageSlice(items, k, perPage)
  }

  /** The first `k` pages are the first `k * perPage` items (or all of
      them). */
  lemma {:induction false} FirstPagesArePrefix<T>(items: seq<T>, k: nat, perPage: nat)
    requires perPage > 0
    ensures FirstPages(items, k, perPage) == items[..Min(k * perPage, |items|)]
  {
    if k > 0 {
      FirstPagesArePrefix(items, k - 1, perPage);
      var a := Min((k - 1) * perPage, |items|);
      var b := Min(k * perPage, |items|);
      assert (k - 1) * perPage + perPage == k * perPage;
      assert PageSlice(items, k, perPage) == items[a..b];
      assert items[..a] + items[a..b] == items[..b];
    }
  }

  /** All the pages together give the list back. */
  lemma PagesCoverItems<T>(items: seq<T>, perPage: nat)
    requires perPage > 0
    ensures FirstPages(items, TotalPages(|items|, perPage), perPage) == items
  {
    var total := TotalPages(|items|, perPage);
    FirstPagesArePrefix(items, total, perPage);
    assert items[..|items|] == items;
  }
}
