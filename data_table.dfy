/**
 * The table component's own logic: the sort toggle on a header click, the
 * 1-based range of rows shown, the window of page-number buttons, the
 * reset button, the hand-over of the debounced search to the store, and
 * one fetch cycle written back into the store.
 */
module DataTable {
  import opened Options
  import opened Api
  import opened DataTableSlice

  // ------------------------------------------------------ pagination math

  /** 1-based number of the first row of the current page. */
  function StartIndex(currentPage: int, pageSize: int): int {
    (currentPage - 1) * pageSize + 1
  }

  /** 1-based number of the last row of the current page. */
  function EndIndex(currentPage: int, pageSize: int, totalItems: int): (n: int)
    ensures n <= totalItems && n <= currentPage * pageSize
    ensures n == totalItems || n == currentPage * pageSize
  {
    Min(currentPage * pageSize, totalItems)
  }

  /** The "Showing … to" figure: 0 when there is nothing to show. */
  function DisplayedStart(currentPage: int, pageSize: int, totalItems: int): (n: int)
    ensures totalItems <= 0 ==> n == 0
    ensures totalItems > 0 ==> n == StartIndex(currentPage, pageSize)
  {
    if totalItems > 0 then StartIndex(currentPage, pageSize) else 0
  }

  /**
   * On a page that holds rows, the rows numbered `StartIndex` through
   * `EndIndex` are exactly the rows `getPosts` returns for that page.
   */
  lemma DisplayRangeIsPage(rows: seq<Post>, currentPage: int, pageSize: int)
    requires currentPage >= 1 && pageSize >= 1
    requires PageStart(currentPage, pageSize) < |rows|
    ensures var page := JsSlice(rows, PageStart(currentPage, pageSize), PageStart(currentPage, pageSize) + pageSize);
      && 1 <= StartIndex(currentPage, pageSize) <= EndIndex(currentPage, pageSize, |rows|) <= |rows|
      && |page| == EndIndex(currentPage, pageSize, |rows|) - StartIndex(currentPage, pageSize) + 1
      && forall k :: 0 <= k < |page| ==> page[k] == rows[StartIndex(currentPage, pageSize) - 1 + k]
    ensures DisplayedStart(currentPage, pageSize, |rows|) - 1 == PageStart(currentPage, pageSize)
  {
    PageWindow(rows, currentPage, pageSize);
  }

  /**
   * The "Showing X to Y of Z" line: with no rows it reads 0 to 0, and
   * otherwise X is the 1-based number of the first row of the page and
   * Y the number of its last row, never beyond the total.
   */
  lemma ShownRangeMeaning(currentPage: int, pageSize: int, totalItems: int)
    requires currentPage >= 1 && pageSize >= 1 && totalItems >= 0
    ensures totalItems == 0 ==> DisplayedStart(currentPage, pageSize, 0) == 0 == EndIndex(currentPage, pageSize, 0)
    ensures totalItems > 0 ==> DisplayedStart(currentPage, pageSize, totalItems) - 1 == PageStart(currentPage, pageSize)
    ensures EndIndex(currentPage, pageSize, totalItems) <= totalItems
    ensures PageStart(currentPage, pageSize) < totalItems
      ==> DisplayedStart(currentPage, pageSize, totalItems) <= EndIndex(currentPage, pageSize, totalItems)
  {
  }

  /** 53 matching posts, 20 per page, page 3: rows 41 to 53, 13 of them, 3 pages. */
  lemma ThirdOfThreePages(rows: seq<Post>)
    requires |rows| == 53
    ensures StartIndex(3, 20) == 41 && EndIndex(3, 20, 53) == 53 && CeilDiv(53, 20) == 3
    ensures |JsSlice(rows, PageStart(3, 20), PageStart(3, 20) + 20)| == 13
  {
    PageWindow(rows, 3, 20);
  }

  const MaxVisiblePages := 5

  /**
   * `getPageNumbers()`: all pages when there are at most five; otherwise
   * the run starting two before the current page (but not before 1), of
   * at most five numbers and not past the last page.
   */
  method GetPageNumbers(totalPages: int, currentPage: int) returns (pages: seq<int>)
    ensures totalPages <= MaxVisiblePages ==>
      |pages| == Max(0, totalPages) && forall k :: 0 <= k < |pages| ==> pages[k] == k + 1
    ensures totalPages > MaxVisiblePages ==>
      var start := Max(1, currentPage - 2);
      var end := Min(totalPages, start + MaxVisiblePages - 1);
      |pages| == Max(0, end - start + 1) && forall k :: 0 <= k < |pages| ==> pages[k] == start + k
    ensures |pages| <= MaxVisiblePages
    ensures forall k :: 0 <= k < |pages| ==> 1 <= pages[k] <= totalPages
    ensures forall k :: 0 < k < |pages| ==> pages[k] == pages[k - 1] + 1
    ensures 1 <= currentPage <= totalPages ==> currentPage in pages
  {
    pages := [];
    if totalPages <= MaxVisiblePages {
      var i := 1;
      while i <= totalPages
        invariant 1 <= i <= Max(1, totalPages + 1)
        invariant |pages| == i - 1
        invariant forall k :: 0 <= k < |pages| ==> pages[k] == k + 1
      {
        pages := pages + [i];
        i := i + 1;
      }
      if 1 <= currentPage <= totalPages {
        assert pages[currentPage - 1] == currentPage;
      }
    } else {
      var start := Max(1, currentPage - 2);
      var end := Min(totalPages, start + MaxVisiblePages - 1);
      var i := start;
      while i <= end
        invariant start <= i <= Max(start, end + 1)
        invariant |pages| == i - start
        invariant forall k :: 0 <= k < |pages| ==> pages[k] == start + k
      {
        pages := pages + [i];
        i := i + 1;
      }
      if 1 <= currentPage <= totalPages {
        assert pages[currentPage - start] == currentPage;
      }
    }
  }

  // ---------------------------------------------------- the arrow buttons

  /** The four arrow buttons beside the page numbers. */
  datatype Arrow = First | Previous | Next | Last

  /** The page an arrow asks `handlePageChange` for. */
  function ArrowTarget(b: Arrow, currentPage: int, totalPages: int): int {
    match b
    case First => 1
    case Previous => currentPage - 1
    case Next => currentPage + 1
    case Last => totalPages
  }

  /**
   * The `disabled` attribute as written: the backward arrows only at page
   * exactly 1, the forward ones only at page exactly `totalPages`. With
   * `totalPages` 0 (no rows yet, or an empty search) the forward arrows
   * stay enabled.
   */
  predicate ArrowDisabled(b: Arrow, currentPage: int, totalPages: int) {
    if b == First || b == Previous then currentPage == 1 else currentPage == totalPages
  }

  /**
   * The guard evidently intended: the backward arrows at or below page 1,
   * the forward ones at or beyond the last page.
   */
  predicate ArrowDisabledIntended(b: Arrow, currentPage: int, totalPages: int) {
    if b == First || b == Previous then currentPage <= 1 else currentPage >= totalPages
  }

  /** Under the intended guard an enabled arrow never leads below page 1. */
  lemma IntendedArrowKeepsPagePositive(b: Arrow, currentPage: int, totalPages: int)
    requires currentPage >= 1
    ensures !ArrowDisabledIntended(b, currentPage, totalPages) ==> ArrowTarget(b, currentPage, totalPages) >= 1
  {
  }

  /** As written, "last" then "previous" on a table without pages leads to page -1. */
  lemma WrittenArrowsReachPageMinusOne()
    ensures !ArrowDisabled(Last, 1, 0) && ArrowTarget(Last, 1, 0) == 0
    ensures !ArrowDisabled(Previous, 0, 0) && ArrowTarget(Previous, 0, 0) == -1
  {
  }

  /**
   * At page -1 of 100 posts, ten per page, the request slices from -20 to
   * -10, which `slice` counts from the end: posts 81 to 90 are shown,
   * numbered -19 to -10.
   */
  lemma PageMinusOneShowsTailRows(rows: seq<Post>)
    requires |rows| == 100
    ensures JsSlice(rows, PageStart(-1, 10), PageStart(-1, 10) + 10) == rows[80..90]
    ensures DisplayedStart(-1, 10, 100) == -19 && EndIndex(-1, 10, 100) == -10
  {
  }

  // -------------------------------------------------------- the component

  function Flipped(order: SortOrder): SortOrder {
    if order == Asc then Desc else Asc
  }

  /** The message `fetchData` reports for an unsuccessful response. */
  function FetchDataError(e: Option<string>): (m: string)
    ensures m != ""
    ensures e.Some? && e.value != "" ==> m == e.value
  {
    if e.Some? && e.value != "" then e.value else "Failed to fetch data"
  }

  /** The local state of the `DataTable` component, over the store it dispatches to. */
  class DataTableComponent {
    var searchInput: string
    const store: DataTableStore

    constructor (store: DataTableStore)
      ensures this.store == store && searchInput == store.search
    {
      this.store := store;
      searchInput := store.search;
    }

    /** The request `fetchData` sends for the current query and the debounced search. */
    function Request(debouncedSearch: string): QueryParams
      reads store
    {
      QueryParams(Some(store.currentPage), Some(store.pageSize), Some(debouncedSearch), Some(store.sortBy), Some(store.sortOrder))
    }

    /**
     * `handleSort(column)`: the active column flips its direction; any
     * other column becomes the sort column, ascending.
     */
    method HandleSort(column: string)
      requires store.Valid()
      modifies store
      ensures store.Valid()
      ensures old(store.sortBy) == column ==> store.State() == old(store.State()).(sortOrder := Flipped(old(store.sortOrder)))
      ensures old(store.sortBy) != column ==> store.State() == old(store.State()).(sortBy := column, sortOrder := Asc)
    {
      if store.sortBy == column {
        store.SetSortOrder(if store.sortOrder == Asc then Desc else Asc);
      } else {
        store.SetSortBy(column);
        store.SetSortOrder(Asc);
      }
    }

    /** `handlePageChange(page)`. */
    method HandlePageChange(page: int)
      requires store.Valid()
      modifies store
      ensures store.Valid() && store.State() == old(store.State()).(currentPage := page)
    {
      store.SetCurrentPage(page);
    }

    /** A click on an arrow: nothing while it is disabled, otherwise `handlePageChange` of its target. */
    method ClickArrow(b: Arrow)
      requires store.Valid()
      modifies store
      ensures store.Valid()
      ensures ArrowDisabled(b, old(store.currentPage), old(store.totalPages)) ==> store.State() == old(store.State())
      ensures !ArrowDisabled(b, old(store.currentPage), old(store.totalPages)) ==>
        store.State() == old(store.State()).(currentPage := ArrowTarget(b, old(store.currentPage), old(store.totalPages)))
    {
      if !ArrowDisabled(b, store.currentPage, store.totalPages) {
        HandlePageChange(ArrowTarget(b, store.currentPage, store.totalPages));
      }
    }

    /** `ClickArrow` under the intended guard; it keeps the page at 1 or above. */
    method ClickArrowIntended(b: Arrow)
      requires store.Valid()
      modifies store
      ensures store.Valid()
      ensures ArrowDisabledIntended(b, old(store.currentPage), old(store.totalPages)) ==> store.State() == old(store.State())
      ensures !ArrowDisabledIntended(b, old(store.currentPage), old(store.totalPages)) ==>
        store.State() == old(store.State()).(currentPage := ArrowTarget(b, old(store.currentPage), old(store.totalPages)))
      ensures old(store.currentPage) >= 1 ==> store.currentPage >= 1
    {
      if !ArrowDisabledIntended(b, store.currentPage, store.totalPages) {
        if store.currentPage >= 1 {
          IntendedArrowKeepsPagePositive(b, store.currentPage, store.totalPages);
        }
        HandlePageChange(ArrowTarget(b, store.currentPage, store.totalPages));
      }
    }

    /** `handlePageSizeChange(size)`; the selector offers 10, 20 and 50. */
    method HandlePageSizeChange(size: int)
      requires store.Valid() && size >= 1
      modifies store
      ensures store.Valid() && store.State() == old(store.State()).(pageSize := size, currentPage := 1)
    {
      store.SetPageSize(size);
    }

    /** `handleResetFilters()`: the search box is emptied and the store's filters reset. */
    method HandleResetFilters()
      requires store.Valid()
      modifies this, store
      ensures store.Valid() && searchInput == ""
      ensures store.State() == WithDefaultFilters(old(store.State()))
    {
      searchInput := "";
      store.ResetFilters();
    }

    /** The effect that hands a settled search to the store, only when it differs. */
    method SyncSearch(debouncedSearch: string)
      requires store.Valid()
      modifies store
      ensures store.Valid() && searchInput == old(searchInput)
      ensures debouncedSearch != old(store.search) ==>
        store.State() == old(store.State()).(search := debouncedSearch, currentPage := 1)
      ensures debouncedSearch == old(store.search) ==> store.State() == old(store.State())
    {
      if debouncedSearch != store.search {
        store.SetSearch(debouncedSearch);
      }
    }

    /**
     * One `fetchData()` cycle whose request completed with `fetch`:
     * loading is raised, then either the page and its total are written
     * back (with the page count taken from the page size) or the error is.
     */
    method FetchData(debouncedSearch: string, fetch: FetchResult)
      requires store.Valid()
      modifies store
      ensures store.Valid()
      ensures fetch.Received? ==>
        var total := |Filtered(fetch.posts, old(Request(debouncedSearch)))|;
        && IsResultPage(old(Request(debouncedSearch)), fetch.posts, store.data)
        && store.State() == old(store.State()).(data := store.data, loading := false, error := None,
                                                totalItems := total, totalPages := CeilDiv(total, old(store.pageSize)))
      ensures fetch.Received? && old(store.currentPage) >= 1 ==> |store.data| <= store.pageSize
      ensures fetch.Failed? ==>
        store.State() == old(store.State()).(loading := false, error := Some(FetchDataError(Some(ErrorText(fetch.cause)))))
    {
      store.SetLoading(true);
      var result := GetPosts(Request(debouncedSearch), fetch);
      if result.success && result.data.Some? {
        if store.currentPage >= 1 {
          ResultPageSize(Request(debouncedSearch), fetch.posts, result.data.value);
        }
        store.SetData(result.data.value);
        store.SetTotalItems(if result.total.Some? then result.total.value else 0);
      } else {
        store.SetError(FetchDataError(result.error));
      }
    }
  }

  /** Clicking the active column twice gives back the original sort. */
  method ClickActiveColumnTwice(c: DataTableComponent)
    requires c.store.Valid()
    modifies c.store
    ensures c.store.Valid() && c.store.State() == old(c.store.State())
  {
    c.HandleSort(c.store.sortBy);
    c.HandleSort(c.store.sortBy);
  }

  /**
   * A fresh table whose first answer has not arrived: "last", then
   * "previous". The line then reads "Showing 0 to -10".
   */
  method LastThenPreviousBeforeFirstAnswer() returns (shownStart: int, shownEnd: int)
    ensures shownStart == 0 && shownEnd == -10
  {
    var store := new DataTableStore();
    var c := new DataTableComponent(store);
    c.ClickArrow(Last);
    c.ClickArrow(Previous);
    shownStart, shownEnd := DisplayedStart(store.currentPage, store.pageSize, store.totalItems),
                            EndIndex(store.currentPage, store.pageSize, store.totalItems);
  }

  /** The same clicks under the intended guard: the line reads "Showing 0 to 0". */
  method LastThenPreviousBeforeFirstAnswerIntended() returns (shownStart: int, shownEnd: int)
    ensures shownStart == 0 && shownEnd == 0
  {
    var store := new DataTableStore();
    var c := new DataTableComponent(store);
    c.ClickArrowIntended(Last);
    c.ClickArrowIntended(Previous);
    shownStart, shownEnd := DisplayedStart(store.currentPage, store.pageSize, store.totalItems),
                            EndIndex(store.currentPage, store.pageSize, store.totalItems);
  }

  /**
   * Any run of arrow clicks under the intended guard keeps the page at 1
   * or above, so `ShownRangeMeaning` and `DisplayRangeIsPage` apply to
   * every state it reaches.
   */
  method ClickArrowsIntended(c: DataTableComponent, clicks: seq<Arrow>)
    requires c.store.Valid() && c.store.currentPage >= 1
    modifies c.store
    ensures c.store.Valid() && c.store.currentPage >= 1
    ensures c.store.totalItems == 0 ==>
      DisplayedStart(c.store.currentPage, c.store.pageSize, 0) == 0 == EndIndex(c.store.currentPage, c.store.pageSize, 0)
  {
    var i := 0;
    while i < |clicks|
      invariant 0 <= i <= |clicks|
      invariant c.store.Valid() && c.store.currentPage >= 1
    {
      c.ClickArrowIntended(clicks[i]);
      i := i + 1;
    }
    if c.store.totalItems == 0 {
      ShownRangeMeaning(c.store.currentPage, c.store.pageSize, 0);
    }
  }
}
