/**
 * The data-table slice of the application store: one record of query and
 * result fields, and one reducer per action, each assigning some fields of
 * the state in place.
 */
module DataTableSlice {
  import opened Options
  import opened Api

  /** `Math.ceil(n / d)` for a positive divisor. */
  function CeilDiv(n: int, d: int): (k: int)
    requires d > 0
    ensures k * d >= n && (k - 1) * d < n
  {
    var q := -((-n) / d);
    assert (-n) / d * d <= -n < ((-n) / d + 1) * d;
    q
  }

  /** `Math.ceil(n / d)` is the least page count whose pages hold `n` items. */
  lemma CeilDivIsLeast(n: int, d: int, k: int)
    requires d > 0 && k * d >= n
    ensures CeilDiv(n, d) <= k
  {
  }

  /** A snapshot of `DataTableState`. */
  datatype TableState = TableState(
    data: seq<Post>,
    loading: bool,
    error: Option<string>,
    currentPage: int,
    pageSize: int,
    totalItems: int,
    totalPages: int,
    search: string,
    sortBy: string,
    sortOrder: SortOrder)

  const InitialState := TableState([], false, None, 1, 10, 0, 0, "", "id", Asc)

  /** The fields `resetFilters` restores, at their initial values; the rest as in `s`. */
  function WithDefaultFilters(s: TableState): (t: TableState)
    ensures t.data == s.data && t.loading == s.loading && t.error == s.error
    ensures t.totalItems == s.totalItems && t.totalPages == s.totalPages
    ensures t.currentPage == InitialState.currentPage && t.pageSize == InitialState.pageSize
    ensures t.search == InitialState.search && t.sortBy == InitialState.sortBy && t.sortOrder == InitialState.sortOrder
  {
    s.(currentPage := 1, pageSize := 10, search := "", sortBy := "id", sortOrder := Asc)
  }

  lemma ResetIsIdempotent(s: TableState)
    ensures WithDefaultFilters(WithDefaultFilters(s)) == WithDefaultFilters(s)
  {
  }

  class DataTableStore {
    var data: seq<Post>
    var loading: bool
    var error: Option<string>
    var currentPage: int
    var pageSize: int
    var totalItems: int
    var totalPages: int
    var search: string
    var sortBy: string
    var sortOrder: SortOrder

    /** The page size is positive, so that `totalPages` is a whole number. */
    ghost predicate Valid()
      reads this
    {
      pageSize >= 1
    }

    ghost function State(): TableState
      reads this
    {
      TableState(data, loading, error, currentPage, pageSize, totalItems, totalPages, search, sortBy, sortOrder)
    }

    /** The store created with `initialState`. */
    constructor ()
      ensures Valid() && State() == InitialState
      ensures currentPage == 1 && pageSize == 10 && totalItems == 0 && totalPages == 0
      ensures search == "" && sortBy == "id" && sortOrder == Asc
      ensures data == [] && !loading && error == None
    {
      data, loading, error := [], false, None;
      currentPage, pageSize, totalItems, totalPages := 1, 10, 0, 0;
      search, sortBy, sortOrder := "", "id", Asc;
    }

    /** `setLoading(b)`: only `loading` changes; an existing error stays. */
    method SetLoading(b: bool)
      requires Valid()
      modifies this
      ensures Valid() && State() == old(State()).(loading := b)
    {
      loading := b;
    }

    /** `setData(d)`: the rows are replaced, loading ends and the error is cleared. */
    method SetData(d: seq<Post>)
      requires Valid()
      modifies this
      ensures Valid() && State() == old(State()).(data := d, loading := false, error := None)
    {
      data := d;
      loading := false;
      error := None;
    }

    /** `setError(e)`: the error is set and loading ends; the stale rows stay visible. */
    method SetError(e: string)
      requires Valid()
      modifies this
      ensures Valid() && State() == old(State()).(error := Some(e), loading := false)
    {
      error := Some(e);
      loading := false;
    }

    /** `setCurrentPage(p)`: the page is stored as given, without clamping. */
    method SetCurrentPage(p: int)
      requires Valid()
      modifies this
      ensures Valid() && State() == old(State()).(currentPage := p)
    {
      currentPage := p;
    }

    /** `setPageSize(n)`: back to page 1; `totalPages` keeps its old value. */
    method SetPageSize(n: int)
      requires Valid() && n >= 1
      modifies this
      ensures Valid() && State() == old(State()).(pageSize := n, currentPage := 1)
    {
      pageSize := n;
      currentPage := 1;
    }

    /** `setTotalItems(n)`: the page count follows the item count and the current page size. */
    method SetTotalItems(n: int)
      requires Valid()
      modifies this
      ensures Valid() && State() == old(State()).(totalItems := n, totalPages := CeilDiv(n, pageSize))
      ensures totalPages * pageSize >= n && (totalPages - 1) * pageSize < n
    {
      totalItems := n;
      totalPages := CeilDiv(n, pageSize);
    }

    /** `setSearch(s)`: back to page 1. */
    method SetSearch(s: string)
      requires Valid()
      modifies this
      ensures Valid() && State() == old(State()).(search := s, currentPage := 1)
    {
      search := s;
      currentPage := 1;
    }

    /** `setSortBy(column)`. */
    method SetSortBy(column: string)
      requires Valid()
      modifies this
      ensures Valid() && State() == old(State()).(sortBy := column)
    {
      sortBy := column;
    }

    /** `setSortOrder(order)`. */
    method SetSortOrder(order: SortOrder)
      requires Valid()
      modifies this
      ensures Valid() && State() == old(State()).(sortOrder := order)
    {
      sortOrder := order;
    }

    /** `resetFilters()`: the query fields return to their initial values, the results stay. */
    method ResetFilters()
      requires Valid()
      modifies this
      ensures Valid() && State() == WithDefaultFilters(old(State()))
    {
      currentPage := 1;
      pageSize := 10;
      search := "";
      sortBy := "id";
      sortOrder := Asc;
    }
  }
}
