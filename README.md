# Query state, client-side query and "load more" of a Next.js starter kit

This project models the sequential logic under the starter kit's user
interface and proves properties of it in Dafny:

- **The data-table slice** of the store (`DataTableSlice`). It is a record of ten
  fields: page, page size, item and page totals, search, sort column and
  direction, rows, loading and error. It has one reducer per action. The class
  `DataTableStore` keeps these fields, and each reducer is a method. Its
  postcondition gives the whole new state as the old state with the assigned
  fields replaced (`State() == old(State()).(…)`), so everything that does not
  change is stated too.
- **The query transform of `apiHelpers.getPosts`** (`Api`). The fetched post
  collection is an input, `FetchResult`: either the posts received or the value
  the request threw. The transform runs three steps and returns an
  `ApiResponse`:
  - a case-insensitive substring search on title or body;
  - an optional in-place sort by one field;
  - a page slice.
- **The table component** (`DataTable`):
  - the header-click sort toggle;
  - the 1-based "showing … to …" range;
  - the window of page-number buttons;
  - the reset button;
  - the hand-over of the debounced search to the store;
  - one `fetchData` cycle written back into the store.
- **The posts feed** (`PostsPage`). It holds a page counter and the posts
  loaded so far. The first page replaces the list and later pages are appended.
  "Load more" is offered while the last page came back full, and it is ignored
  while a fetch is in progress.

`Text` holds the JavaScript string operations the transform relies on:

- `toLowerCase` on ASCII;
- `includes`;
- the relational `>` on strings, with its proof that it is a strict weak order.

`Options` holds the optional-value type.

The sort comparator of `getPosts` returns -1 for equal keys. It is therefore not
a consistent comparator, and ECMAScript (section 23.1.3.30 of ECMA-262, 2023
edition) leaves the resulting order implementation-defined. `Api.SortInPlace`
stands for `Array.prototype.sort`. The model assumes that the engine returns a
permutation in which no pair is out of comparator order; the standard does not
guarantee this for an inconsistent comparator. The contract of `SortInPlace`
states only that, and everything else in the model relies on that contract
alone. The body is one sort that meets the assumption. No
stability is claimed, and `getPosts`'s result is specified through "some ordered
permutation" (`Api.IsResultPage`).

The model follows the code where it does less than its comments and the table's behaviour suggest:

- the sort is not stable;
- `setCurrentPage` stores any page without clamping it into `[1, totalPages]`;
- `setPageSize` leaves `totalPages` at its old value until the next `setTotalItems`;
- `setLoading(true)` does not clear an existing error.

## Model

| member | source | states |
|---|---|---|
| `Text.ToLower` | src/services/api.ts:104-105 | lower-casing keeps the length, maps every character on its own, and leaves no ASCII upper-case letter |
| `Text.Includes` | src/services/api.ts:104-105 | `includes` answers true only when the searched text is no longer than the field; its exact meaning is stated by `Text.IncludesIsOccurrence` |
| `Text.IncludesIsOccurrence` | src/services/api.ts:104-105 | `includes(s, t)` holds exactly when `t` occurs as a contiguous run of `s` at some index |
| `Text.IncludesEmpty` | src/services/api.ts:104-105 | every string includes the empty string |
| `Text.LexGreater` | src/services/api.ts:116-118 | string `>` is strict: it never holds between equal strings; its exact meaning is stated by `Text.LexGreaterMeaning` and the order lemmas below |
| `Text.LexGreaterMeaning` | src/services/api.ts:116-118 | string `>` holds exactly when `b` is a proper prefix of `a` or `a` has the larger code unit at the first difference |
| `Text.LexIrreflexive` | src/services/api.ts:116-118 | no string is greater than itself |
| `Text.LexAsymmetric` | src/services/api.ts:116-118 | `a > b` excludes `b > a` |
| `Text.LexConnected` | src/services/api.ts:116-118 | of two different strings one is greater |
| `Text.LexTransitive` | src/services/api.ts:116-118 | string `>` is transitive |
| `Text.LexNotGreaterTransitive` | src/services/api.ts:116-118 | "not greater" is transitive, so string `>` is a strict weak order |
| `Api.Matches` | src/services/api.ts:103-105 | a post matches when its lower-cased title or body includes the lower-cased search; what the filter does with it is stated by `Api.FilterPostsKeepsMatches` |
| `Api.FilterPosts` | src/services/api.ts:101-106 | the filtered collection holds only matching posts and is never longer than the input |
| `Api.FilterPostsKeepsMatches` | src/services/api.ts:102-106 | the filter keeps each matching post as often as it occurs, drops every other, and keeps the source's relative order (a subsequence) |
| `Api.SearchStep` | src/services/api.ts:100-107 | an absent or empty search leaves the collection unchanged; a non-empty one keeps exactly the matches in order |
| `Api.Filtered` | src/services/api.ts:99-107 | the collection after the search step; which posts it keeps is stated by `Api.SearchStep` |
| `Api.TotalIgnoresPaging` | src/services/api.ts:130 | the filtered count, which is the reported total, does not depend on page or limit |
| `Api.KeyOf` | src/services/api.ts:112-113 | the value of `id`, `userId`, `title` or `body`, and `undefined` for any other field; how these compare is stated by `Api.KeyOrder` |
| `Api.Compare` | src/services/api.ts:111-119 | the comparator answers only 1 or -1, never 0, and answers -1 for two posts with equal keys in either direction |
| `Api.KeyOrder` | src/services/api.ts:112-118 | `>` on the keys of one field is asymmetric and its negation is transitive, including `undefined` keys of an unknown field |
| `Api.PrecedesTotal` | src/services/api.ts:111-119 | for any two posts the comparator lets one of them stand first |
| `Api.PrecedesTransitive` | src/services/api.ts:111-119 | "may stand first" is transitive, in both directions of sorting |
| `Api.SortInPlace` | src/services/api.ts:110-120 | the sorted array is a permutation of the old one with every pair in comparator order: keys non-decreasing, non-increasing for `desc`, ties unspecified |
| `Api.SliceIndex` | src/services/api.ts:125 | a `slice` bound, negative ones counted from the end, is normalised into `[0, len]` |
| `Api.JsSlice` | src/services/api.ts:125 | `slice` returns the contiguous run of the array from the normalised start bound to the normalised end bound, empty when the end does not lie beyond the start |
| `Api.ErrorText` | src/services/api.ts:137 | the thrown error's message, or "Failed to fetch posts" for a non-error value; how it reaches the response is stated by `Api.GetPosts` |
| `Api.PageWindow` | src/services/api.ts:123-125 | for page at least 1, the slice is the run of `s` from `(page-1)*limit` to `min(page*limit, len(s))` (empty past the end), of length `max(0, min(limit, len(s)-(page-1)*limit))`, at most `limit` |
| `Api.UnsortedPageIsRun` | src/services/api.ts:110-125 | without `sortBy` a page is a contiguous run of the filtered posts in source order, and of the fetched collection itself when there is no search either |
| `Api.ResultPageSize` | src/services/api.ts:123-130 | for page at least 1 and limit at least 0, every result page, sorted or not, has `max(0, min(limit, total-(page-1)*limit))` posts, at most `limit` |
| `Api.SortedPageIsOrdered` | src/services/api.ts:111-125 | with `sortBy` a page is in comparator order and holds only matching posts |
| `Api.GetPosts` | src/services/api.ts:86-140 | a failed request yields `success=false` with the thrown message (or "Failed to fetch posts") and no data; otherwise `success`, a valid result page, the filtered total, and `page`/`limit` echoed with defaults 1 and 10 |
| `Api.NoParamsIsFirstPage` | src/services/api.ts:93-125 | `getPosts()` without parameters answers the first ten fetched posts, or all of them when there are fewer, in source order |
| `DataTableSlice.CeilDiv` | src/store/slices/dataTableSlice.ts:61 | `Math.ceil(n/d)` for `d > 0`: `k*d >= n` and `(k-1)*d < n` |
| `DataTableSlice.CeilDivIsLeast` | src/store/slices/dataTableSlice.ts:61 | no smaller page count holds `n` items |
| `DataTableSlice.WithDefaultFilters` | src/store/slices/dataTableSlice.ts:73-79 | page 1, size 10, empty search, `id`, ascending; rows, loading, error and totals as before |
| `DataTableSlice.ResetIsIdempotent` | src/store/slices/dataTableSlice.ts:73-79 | resetting the filters twice is resetting them once |
| `DataTableSlice.DataTableStore.constructor` | src/store/slices/dataTableSlice.ts:23-34 | the initial state: page 1, size 10, totals 0, empty search, `id`, ascending, no rows, not loading, no error |
| `DataTableSlice.DataTableStore.SetLoading` | src/store/slices/dataTableSlice.ts:40-42 | only `loading` changes; an existing error stays |
| `DataTableSlice.DataTableStore.SetData` | src/store/slices/dataTableSlice.ts:43-47 | rows replaced, loading false, error cleared, every other field unchanged |
| `DataTableSlice.DataTableStore.SetError` | src/store/slices/dataTableSlice.ts:48-51 | error set and loading false; the stale rows and all query fields unchanged |
| `DataTableSlice.DataTableStore.SetCurrentPage` | src/store/slices/dataTableSlice.ts:52-54 | only the page changes, to the given value without clamping |
| `DataTableSlice.DataTableStore.SetPageSize` | src/store/slices/dataTableSlice.ts:55-58 | size set and page back to 1; `totalPages` keeps its old value |
| `DataTableSlice.DataTableStore.SetTotalItems` | src/store/slices/dataTableSlice.ts:59-62 | item count set and page count the least `k` with `k*pageSize >= n`; nothing else changes |
| `DataTableSlice.DataTableStore.SetSearch` | src/store/slices/dataTableSlice.ts:63-66 | search set and page back to 1; nothing else changes |
| `DataTableSlice.DataTableStore.SetSortBy` | src/store/slices/dataTableSlice.ts:67-69 | only the sort column changes |
| `DataTableSlice.DataTableStore.SetSortOrder` | src/store/slices/dataTableSlice.ts:70-72 | only the sort direction changes |
| `DataTableSlice.DataTableStore.ResetFilters` | src/store/slices/dataTableSlice.ts:73-79 | the five query fields return to their defaults; rows, loading, error and totals untouched |
| `DataTable.StartIndex` | src/components/DataTable.tsx:128 | the 1-based number of the page's first row; that it numbers the first row `getPosts` returns is stated by `DataTable.DisplayRangeIsPage` |
| `DataTable.EndIndex` | src/components/DataTable.tsx:129 | the number of the page's last row is at most the total and at most `currentPage*pageSize`, and equals one of them |
| `DataTable.DisplayedStart` | src/components/DataTable.tsx:296 | the figure after "Showing"; its meaning is stated by `DataTable.ShownRangeMeaning` |
| `DataTable.DisplayRangeIsPage` | src/components/DataTable.tsx:128-129 | for page at least 1, on a page with rows, `startIndex..endIndex` lies in `[1, total]`, counts the page's rows, and numbers exactly the rows `getPosts` returns for it; the shown start less one is the slice's start index |
| `DataTable.ShownRangeMeaning` | src/components/DataTable.tsx:296 | for page at least 1, the "Showing X to Y" line reads 0 to 0 for an empty table; otherwise X less one is the slice's start index, Y never exceeds the total, and X is at most Y on a page that holds rows |
| `DataTable.ThirdOfThreePages` | src/components/DataTable.tsx:128-129 | 53 items, 20 per page, page 3: rows 41 to 53, 13 rows, 3 pages |
| `DataTable.GetPageNumbers` | src/components/DataTable.tsx:132-150 | `[1..totalPages]` (empty for 0) when at most 5 pages; otherwise the run from `max(1,current-2)` to `min(totalPages,start+4)`; at most 5 numbers, all in `[1,totalPages]`, rising by 1, containing a current page that is in range |
| `DataTable.IntendedArrowKeepsPagePositive` | src/components/DataTable.tsx:322-363 | from page at least 1, an arrow that the intended guard leaves enabled never asks for a page below 1 |
| `DataTable.WrittenArrowsReachPageMinusOne` | src/components/DataTable.tsx:353-363 | as written, with no pages "last" is enabled at page 1 and asks for page 0, and "previous" is enabled at page 0 and asks for page -1 |
| `DataTable.PageMinusOneShowsTailRows` | src/components/DataTable.tsx:128-129 | at page -1 of 100 posts, ten per page, the slice shows posts 81 to 90 numbered -19 to -10 |
| `DataTable.DataTableComponent.constructor` | src/components/DataTable.tsx:64 | the search box starts with the store's search |
| `DataTable.DataTableComponent.HandleSort` | src/components/DataTable.tsx:103-110 | the active column flips asc/desc; another column becomes the sort column, ascending; nothing else changes |
| `DataTable.ClickActiveColumnTwice` | src/components/DataTable.tsx:104-105 | two clicks on the active column restore the original state |
| `DataTable.LastThenPreviousBeforeFirstAnswer` | src/components/DataTable.tsx:296-363 | as written, "last" then "previous" on a fresh table makes the line read "Showing 0 to -10" |
| `DataTable.LastThenPreviousBeforeFirstAnswerIntended` | src/components/DataTable.tsx:296-363 | under the intended guard the same clicks leave the line at "Showing 0 to 0" |
| `DataTable.ClickArrowsIntended` | src/components/DataTable.tsx:322-363 | any run of arrow clicks under the intended guard keeps the page at 1 or above, so an empty table reads 0 to 0 |
| `DataTable.DataTableComponent.HandlePageChange` | src/components/DataTable.tsx:113-115 | only the page changes |
| `DataTable.DataTableComponent.ClickArrow` | src/components/DataTable.tsx:322-363 | a disabled arrow changes nothing; an enabled one moves to page 1, page-1, page+1 or `totalPages`, disabled at exactly page 1 or exactly `totalPages`, and nothing else changes |
| `DataTable.DataTableComponent.ClickArrowIntended` | src/components/DataTable.tsx:322-363 | the same clicks with the backward arrows disabled at or below page 1 and the forward ones at or beyond the last page; the page stays at 1 or above |
| `DataTable.DataTableComponent.HandlePageSizeChange` | src/components/DataTable.tsx:117-119 | size set, page back to 1 |
| `DataTable.DataTableComponent.HandleResetFilters` | src/components/DataTable.tsx:122-125 | the search box is emptied and the store's filters reset |
| `DataTable.DataTableComponent.SyncSearch` | src/components/DataTable.tsx:91-95 | the store's search is written, resetting the page to 1, only when the debounced value differs; otherwise the store is unchanged |
| `DataTable.FetchDataError` | src/components/DataTable.tsx:83 | the error shown is never empty: the response's error text when it has one, otherwise "Failed to fetch data" |
| `DataTable.DataTableComponent.Request` | src/components/DataTable.tsx:71-77 | the query built from the store's page, size, sort and the debounced search; what its answer does to the store is stated by `DataTable.DataTableComponent.FetchData` |
| `DataTable.DataTableComponent.FetchData` | src/components/DataTable.tsx:68-88 | success: page rows of the current query, loading off, error cleared, total and page count written, query unchanged, rows at most a page for page at least 1; failure: error message set, loading off, rows kept |
| `PostsPage.PageRequest` | src/app/posts/page.tsx:21-24 | page `n`, ten per page, no search and no sort; what it returns is stated by `PostsPage.FeedPageIsSourceRun` |
| `PostsPage.FeedError` | src/app/posts/page.tsx:34 | the error shown is never empty: the response's error text when it has one, otherwise "Failed to fetch posts" |
| `PostsPage.FeedPageIsSourceRun` | src/app/posts/page.tsx:21-24 | the feed's request (no search, no sort, 10 per page) returns page `n` of the collection in source order |
| `PostsPage.FirstPageIsPrefix` | src/app/posts/page.tsx:27-28 | the first page is the first up to ten posts, full exactly when there are ten |
| `PostsPage.NextPageExtendsPrefix` | src/app/posts/page.tsx:30-32 | after `page` full pages, appending the next page gives the first `min(10*(page+1), n)` posts; it is full exactly when enough posts remain |
| `PostsPage.PostsFeed.constructor` | src/app/posts/page.tsx:9-13 | no posts, not loading, no error, page 1, more to load |
| `PostsPage.PostsFeed.BeginFetch` | src/app/posts/page.tsx:17-18 | loading raised and error cleared; posts, page and `hasMore` unchanged |
| `PostsPage.PostsFeed.CompleteFetch` | src/app/posts/page.tsx:20-40 | received: reset replaces and otherwise appends the page (old list a prefix), `hasMore` iff the page has 10 posts; failed: error set, posts and `hasMore` unchanged; loading always off |
| `PostsPage.PostsFeed.FetchPosts` | src/app/posts/page.tsx:15-43 | a whole fetch: as `CompleteFetch`, and no error after a success |
| `PostsPage.PostsFeed.Mount` | src/app/posts/page.tsx:45-47 | the mount effect loads page 1 as the whole list |
| `PostsPage.PostsFeed.LoadMore` | src/app/posts/page.tsx:49-55 | no effect while loading or when nothing is left; otherwise page +1 exactly, and the next page appended |
| `PostsPage.PostsFeed.Refresh` | src/app/posts/page.tsx:57-60 | page set to 1 and page 1 replaces the list |
| `PostsPage.MountThenLoadMore` | src/app/posts/page.tsx:22-32 | mount then `k` successful "load more" show the first `min(10*(k+1), n)` posts of the collection |
| `PostsPage.RetryAfterFailedLoadMore` | src/app/posts/page.tsx:49-54 | as written, a failed "load more" followed by a successful one shows posts 1-10 and 21-30, skipping page 2 |
| `PostsPage.PostsFeed.LoadMoreCommitOnSuccess` | src/app/posts/page.tsx:49-54 | corrected "load more": as `LoadMore`, except that a failure leaves the page counter where it was |
| `PostsPage.LoadMoreWithFailures` | src/app/posts/page.tsx:49-54 | with the correction, any mix of failed and successful requests shows an unbroken prefix of the collection, one page per success |

## Left out

- The HTTP layer is not modelled: the axios instances, interceptors, the 10 s timeout, the bearer token from `localStorage` and the 401 redirect. The fetch outcome is the parameter `FetchResult`.
- The other `apiHelpers` are thin HTTP wrappers with no logic, so they are left out. The same goes for the mock `login`/`logout`/`isAuthenticated`, which depend on timers, the clock and `localStorage`.
- The `useDebounce` hook and the effect scheduling are left out; `SyncSearch` receives the settled value. So is the race between overlapping table fetches: each `FetchData` is one atomic cycle. The posts feed splits its fetch into `BeginFetch` and `CompleteFetch` only so that the `loading` guard of `loadMore` can be observed.
- The engine's sort algorithm is left out beyond its contract; the body of `SortInPlace` is only one order that meets the assumed contract.
- The `getPosts` transform cannot fail in the model. Only the request can fail: a malformed response that makes `filter` throw has no counterpart.
- The `catch` branches of `fetchData` and `fetchPosts` ("An unexpected error occurred") are not modelled. `getPosts` catches every failure, so they cannot be reached.
- `toLowerCase` is modelled on ASCII letters only. Dafny characters are Unicode scalar values, where JavaScript compares UTF-16 code units; the two orders differ only for characters outside the Basic Multilingual Plane.
- JavaScript numbers are modelled as integers. Fractional, `NaN` and infinite pages, limits or sizes are not represented.
- A `sortBy` that names an inherited property (such as `constructor`) is treated like any unknown name: its key is `undefined`.
- `DataTableSlice.DataTableStore.SetPageSize` requires a size of at least 1, where the reducer accepts any number. `Math.ceil(n/0)` is `Infinity` or `NaN`, which has no integer model, and the selector offers only 10, 20 and 50.
- `DataTable.DataTableComponent.HandlePageSizeChange` has the same requirement, for the same reason.
- `DataTable.ShownRangeMeaning` is stated for page at least 1 only. As written, the arrows reach page 0 and -1 when there are no pages (see Findings), and an empty table at page -1 then reads "Showing 0 to -10".
- `DataTable.DisplayRangeIsPage` is stated for page at least 1 only. At the reachable page -1, 100 posts show posts 81 to 90, numbered -19 to -10 (`DataTable.PageMinusOneShowsTailRows`).
- `Api.ResultPageSize` is stated for page at least 1, the scope `getPosts` is designed for; at page 0 its formula would give `limit`, where the page is in fact empty.
- When there is no search, the source sorts the response's own array in place. The model sorts a copy. The response is not used afterwards, so no difference is visible.
- The rendering, styling, the layout, post, counter and page components, and the store configuration are not part of this model.

## Findings

| source | as written | input that shows it | evidently intended | confidence | as-written member | corrected member |
|---|---|---|---|---|---|---|
| src/app/posts/page.tsx:49-54 | `loadMore` advances `page` before fetching and does not restore it when the fetch fails. `hasMore` stays true, so the button stays offered. | 30 posts; mount; "load more" fails; "load more" succeeds. The list shows posts 1-10 and 21-30, and posts 11-20 are never loaded. | A retry after a failure loads the page that failed, so the list stays an unbroken prefix of the collection. | not executed; high | `PostsPage.RetryAfterFailedLoadMore` (with `PostsPage.PostsFeed.LoadMore`) | `PostsPage.PostsFeed.LoadMoreCommitOnSuccess` (with `PostsPage.LoadMoreWithFailures`) |
| src/components/DataTable.tsx:353-363 | The forward arrows are disabled only when `currentPage === totalPages`. When there are no pages (`totalPages` is 0, as before the first answer or after an empty search), "last" is enabled and asks for page 0. The backward arrows are disabled only at page exactly 1, so "previous" then asks for page -1. | A fresh table; "last"; "previous". The line reads "Showing 0 to -10 of 0 entries". If the first answer brings 100 posts, the table shows posts 81 to 90 numbered -19 to -10. | The page stays at 1 or above: the forward arrows are disabled at or beyond the last page and the backward ones at or below page 1. | not executed; high | `DataTable.LastThenPreviousBeforeFirstAnswer` (with `DataTable.DataTableComponent.ClickArrow` and `DataTable.PageMinusOneShowsTailRows`) | `DataTable.DataTableComponent.ClickArrowIntended` (with `DataTable.ClickArrowsIntended` and `DataTable.LastThenPreviousBeforeFirstAnswerIntended`) |
