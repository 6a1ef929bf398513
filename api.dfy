/**
 * The client-side query transform of `apiHelpers.getPosts`: the whole post
 * collection is fetched, then filtered by a case-insensitive search, sorted
 * in place by one field, and cut to one page. The fetch itself is a
 * parameter: either the posts it received or the value it threw.
 */
module Api {
  import opened Options
  import opened Text

  datatype Post = Post(id: int, title: string, body: string, userId: int)

  datatype SortOrder = Asc | Desc

  /** The optional parameters of `getPosts`; `params` itself absent is `NoParams`. */
  datatype QueryParams = QueryParams(
    page: Option<int>,
    limit: Option<int>,
    search: Option<string>,
    sortBy: Option<string>,
    sortOrder: Option<SortOrder>)

  const NoParams := QueryParams(None, None, None, None, None)

  /** What a failed request throws: an `Error` carrying a message, or some other value. */
  datatype Failure = ErrorObject(message: string) | NonErrorValue

  /** The outcome of `publicApi.get('/posts')`. */
  datatype FetchResult = Received(posts: seq<Post>) | Failed(cause: Failure)

  /** `ApiResponse<Post[]>`; absent members are `None`. */
  datatype ApiResponse = ApiResponse(
    success: bool,
    data: Option<seq<Post>>,
    error: Option<string>,
    total: Option<int>,
    page: Option<int>,
    limit: Option<int>)

  const DefaultPage := 1
  const DefaultLimit := 10
  const FetchFailedMessage := "Failed to fetch posts"

  function PageParam(p: QueryParams): int { p.page.GetOr(DefaultPage) }

  function LimitParam(p: QueryParams): int { p.limit.GetOr(DefaultLimit) }

  /** `if (search)`: absent and empty searches are both falsy. */
  predicate SearchActive(p: QueryParams) { p.search.Some? && p.search.value != "" }

  /** `if (sortBy)`. */
  predicate SortActive(p: QueryParams) { p.sortBy.Some? && p.sortBy.value != "" }

  predicate Descending(p: QueryParams) { p.sortOrder == Some(Desc) }

  /** The message of the caught value. */
  function ErrorText(cause: Failure): string {
    match cause
    case ErrorObject(m) => m
    case NonErrorValue => FetchFailedMessage
  }

  // ---------------------------------------------------------------- search

  /** The lower-cased title or body contains the lower-cased search. */
  predicate Matches(post: Post, search: string) {
    Includes(ToLower(post.title), ToLower(search)) || Includes(ToLower(post.body), ToLower(search))
  }

  /** `posts.filter(post => Matches(post, search))`. */
  function FilterPosts(posts: seq<Post>, search: string): (r: seq<Post>)
    ensures |r| <= |posts|
    ensures forall i :: 0 <= i < |r| ==> Matches(r[i], search)
  {
    if posts == [] then []
    else (if Matches(posts[0], search) then [posts[0]] else []) + FilterPosts(posts[1..], search)
  }

  /** The collection after the search step. */
  function Filtered(posts: seq<Post>, p: QueryParams): seq<Post> {
    if SearchActive(p) then FilterPosts(posts, p.search.value) else posts
  }

  /** `sub` can be obtained from `s` by deleting elements. */
  predicate IsSubsequence<T(==)>(sub: seq<T>, s: seq<T>)
    decreases |s|
  {
    if sub == [] then true
    else if s == [] then false
    else if sub[0] == s[0] then IsSubsequence(sub[1..], s[1..])
    else IsSubsequence(sub, s[1..])
  }

  /**
   * The filter keeps exactly the matching posts (each as often as it
   * occurs), and in their original relative order.
   */
  lemma {:induction false} FilterPostsKeepsMatches(posts: seq<Post>, search: string)
    ensures forall x :: multiset(FilterPosts(posts, search))[x] == if Matches(x, search) then multiset(posts)[x] else 0
    ensures IsSubsequence(FilterPosts(posts, search), posts)
  {
    if posts != [] {
      var head, rest := posts[0], FilterPosts(posts[1..], search);
      FilterPostsKeepsMatches(posts[1..], search);
      assert posts == [head] + posts[1..];
      assert multiset(posts) == multiset{head} + multiset(posts[1..]);
      if Matches(head, search) {
        assert FilterPosts(posts, search) == [head] + rest;
        assert multiset(FilterPosts(posts, search)) == multiset{head} + multiset(rest);
        assert ([head] + rest)[1..] == rest;
      } else {
        assert FilterPosts(posts, search) == rest;
        if rest != [] {
          // every kept post matches, and the head does not
          assert multiset(rest)[rest[0]] > 0;
          assert rest[0] != head;
        }
      }
    }
  }

  /** The search step as a whole: a no-op when the search is absent or empty. */
  lemma SearchStep(posts: seq<Post>, p: QueryParams)
    ensures !SearchActive(p) ==> Filtered(posts, p) == posts
    ensures SearchActive(p) ==>
      (forall x :: multiset(Filtered(posts, p))[x] == if Matches(x, p.search.value) then multiset(posts)[x] else 0) &&
      IsSubsequence(Filtered(posts, p), posts)
  {
    if SearchActive(p) { FilterPostsKeepsMatches(posts, p.search.value); }
  }

  /** The number of matches depends on the search only, not on page or limit. */
  lemma TotalIgnoresPaging(posts: seq<Post>, p: QueryParams, page: Option<int>, limit: Option<int>)
    ensures |Filtered(posts, p)| == |Filtered(posts, p.(page := page, limit := limit))|
  {
  }

  // ------------------------------------------------------------------ sort

  /** The value of `post[sortBy]`: a number, a string, or `undefined` for any other name. */
  datatype Key = Num(n: int) | Str(s: string) | Undefined

  function KeyOf(post: Post, field: string): Key {
    if field == "id" then Num(post.id)
    else if field == "userId" then Num(post.userId)
    else if field == "title" then Str(post.title)
    else if field == "body" then Str(post.body)
    else Undefined
  }

  /** JavaScript's `x > y` on two keys of one field (`undefined > undefined` is false). */
  predicate KeyGreater(x: Key, y: Key) {
    match (x, y)
    case (Num(m), Num(n)) => m > n
    case (Str(s), Str(t)) => LexGreater(s, t)
    case _ => false
  }

  /** The comparator passed to `sort`: it never answers 0, so equal keys compare as -1. */
  function Compare(a: Post, b: Post, field: string, desc: bool): (r: int)
    ensures r == 1 || r == -1
    ensures KeyOf(a, field) == KeyOf(b, field) ==> r == -1
  {
    if desc then (if KeyGreater(KeyOf(b, field), KeyOf(a, field)) then 1 else -1)
    else (if KeyGreater(KeyOf(a, field), KeyOf(b, field)) then 1 else -1)
  }

  /** The comparator does not ask for `b` to be placed before `a`. */
  predicate Precedes(a: Post, b: Post, field: string, desc: bool) {
    Compare(a, b, field, desc) < 0
  }

  /** Every earlier element may stay before every later one. */
  ghost predicate OrderedBy(s: seq<Post>, field: string, desc: bool) {
    forall i, j :: 0 <= i < j < |s| ==> Precedes(s[i], s[j], field, desc)
  }

  ghost predicate SortedPermutationOf(s: seq<Post>, t: seq<Post>, field: string, desc: bool) {
    multiset(s) == multiset(t) && OrderedBy(s, field, desc)
  }

  /** Keys of one field, compared with `>`, form a strict weak order. */
  lemma KeyOrder(a: Post, b: Post, c: Post, field: string)
    ensures KeyGreater(KeyOf(a, field), KeyOf(b, field)) ==> !KeyGreater(KeyOf(b, field), KeyOf(a, field))
    ensures !KeyGreater(KeyOf(a, field), KeyOf(b, field)) && !KeyGreater(KeyOf(b, field), KeyOf(c, field))
            ==> !KeyGreater(KeyOf(a, field), KeyOf(c, field))
  {
    match KeyOf(a, field)
    case Str(_) =>
      LexAsymmetric(KeyOf(a, field).s, KeyOf(b, field).s);
      LexNotGreaterTransitive(KeyOf(a, field).s, KeyOf(b, field).s, KeyOf(c, field).s);
    case _ =>
  }

  lemma PrecedesTotal(a: Post, b: Post, field: string, desc: bool)
    ensures !Precedes(a, b, field, desc) ==> Precedes(b, a, field, desc)
  {
    KeyOrder(a, b, b, field);
    KeyOrder(b, a, a, field);
  }

  lemma PrecedesTransitive(a: Post, b: Post, c: Post, field: string, desc: bool)
    ensures Precedes(a, b, field, desc) && Precedes(b, c, field, desc) ==> Precedes(a, c, field, desc)
  {
    KeyOrder(a, b, c, field);
    KeyOrder(c, b, a, field);
  }

  /**
   * `filteredData.sort(comparator)`. The comparator is inconsistent for
   * equal keys, so the language leaves the resulting order
   * implementation-defined. This model assumes that the engine running
   * the code returns a permutation in which no pair is out of order, and
   * states only that, so no caller can rely on the order of equal keys.
   * The body is one sort that meets this assumption.
   */
  method SortInPlace(a: array<Post>, field: string, desc: bool)
    modifies a
    ensures SortedPermutationOf(a[..], old(a[..]), field, desc)
  {
    var i := 0;
    while i < a.Length
      invariant 0 <= i <= a.Length
      invariant forall k, l :: 0 <= k < l < i ==> Precedes(a[k], a[l], field, desc)
      invariant multiset(a[..]) == multiset(old(a[..]))
    {
      var j := i;
      while j > 0 && !Precedes(a[j - 1], a[j], field, desc)
        invariant 0 <= j <= i
        invariant forall k, l :: 0 <= k < l <= i && k != j && l != j ==> Precedes(a[k], a[l], field, desc)
        invariant forall l :: j < l <= i ==> Precedes(a[j], a[l], field, desc)
        invariant multiset(a[..]) == multiset(old(a[..]))
      {
        PrecedesTotal(a[j - 1], a[j], field, desc);
        a[j - 1], a[j] := a[j], a[j - 1];
        j := j - 1;
      }
      forall k | 0 <= k < j ensures Precedes(a[k], a[j], field, desc) {
        PrecedesTransitive(a[k], a[j - 1], a[j], field, desc);
      }
      i := i + 1;
    }
  }

  // ------------------------------------------------------------ pagination

  /** A relative index of `Array.prototype.slice`: negative counts from the end. */
  function SliceIndex(i: int, len: nat): (r: nat)
    ensures r <= len
  {
    if i < 0 then (if len + i < 0 then 0 else len + i)
    else if i > len then len
    else i
  }

  /** `s.slice(start, end)`. */
  function JsSlice<T>(s: seq<T>, start: int, end: int): (r: seq<T>)
    ensures SliceIndex(start, |s|) + |r| <= |s|
    ensures |r| == Max(0, SliceIndex(end, |s|) - SliceIndex(start, |s|))
    ensures forall k :: 0 <= k < |r| ==> r[k] == s[SliceIndex(start, |s|) + k]
  {
    var from, to := SliceIndex(start, |s|), SliceIndex(end, |s|);
    if from < to then s[from..to] else []
  }

  function Min(x: int, y: int): int { if x <= y then x else y }

  function Max(x: int, y: int): int { if x <= y then y else x }

  /** The rows of 1-based page `page` of `limit` rows each. */
  function PageStart(page: int, limit: int): int { (page - 1) * limit }

  /**
   * For a page number of at least 1, the slice is the contiguous run of
   * `s` from `(page-1)*limit` up to `page*limit` or the end of `s`;
   * it has at most `limit` elements.
   */
  lemma PageWindow<T>(s: seq<T>, page: int, limit: int)
    requires page >= 1 && limit >= 0
    ensures var start := PageStart(page, limit);
      && start >= 0 && page * limit == start + limit
      && JsSlice(s, start, start + limit)
         == (if start >= |s| then [] else s[start..Min(page * limit, |s|)])
      && |JsSlice(s, start, start + limit)| == Max(0, Min(limit, |s| - start))
      && |JsSlice(s, start, start + limit)| <= limit
  {
    assert page * limit == (page - 1) * limit + limit;
  }

  // ------------------------------------------------------------ the result

  /**
   * `page` is a valid answer of `getPosts(p)` on the collection `posts`:
   * without `sortBy` it is the slice of the filtered posts in their source
   * order; with `sortBy` it is the same slice of some ordered permutation
   * of them.
   */
  ghost predicate IsResultPage(p: QueryParams, posts: seq<Post>, page: seq<Post>) {
    var f := Filtered(posts, p);
    var start := PageStart(PageParam(p), LimitParam(p));
    if SortActive(p) then
      exists s :: SortedPermutationOf(s, f, p.sortBy.value, Descending(p)) && page == JsSlice(s, start, start + LimitParam(p))
    else
      page == JsSlice(f, start, start + LimitParam(p))
  }

  /**
   * Without `sortBy` a page is a contiguous run of the filtered posts in
   * their source order, and of the fetched collection itself when there
   * is no search either.
   */
  lemma UnsortedPageIsRun(p: QueryParams, posts: seq<Post>, page: seq<Post>)
    requires !SortActive(p) && IsResultPage(p, posts, page)
    requires PageParam(p) >= 1 && LimitParam(p) >= 0
    ensures var f, start := Filtered(posts, p), PageStart(PageParam(p), LimitParam(p));
      page == if start >= |f| then [] else f[start..Min(PageParam(p) * LimitParam(p), |f|)]
    ensures !SearchActive(p) ==> var start := PageStart(PageParam(p), LimitParam(p));
      page == if start >= |posts| then [] else posts[start..Min(PageParam(p) * LimitParam(p), |posts|)]
  {
    PageWindow(Filtered(posts, p), PageParam(p), LimitParam(p));
  }

  /** `getPosts()` with no parameters answers the first ten fetched posts, in source order. */
  lemma NoParamsIsFirstPage(posts: seq<Post>, page: seq<Post>)
    requires IsResultPage(NoParams, posts, page)
    ensures page == posts[..Min(10, |posts|)]
  {
    UnsortedPageIsRun(NoParams, posts, page);
  }

  /**
   * For a page number of at least 1, a page holds
   * `max(0, min(limit, total - (page-1)*limit))` posts, never more than `limit`.
   */
  lemma ResultPageSize(p: QueryParams, posts: seq<Post>, page: seq<Post>)
    requires IsResultPage(p, posts, page)
    requires PageParam(p) >= 1 && LimitParam(p) >= 0
    ensures |page| == Max(0, Min(LimitParam(p), |Filtered(posts, p)| - PageStart(PageParam(p), LimitParam(p))))
    ensures |page| <= LimitParam(p)
  {
    var f, start := Filtered(posts, p), PageStart(PageParam(p), LimitParam(p));
    if SortActive(p) {
      var s :| SortedPermutationOf(s, f, p.sortBy.value, Descending(p)) && page == JsSlice(s, start, start + LimitParam(p));
      assert |s| == |multiset(s)| == |multiset(f)| == |f|;
      PageWindow(s, PageParam(p), LimitParam(p));
    } else {
      PageWindow(f, PageParam(p), LimitParam(p));
    }
  }

  /**
   * With `sortBy`, a page is in comparator order and holds only matching
   * posts; which of several equal keys comes first is not determined.
   */
  lemma SortedPageIsOrdered(p: QueryParams, posts: seq<Post>, page: seq<Post>)
    requires SortActive(p) && IsResultPage(p, posts, page)
    ensures OrderedBy(page, p.sortBy.value, Descending(p))
    ensures forall x :: x in page ==> x in Filtered(posts, p)
  {
    var f, start := Filtered(posts, p), PageStart(PageParam(p), LimitParam(p));
    var s :| SortedPermutationOf(s, f, p.sortBy.value, Descending(p)) && page == JsSlice(s, start, start + LimitParam(p));
    var from, to := SliceIndex(start, |s|), SliceIndex(start + LimitParam(p), |s|);
    if from < to {
      assert page == s[from..to];
      forall x | x in page ensures x in f {
        assert x in multiset(s);
      }
    }
  }

  /** `apiHelpers.getPosts(params)` once the request has completed with `fetch`. */
  method GetPosts(params: QueryParams, fetch: FetchResult) returns (r: ApiResponse)
    ensures fetch.Failed? ==> r == ApiResponse(false, None, Some(ErrorText(fetch.cause)), None, None, None)
    ensures fetch.Received? ==>
      && r.success && r.error.None? && r.data.Some?
      && IsResultPage(params, fetch.posts, r.data.value)
      && r.total == Some(|Filtered(fetch.posts, params)|)
      && r.page == Some(PageParam(params)) && r.limit == Some(LimitParam(params))
    ensures fetch.Received? && params.page.None? ==> r.page == Some(1)
    ensures fetch.Received? && params.limit.None? ==> r.limit == Some(10)
  {
    match fetch
    case Failed(cause) =>
      r := ApiResponse(false, None, Some(ErrorText(cause)), None, None, None);
    case Received(posts) =>
      var page, limit := PageParam(params), LimitParam(params);
      var filteredData := posts;
      if SearchActive(params) {
        filteredData := FilterPosts(filteredData, params.search.value);
      }
      ghost var matching := filteredData;
      assert matching == Filtered(posts, params);
      var startIndex := PageStart(page, limit);
      var endIndex := startIndex + limit;
      if SortActive(params) {
        var f := filteredData;
        var a := new Post[|f|](i requires 0 <= i < |f| => f[i]);
        assert a[..] == matching;
        SortInPlace(a, params.sortBy.value, Descending(params));
        filteredData := a[..];
        assert |filteredData| == |multiset(filteredData)| == |multiset(matching)| == |matching|;
      }
      var paginatedData := JsSlice(filteredData, startIndex, endIndex);
      r := ApiResponse(true, Some(paginatedData), None, Some(|filteredData|), Some(page), Some(limit));
      if SortActive(params) {
        assert SortedPermutationOf(filteredData, matching, params.sortBy.value, Descending(params));
      }
  }
}
