/**
 * The posts feed: a page counter and the list of posts loaded so far.
 * The first page replaces the list, every further page is appended, and
 * "load more" is offered while the last page came back full.
 */
module PostsPage {
  import opened Options
  import opened Api

  const PageLimit := 10

  /** The request the feed sends for page `pageNum`: no search, no sort. */
  function PageRequest(pageNum: int): QueryParams {
    QueryParams(Some(pageNum), Some(PageLimit), None, None, None)
  }

  /** The rows of page `pageNum` of the collection `src`. */
  function PageOf(src: seq<Post>, pageNum: int): seq<Post> {
    JsSlice(src, PageStart(pageNum, PageLimit), PageStart(pageNum, PageLimit) + PageLimit)
  }

  /** `result.error || 'Failed to fetch posts'`. */
  function FeedError(e: Option<string>): (m: string)
    ensures m != ""
    ensures e.Some? && e.value != "" ==> m == e.value
  {
    if e.Some? && e.value != "" then e.value else FetchFailedMessage
  }

  /** The feed's answer to a request that completed with `fetch`: the page as the collection's own run. */
  lemma FeedPageIsSourceRun(fetch: FetchResult, pageNum: int, rows: seq<Post>)
    requires fetch.Received? && IsResultPage(PageRequest(pageNum), fetch.posts, rows)
    ensures rows == PageOf(fetch.posts, pageNum)
  {
  }

  /**
   * With the first `page` full pages loaded, the next page continues the
   * prefix: loading page after page yields the collection's first posts.
   */
  lemma {:induction false} NextPageExtendsPrefix(src: seq<Post>, page: int)
    requires page >= 1 && PageLimit * page <= |src|
    ensures src[..PageLimit * page] + PageOf(src, page + 1) == src[..Min(PageLimit * (page + 1), |src|)]
    ensures |PageOf(src, page + 1)| == PageLimit <==> PageLimit * (page + 1) <= |src|
  {
    PageWindow(src, page + 1, PageLimit);
    assert PageStart(page + 1, PageLimit) == PageLimit * page;
    if PageLimit * page < |src| {
      assert src[..PageLimit * page] + src[PageLimit * page..Min(PageLimit * (page + 1), |src|)]
          == src[..Min(PageLimit * (page + 1), |src|)];
    }
  }

  /** The first page is the collection's first up to ten posts. */
  lemma {:induction false} FirstPageIsPrefix(src: seq<Post>)
    ensures PageOf(src, 1) == src[..Min(PageLimit, |src|)]
    ensures |PageOf(src, 1)| == PageLimit <==> PageLimit <= |src|
  {
    PageWindow(src, 1, PageLimit);
    if |src| == 0 { assert src[..0] == []; }
  }

  class PostsFeed {
    var posts: seq<Post>
    var loading: bool
    var error: Option<string>
    var page: int
    var hasMore: bool

    /** The component's initial state, before its mount effect runs. */
    constructor ()
      ensures posts == [] && !loading && error == None && page == 1 && hasMore
    {
      posts, loading, error, page, hasMore := [], false, None, 1, true;
    }

    /** The synchronous start of `fetchPosts`: loading is raised and the error cleared. */
    method BeginFetch()
      modifies this
      ensures loading && error == None
      ensures posts == old(posts) && page == old(page) && hasMore == old(hasMore)
    {
      loading := true;
      error := None;
    }

    /**
     * The rest of `fetchPosts(pageNum, reset)` once the request completed
     * with `fetch`: a received page replaces or extends the list and decides
     * `hasMore`; a failure only records its message; loading always ends.
     */
    method CompleteFetch(pageNum: int, reset: bool, fetch: FetchResult)
      modifies this
      ensures !loading && page == old(page)
      ensures fetch.Received? ==>
        var rows := PageOf(fetch.posts, pageNum);
        && posts == (if reset then rows else old(posts) + rows)
        && hasMore == (|rows| == PageLimit)
        && error == old(error)
      ensures fetch.Failed? ==>
        && posts == old(posts) && hasMore == old(hasMore)
        && error == Some(FeedError(Some(ErrorText(fetch.cause))))
    {
      var result := GetPosts(PageRequest(pageNum), fetch);
      if result.success && result.data.Some? {
        FeedPageIsSourceRun(fetch, pageNum, result.data.value);
        if reset {
          posts := result.data.value;
        } else {
          posts := posts + result.data.value;
        }
        hasMore := |result.data.value| == PageLimit;
      } else {
        error := Some(FeedError(result.error));
      }
      loading := false;
    }

    /** `fetchPosts(pageNum, reset)` run to completion. */
    method FetchPosts(pageNum: int, reset: bool, fetch: FetchResult)
      modifies this
      ensures !loading && page == old(page)
      ensures fetch.Received? ==>
        var rows := PageOf(fetch.posts, pageNum);
        && posts == (if reset then rows else old(posts) + rows)
        && hasMore == (|rows| == PageLimit)
        && error == None
      ensures fetch.Failed? ==>
        && posts == old(posts) && hasMore == old(hasMore)
        && error == Some(FeedError(Some(ErrorText(fetch.cause))))
    {
      BeginFetch();
      CompleteFetch(pageNum, reset, fetch);
    }

    /** The mount effect: `fetchPosts(1, true)`. */
    method Mount(fetch: FetchResult)
      modifies this
      ensures !loading && page == old(page)
      ensures fetch.Received? ==>
        posts == PageOf(fetch.posts, 1) && hasMore == (|posts| == PageLimit) && error == None
      ensures fetch.Failed? ==> posts == old(posts) && hasMore == old(hasMore) && error.Some?
    {
      FetchPosts(1, true, fetch);
    }

    /**
     * `loadMore()`: nothing while a fetch is active or when no page is
     * left; otherwise the page counter moves on by one and that page is
     * fetched and appended.
     */
    method LoadMore(fetch: FetchResult)
      modifies this
      ensures old(loading) || !old(hasMore) ==>
        posts == old(posts) && loading == old(loading) && error == old(error)
        && page == old(page) && hasMore == old(hasMore)
      ensures !old(loading) && old(hasMore) ==> !loading && page == old(page) + 1
      ensures !old(loading) && old(hasMore) && fetch.Received? ==>
        var rows := PageOf(fetch.posts, old(page) + 1);
        posts == old(posts) + rows && hasMore == (|rows| == PageLimit) && error == None
      ensures !old(loading) && old(hasMore) && fetch.Failed? ==>
        posts == old(posts) && hasMore == old(hasMore) && error.Some?
    {
      if !loading && hasMore {
        var nextPage := page + 1;
        page := nextPage;
        FetchPosts(nextPage, false, fetch);
      }
    }

    /**
     * `loadMore()` with the page counter committed only once the page has
     * arrived, so that a retry after a failure asks for the same page again.
     */
    method LoadMoreCommitOnSuccess(fetch: FetchResult)
      modifies this
      ensures old(loading) || !old(hasMore) ==>
        posts == old(posts) && loading == old(loading) && error == old(error)
        && page == old(page) && hasMore == old(hasMore)
      ensures !old(loading) && old(hasMore) && fetch.Received? ==>
        var rows := PageOf(fetch.posts, old(page) + 1);
        && !loading && page == old(page) + 1
        && posts == old(posts) + rows && hasMore == (|rows| == PageLimit) && error == None
      ensures !old(loading) && old(hasMore) && fetch.Failed? ==>
        && !loading && page == old(page)
        && posts == old(posts) && hasMore == old(hasMore) && error.Some?
    {
      if !loading && hasMore {
        var nextPage := page + 1;
        FetchPosts(nextPage, false, fetch);
        if error == None {
          page := nextPage;
        }
      }
    }

    /** `refresh()`: back to page 1, which replaces the list. */
    method Refresh(fetch: FetchResult)
      modifies this
      ensures !loading && page == 1
      ensures fetch.Received? ==>
        posts == PageOf(fetch.posts, 1) && hasMore == (|posts| == PageLimit) && error == None
      ensures fetch.Failed? ==> posts == old(posts) && hasMore == old(hasMore) && error.Some?
    {
      page := 1;
      FetchPosts(1, true, fetch);
    }
  }

  /**
   * The feed mounted and then asked for more `k` times, every request
   * answered with the collection `src`, shows the first
   * `min(10 * (k + 1), |src|)` posts of `src`, in order.
   */
  method MountThenLoadMore(src: seq<Post>, k: nat) returns (shown: seq<Post>)
    ensures shown == src[..Min(PageLimit * (k + 1), |src|)]
  {
    var feed := new PostsFeed();
    feed.Mount(Received(src));
    FirstPageIsPrefix(src);
    var i := 0;
    while i < k
      invariant 0 <= i <= k
      invariant !feed.loading && feed.error == None
      invariant 1 <= feed.page <= i + 1
      invariant feed.posts == src[..Min(PageLimit * feed.page, |src|)]
      invariant feed.hasMore ==> feed.page == i + 1 && PageLimit * feed.page <= |src|
      invariant !feed.hasMore ==> |src| < PageLimit * feed.page
    {
      if feed.hasMore {
        NextPageExtendsPrefix(src, feed.page);
      }
      feed.LoadMore(Received(src));
      i := i + 1;
    }
    shown := feed.posts;
  }

  /**
   * As written, a failed "load more" still advances the page counter, so
   * the next successful one skips a page: with 30 posts, mount, one failed
   * and one successful "load more" show posts 1-10 and 21-30.
   */
  method RetryAfterFailedLoadMore(src: seq<Post>) returns (shown: seq<Post>)
    requires |src| >= 3 * PageLimit
    ensures shown == src[..PageLimit] + src[2 * PageLimit..3 * PageLimit]
  {
    var feed := new PostsFeed();
    feed.Mount(Received(src));
    FirstPageIsPrefix(src);
    feed.LoadMore(Failed(NonErrorValue));
    feed.LoadMore(Received(src));
    PageWindow(src, 3, PageLimit);
    shown := feed.posts;
  }

  /** The number of `true` entries of `s`. */
  function CountTrue(s: seq<bool>): nat {
    if s == [] then 0 else CountTrue(s[..|s| - 1]) + (if s[|s| - 1] then 1 else 0)
  }

  /**
   * With the counter committed on success, any mix of failed and successful
   * "load more" requests (`true` for success) shows an unbroken prefix of
   * the collection: one page more per success, up to the whole collection.
   */
  method LoadMoreWithFailures(src: seq<Post>, outcomes: seq<bool>) returns (shown: seq<Post>)
    ensures shown == src[..Min(PageLimit * (CountTrue(outcomes) + 1), |src|)]
  {
    var feed := new PostsFeed();
    feed.Mount(Received(src));
    FirstPageIsPrefix(src);
    var i := 0;
    while i < |outcomes|
      invariant 0 <= i <= |outcomes|
      invariant !feed.loading
      invariant 1 <= feed.page <= CountTrue(outcomes[..i]) + 1
      invariant feed.posts == src[..Min(PageLimit * feed.page, |src|)]
      invariant feed.hasMore ==> feed.page == CountTrue(outcomes[..i]) + 1 && PageLimit * feed.page <= |src|
      invariant !feed.hasMore ==> |src| < PageLimit * feed.page
    {
      assert outcomes[..i + 1][..i] == outcomes[..i];
      if feed.hasMore {
        NextPageExtendsPrefix(src, feed.page);
      }
      feed.LoadMoreCommitOnSuccess(if outcomes[i] then Received(src) else Failed(NonErrorValue));
      i := i + 1;
    }
    assert outcomes[..i] == outcomes;
    shown := feed.posts;
  }
}
