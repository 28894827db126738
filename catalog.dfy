/**
 * The catalog side of the recommendation service (ml/server.py): the objects the catalog API
 * returns, the paginated fetch `_get_all`, and the two time-boxed caches behind
 * `_get_communities` and `_get_posts`.
 */
module Catalog {
  import opened Results
  import opened TokenNormalizer

  /** A numeric JSON field of a catalog object: missing, `null`, or a number. */
  datatype Field = Absent | Null | Num(value: real)

  /**
   * A catalog object, reduced to the keys the recommender reads. A missing or `null`
   * "skills" key is the empty list (`xs or []`).
   */
  datatype CatalogObject = CatalogObject(id: Option<int>, skills: seq<Raw>, memberCount: Field, likeCount: Field)

  /** `MP_API_PAGE_LIMIT`, the page size of every catalog request. */
  const PageLimit: nat := 100

  /** `CACHE_TTL_SEC`, in seconds. */
  const CacheTtl: real := 60.0

  /** `int(obj.get("id", 0))`. */
  function ObjectId(o: CatalogObject): int {
    if o.id.Some? then o.id.value else 0
  }

  /**
   * `float(obj.get("member_count", obj.get("like_count", 0)) or 0)`: a present "member_count"
   * wins even when it is null; a falsy value becomes 0.
   */
  function Popularity(o: CatalogObject): (p: real)
    ensures o.memberCount.Num? ==> p == o.memberCount.value
    ensures o.memberCount.Null? ==> p == 0.0
    ensures o.memberCount.Absent? && o.likeCount.Num? ==> p == o.likeCount.value
    ensures o.memberCount.Absent? && !o.likeCount.Num? ==> p == 0.0
  {
    var v := if !o.memberCount.Absent? then o.memberCount
             else if !o.likeCount.Absent? then o.likeCount
             else Num(0.0);
    if v.Num? then v.value else 0.0
  }

  // ---------------------------------------------------------------------------------------
  // Paginated fetch
  // ---------------------------------------------------------------------------------------

  /** The decoded body of one page response. */
  datatype Page = ListPage(items: seq<CatalogObject>) | NotAList | BadJson

  /** The catalog's answer to one page request. */
  datatype Reply = Reply(status: int, body: string, page: Page)

  /** Why a fetch failed: a non-200 answer, an unparseable body, or no answer at all. */
  datatype FetchError = ApiError(status: int, body: string) | InvalidJson | NoReply

  /** A page that ends the fetch: a 200 answer holding a non-list or a short list. */
  predicate EndsFetch(r: Reply) {
    r.status == 200 && (r.page.NotAList? || (r.page.ListPage? && |r.page.items| < PageLimit))
  }

  /** A page after which the fetch goes on: a 200 answer holding a list of at least a page. */
  predicate FullPage(r: Reply) {
    r.status == 200 && r.page.ListPage? && |r.page.items| >= PageLimit
  }

  /** The objects of the pages `from .. to-1`, in order (a non-list page contributes none). */
  function Concat(replies: seq<Reply>, from: nat, to: nat): seq<CatalogObject>
    requires from <= to <= |replies|
    decreases (to as int) - (from as int)
  {
    if from == to then []
    else (if replies[from].page.ListPage? then replies[from].page.items else []) + Concat(replies, from + 1, to)
  }

  /**
   * The outcome of fetching from page number `page` on, where `replies[k]` is the answer to
   * the request with `skip = k * PageLimit`; a request past the last listed answer gets none.
   */
  function FetchFrom(replies: seq<Reply>, page: nat): Result<seq<CatalogObject>, FetchError>
    decreases |replies| - page
  {
    if page >= |replies| then Err(NoReply)
    else
      var rep := replies[page];
      if rep.status != 200 then Err(ApiError(rep.status, rep.body))
      else match rep.page
        case BadJson => Err(InvalidJson)
        case NotAList => Ok([])
        case ListPage(items) =>
          if |items| < PageLimit then Ok(items)
          else match FetchFrom(replies, page + 1)
            case Ok(rest) => Ok(items + rest)
            case Err(e) => Err(e)
  }

  /** `items` followed by the items of a successful outcome; an error stays the error. */
  function Prepend(items: seq<CatalogObject>, r: Result<seq<CatalogObject>, FetchError>): Result<seq<CatalogObject>, FetchError> {
    match r
    case Ok(rest) => Ok(items + rest)
    case Err(e) => Err(e)
  }

  lemma PrependTwice(a: seq<CatalogObject>, b: seq<CatalogObject>, r: Result<seq<CatalogObject>, FetchError>)
    ensures Prepend(a, Prepend(b, r)) == Prepend(a + b, r)
  {
    if r.Ok? {
      assert a + (b + r.value) == (a + b) + r.value;
    }
  }

  /**
   * `_get_all`: requests pages with `skip` advancing by `PageLimit`, extending the result
   * with each list page, until a short page or a non-list page; any non-200 answer or
   * unparseable body fails the whole fetch. `skips` are the offsets requested, in order.
   */
  method GetAll(replies: seq<Reply>) returns (r: Result<seq<CatalogObject>, FetchError>, skips: seq<nat>)
    ensures r == FetchFrom(replies, 0)
    ensures |skips| >= 1 && forall k :: 0 <= k < |skips| ==> skips[k] == k * PageLimit
  {
    var items: seq<CatalogObject> := [];
    var skip: nat := 0;
    var page: nat := 0;
    skips := [];
    assert Prepend([], FetchFrom(replies, 0)) == FetchFrom(replies, 0) by {
      if FetchFrom(replies, 0).Ok? {
        assert [] + FetchFrom(replies, 0).value == FetchFrom(replies, 0).value;
      }
    }
    while true
      invariant skip == page * PageLimit
      invariant |skips| == page && forall k :: 0 <= k < page ==> skips[k] == k * PageLimit
      invariant page <= |replies|
      invariant FetchFrom(replies, 0) == Prepend(items, FetchFrom(replies, page))
      decreases |replies| - page
    {
      skips := skips + [skip];
      if page == |replies| {
        return Err(NoReply), skips;
      }
      var rep := replies[page];
      if rep.status != 200 {
        return Err(ApiError(rep.status, rep.body)), skips;
      }
      if rep.page.BadJson? {
        return Err(InvalidJson), skips;
      }
      if !rep.page.ListPage? {
        assert items + [] == items;
        break;
      }
      var pageItems := rep.page.items;
      ghost var before := items;
      items := items + pageItems;
      if |pageItems| < PageLimit {
        break;
      }
      assert FetchFrom(replies, page) == Prepend(pageItems, FetchFrom(replies, page + 1));
      PrependTwice(before, pageItems, FetchFrom(replies, page + 1));
      skip := skip + PageLimit;
      page := page + 1;
    }
    r := Ok(items);
  }

  /**
   * A successful fetch returns the pages up to and including the first one that ends the
   * fetch, concatenated in order; every page before that one was full.
   */
  lemma {:induction false} FetchOkShape(replies: seq<Reply>, page: nat)
    requires FetchFrom(replies, page).Ok?
    ensures exists m :: page <= m < |replies| && EndsFetch(replies[m])
                        && (forall k :: page <= k < m ==> FullPage(replies[k]))
                        && FetchFrom(replies, page).value == Concat(replies, page, m + 1)
    decreases |replies| - page
  {
    var rep := replies[page];
    if EndsFetch(rep) {
      assert Concat(replies, page, page + 1) == (if rep.page.ListPage? then rep.page.items else []) + Concat(replies, page + 1, page + 1);
    } else {
      FetchOkShape(replies, page + 1);
      var m :| page + 1 <= m < |replies| && EndsFetch(replies[m])
               && (forall k :: page + 1 <= k < m ==> FullPage(replies[k]))
               && FetchFrom(replies, page + 1).value == Concat(replies, page + 1, m + 1);
      assert FetchFrom(replies, page).value == Concat(replies, page, m + 1);
    }
  }

  /**
   * Conversely, when every page before page `m` is full and page `m` ends the fetch, the
   * fetch succeeds with the concatenation of those pages.
   */
  lemma {:induction false} FetchCollectsPages(replies: seq<Reply>, page: nat, m: nat)
    requires page <= m < |replies| && EndsFetch(replies[m])
    requires forall k :: page <= k < m ==> FullPage(replies[k])
    ensures FetchFrom(replies, page) == Ok(Concat(replies, page, m + 1))
    decreases m - page
  {
    if page < m {
      FetchCollectsPages(replies, page + 1, m);
    } else {
      var rep := replies[m];
      assert Concat(replies, m + 1, m + 1) == [];
      if rep.page.ListPage? {
        assert Concat(replies, m, m + 1) == rep.page.items + [] == rep.page.items;
      } else {
        assert Concat(replies, m, m + 1) == [] + [];
      }
    }
  }

  /**
   * A non-200 answer to the request for page `m`, after only full pages, fails the whole fetch
   * with that answer's status and body.
   */
  lemma {:induction false} FetchFailsOnStatus(replies: seq<Reply>, page: nat, m: nat)
    requires page <= m < |replies| && replies[m].status != 200
    requires forall k :: page <= k < m ==> FullPage(replies[k])
    ensures FetchFrom(replies, page) == Err(ApiError(replies[m].status, replies[m].body))
    decreases m - page
  {
    if page < m {
      FetchFailsOnStatus(replies, page + 1, m);
    }
  }

  // ---------------------------------------------------------------------------------------
  // Time-boxed cache
  // ---------------------------------------------------------------------------------------

  /** The cache is stale at `now` when more than `CacheTtl` seconds passed since `ts`. */
  predicate Stale(ts: real, now: real) {
    now - ts > CacheTtl
  }

  /**
   * One of the two cache slots `_cache_comm` / `_cache_posts`: the items of the last
   * successful fetch and the time it was stored. `fetches` counts the catalog fetches made.
   */
  class CatalogCache {
    var ts: real
    var items: seq<CatalogObject>
    ghost var fetches: nat

    /** `{"ts": 0.0, "items": []}`. */
    constructor ()
      ensures ts == 0.0 && items == [] && fetches == 0
    {
      ts := 0.0;
      items := [];
      fetches := 0;
    }

    /**
     * `_get_communities` / `_get_posts` at time `now`: a stale slot is refetched and, on
     * success, replaced with the new items and timestamp; a fresh slot is returned as it is.
     * A failed fetch changes nothing.
     */
    method Get(now: real, replies: seq<Reply>) returns (r: Result<seq<CatalogObject>, FetchError>)
      modifies this
      ensures fetches == old(fetches) + (if Stale(old(ts), now) then 1 else 0)
      ensures !Stale(old(ts), now) ==> r == Ok(old(items)) && items == old(items) && ts == old(ts)
      ensures Stale(old(ts), now) ==> r == FetchFrom(replies, 0)
      ensures Stale(old(ts), now) && r.Ok? ==> items == r.value && ts == now
      ensures Stale(old(ts), now) && r.Err? ==> items == old(items) && ts == old(ts)
    {
      if now - ts > CacheTtl {
        var fetched, _ := GetAll(replies);
        fetches := fetches + 1;
        if fetched.Err? {
          return fetched;
        }
        items := fetched.value;
        ts := now;
      }
      r := Ok(items);
    }
  }

  /**
   * Two reads within the TTL of a successful refresh fetch once: the first read (on a slot
   * whose timestamp is stale) refetches, the second returns the stored items.
   */
  method ReadTwiceWithinTtl(c: CatalogCache, t1: real, t2: real, replies: seq<Reply>, later: seq<Reply>)
      returns (first: Result<seq<CatalogObject>, FetchError>, second: Result<seq<CatalogObject>, FetchError>)
    requires Stale(c.ts, t1) && FetchFrom(replies, 0).Ok? && t2 - t1 <= CacheTtl
    modifies c
    ensures c.fetches == old(c.fetches) + 1
    ensures first == second == FetchFrom(replies, 0)
  {
    first := c.Get(t1, replies);
    second := c.Get(t2, later);
  }
}
