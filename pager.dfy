/** The order pager of `WooCommerceManager.get_orders`: what one call requests
    from the store, when it stops, and what it returns.

    The store is abstracted as the sequence of answers it gives to the pager's
    page counter 1, 2, 3, ...; a request past the end of that sequence is
    answered with status 200 and an empty list. Order records are opaque
    values of a type parameter `R`: the pager never looks inside them. */
module Pager {
  import opened Wrappers

  /** A query-parameter value: the page size, the page index and the time
      bounds are numbers (timestamps in integer seconds), the rest text. */
  datatype Value = Num(n: int) | Text(s: string)

  type Params = map<string, Value>

  /** A decoded JSON body: a list of order records, or any other JSON value. */
  datatype Body<R> = NotAList | List(items: seq<R>)

  /** One answer to `api.get('orders', ...)`: either the call (or the JSON
      decoding of a 200 answer) raises, or it returns a status and a body.
      The body of a non-200 answer is never decoded. */
  datatype Response<R> = Raise | Reply(status: int, body: Body<R>)

  /** The answers the store gives to pages 1, 2, 3, ... of one pager call. */
  type Replies<R> = seq<Response<R>>

  /** What one pager call produces: its result and the parameters of every
      request it issued, in the order issued. */
  datatype Outcome<R> = Outcome(result: Option<seq<R>>, requests: seq<Params>)

  /** The answer to page `page` (counted from 1). */
  function ResponseAt<R>(replies: Replies<R>, page: nat): Response<R>
    requires page >= 1
  {
    if page <= |replies| then replies[page - 1] else Reply(200, List([]))
  }

  /** The parameters of the request for page `page`: the fixed defaults, with
      every key the caller supplies overriding the default of the same name. */
  function Request(perPage: int, page: int, params: Params): Params {
    var defaults := map["per_page" := Num(perPage), "page" := Num(page),
                        "orderby" := Text("date"), "order" := Text("desc"),
                        "status" := Text("any")];
    defaults + params
  }

  /** A request holds exactly the five default keys and the caller's keys;
      each caller key has the caller's value, each other key its default. */
  lemma RequestFields(perPage: int, page: int, params: Params)
    ensures var q := Request(perPage, page, params);
      && q.Keys == {"per_page", "page", "orderby", "order", "status"} + params.Keys
      && (forall k :: k in params ==> q[k] == params[k])
      && ("per_page" !in params ==> q["per_page"] == Num(perPage))
      && ("page" !in params ==> q["page"] == Num(page))
      && ("orderby" !in params ==> q["orderby"] == Text("date"))
      && ("order" !in params ==> q["order"] == Text("desc"))
      && ("status" !in params ==> q["status"] == Text("any"))
  {
  }

  /** The requests for pages 1..n, in order. */
  function RequestLog(perPage: int, params: Params, n: nat): (log: seq<Params>)
    ensures |log| == n
    ensures forall i :: 0 <= i < n ==> log[i] == Request(perPage, i + 1, params)
  {
    if n == 0 then [] else RequestLog(perPage, params, n - 1) + [Request(perPage, n, params)]
  }

  /** The pager goes on to the next page after `r` exactly when `r` is a 200
      answer holding a non-empty list, all pages were asked for, and the list
      is not shorter than the page size. */
  predicate Continues<R>(r: Response<R>, perPage: int, paginateAll: bool) {
    paginateAll && r.Reply? && r.status == 200 && r.body.List?
    && |r.body.items| > 0 && |r.body.items| >= perPage
  }

  /** The records an answer contributes to the result: the list of a 200
      answer, nothing otherwise. */
  function Received<R>(r: Response<R>): seq<R>
  {
    if r.Reply? && r.status == 200 && r.body.List? then r.body.items else []
  }

  /** The in-order concatenation of what pages 1..n contributed. */
  function Gathered<R>(replies: Replies<R>, n: nat): (xs: seq<R>)
  {
    if n == 0 then [] else Gathered(replies, n - 1) + Received(ResponseAt(replies, n))
  }

  /** The first page from `page` on after which the pager does not go on. */
  function StopPage<R>(replies: Replies<R>, perPage: int, paginateAll: bool, page: nat): (k: nat)
    requires 1 <= page <= |replies| + 1
    ensures page <= k <= |replies| + 1
    ensures !Continues(ResponseAt(replies, k), perPage, paginateAll)
    ensures forall i :: page <= i < k ==> Continues(ResponseAt(replies, i), perPage, paginateAll)
    decreases |replies| + 1 - page
  {
    if !Continues(ResponseAt(replies, page), perPage, paginateAll) then page
    else StopPage(replies, perPage, paginateAll, page + 1)
  }

  /** The reference definition of one pager call. Without an API handle
      nothing is requested and there is no result. Otherwise pages 1..k are
      requested, k being the first page after which the pager does not go
      on; the result is absent if page k raised, and is otherwise what pages
      1..k contributed, in order. */
  function Fetch<R>(connected: bool, replies: Replies<R>, params: Params,
                    paginateAll: bool, perPage: int): Outcome<R>
  {
    if !connected then Outcome(None, [])
    else
      var k := StopPage(replies, perPage, paginateAll, 1);
      Outcome(if ResponseAt(replies, k).Raise? then None else Some(Gathered(replies, k)),
              RequestLog(perPage, params, k))
  }

  /** The requests of a call: none without a handle; otherwise one for
      each of pages 1..k, 1 <= k <= |replies| + 1, in order, each carrying
      its own page index unless the caller overrides `page`. */
  lemma FetchRequests<R>(connected: bool, replies: Replies<R>, params: Params,
                         paginateAll: bool, perPage: int)
    ensures var o := Fetch(connected, replies, params, paginateAll, perPage);
      && (!connected ==> o.requests == [])
      && (connected ==> 1 <= |o.requests| <= |replies| + 1)
      && (forall i :: 0 <= i < |o.requests| ==> o.requests[i] == Request(perPage, i + 1, params))
      && ("page" !in params ==>
            forall i :: 0 <= i < |o.requests| ==> "page" in o.requests[i] && o.requests[i]["page"] == Num(i + 1))
  {
  }

  /** A page at which the pager stops, with every earlier page continuing,
      is the stop page. */
  lemma StopPageUnique<R>(replies: Replies<R>, perPage: int, paginateAll: bool, k: nat)
    requires k >= 1
    requires forall i :: 1 <= i < k ==> Continues(ResponseAt(replies, i), perPage, paginateAll)
    requires !Continues(ResponseAt(replies, k), perPage, paginateAll)
    ensures StopPage(replies, perPage, paginateAll, 1) == k
  {
  }

  /** A call that stops at page k, every earlier page continuing, has the
      outcome that page k and the pages before it determine. */
  lemma FetchStopsAt<R>(replies: Replies<R>, params: Params, paginateAll: bool,
                        perPage: int, k: nat)
    requires k >= 1
    requires forall i :: 1 <= i < k ==> Continues(ResponseAt(replies, i), perPage, paginateAll)
    requires !Continues(ResponseAt(replies, k), perPage, paginateAll)
    ensures Fetch(true, replies, params, paginateAll, perPage)
         == Outcome(if ResponseAt(replies, k).Raise? then None else Some(Gathered(replies, k)),
                    RequestLog(perPage, params, k))
  {
  }

  /** The result is absent exactly when there is no API handle, or one of
      the requested pages raised; with no handle nothing is requested. */
  lemma FetchAbsentIff<R>(connected: bool, replies: Replies<R>, params: Params,
                          paginateAll: bool, perPage: int)
    ensures var o := Fetch(connected, replies, params, paginateAll, perPage);
      && (o.result.None? <==>
            !connected || exists i :: 1 <= i <= |o.requests| && ResponseAt(replies, i).Raise?)
      && (!connected ==> o.requests == [])
  {
  }

  /** First page only: exactly one request, for page 1; the result is page
      1's list for a 200 answer with a list body, the empty list for any
      other (non-raising) answer, absent when it raised. */
  lemma FirstPageOnly<R>(replies: Replies<R>, params: Params, perPage: int)
    ensures var o := Fetch(true, replies, params, false, perPage);
      var r := ResponseAt(replies, 1);
      && o.requests == [Request(perPage, 1, params)]
      && o.result == (if r.Raise? then None
                      else if r.status == 200 && r.body.List? then Some(r.body.items)
                      else Some([]))
  {
    FetchStopsAt(replies, params, false, perPage, 1);
    assert RequestLog(perPage, params, 1) == [Request(perPage, 1, params)];
    assert Gathered(replies, 1) == Received(ResponseAt(replies, 1));
  }

  /** All pages: pages 1..k are requested in order; every page before the
      last is a 200 answer whose non-empty list is at least a page long; the
      last page is the first one that is shorter than a page, empty, not a
      list, a non-200 answer or a raise; and a present result is the
      in-order concatenation of what was received. */
  lemma AllPagesShape<R>(replies: Replies<R>, params: Params, perPage: int)
    ensures var o := Fetch(true, replies, params, true, perPage);
      var k := |o.requests|;
      && k >= 1
      && o.requests == RequestLog(perPage, params, k)
      && (forall i :: 1 <= i < k ==>
            var r := ResponseAt(replies, i);
            r.Reply? && r.status == 200 && r.body.List? && |r.body.items| > 0 && |r.body.items| >= perPage)
      && (var last := ResponseAt(replies, k);
          last.Raise? || last.status != 200 || last.body.NotAList?
          || |last.body.items| == 0 || |last.body.items| < perPage)
      && (o.result.Some? ==> o.result.value == Gathered(replies, k))
  {
  }

  /** A non-200 answer at page j, after pages that all continued, ends the
      call at once: page j is the last request (no retry), and the result is
      what pages 1..j-1 carried. */
  lemma StatusErrorStops<R>(replies: Replies<R>, params: Params, paginateAll: bool,
                            perPage: int, j: nat)
    requires j >= 1
    requires forall i :: 1 <= i < j ==> Continues(ResponseAt(replies, i), perPage, paginateAll)
    requires ResponseAt(replies, j).Reply? && ResponseAt(replies, j).status != 200
    ensures Fetch(true, replies, params, paginateAll, perPage)
         == Outcome(Some(Gathered(replies, j - 1)), RequestLog(perPage, params, j))
  {
    FetchStopsAt(replies, params, paginateAll, perPage, j);
    assert Received(ResponseAt(replies, j)) == [];
    assert Gathered(replies, j) == Gathered(replies, j - 1);
  }

  /** The concatenation of what every answer in `replies` contributes, read
      straight off the store rather than through the pager's page counter. */
  function Flatten<R>(replies: Replies<R>): seq<R>
  {
    if replies == [] then [] else
      Flatten(replies[..|replies| - 1]) + Received(replies[|replies| - 1])
  }

  /** A store that pages properly: every answer is a 200 list of 1 to
      `perPage` records, and every one but the last is full. */
  ghost predicate WellPaged<R>(replies: Replies<R>, perPage: int) {
    && perPage > 0
    && (forall i :: 0 <= i < |replies| ==>
          replies[i].Reply? && replies[i].status == 200 && replies[i].body.List?
          && 0 < |replies[i].body.items| <= perPage)
    && (forall i :: 0 <= i < |replies| - 1 ==> |replies[i].body.items| == perPage)
  }

  lemma {:induction false} GatheredIsFlatten<R>(replies: Replies<R>, n: nat)
    requires n <= |replies|
    ensures Gathered(replies, n) == Flatten(replies[..n])
  {
    if n > 0 {
      GatheredIsFlatten(replies, n - 1);
      assert replies[..n][..n - 1] == replies[..n - 1];
    }
  }

  lemma {:induction false} FullPagesLength<R>(replies: Replies<R>, perPage: int, n: nat)
    requires WellPaged(replies, perPage)
    requires n < |replies|
    ensures |Flatten(replies[..n])| == n * perPage
  {
    if n > 0 {
      FullPagesLength(replies, perPage, n - 1);
      assert replies[..n][..n - 1] == replies[..n - 1];
    }
  }

  lemma MulAtLeast(a: int, d: int)
    requires a >= 1 && d > 0
    ensures a * d >= d
  {
  }

  lemma DivUnique(x: int, d: int, q: int, r: int)
    requires d > 0 && 0 <= r < d && x == q * d + r
    ensures x / d == q
  {
    var q', r' := x / d, x % d;
    assert x == q' * d + r';
    if q' < q {
      MulAtLeast(q - q', d);
      assert false;
    } else if q' > q {
      MulAtLeast(q' - q, d);
      assert false;
    }
  }

  /** The number of pages a properly paging store makes the pager request:
      one per answer, plus the empty page after the end unless the last
      answer is short. */
  lemma WellPagedStop<R>(replies: Replies<R>, perPage: int) returns (k: nat)
    requires WellPaged(replies, perPage)
    ensures k == if |replies| > 0 && |replies[|replies| - 1].body.items| < perPage
                 then |replies| else |replies| + 1
    ensures StopPage(replies, perPage, true, 1) == k
  {
    var n := |replies|;
    k := if n > 0 && |replies[n - 1].body.items| < perPage then n else n + 1;
    assert forall i :: 1 <= i < k ==> Continues(ResponseAt(replies, i), perPage, true);
    StopPageUnique(replies, perPage, true, k);
  }

  /** n - 1 full pages and a last page of `last` records: the pager asks
      for n pages when the last is short, n + 1 when it is full. */
  lemma PageCountArith(total: int, perPage: int, n: int, last: int)
    requires perPage > 0 && n >= 1 && 0 < last <= perPage
    requires total == (n - 1) * perPage + last
    ensures (if last < perPage then n else n + 1) == total / perPage + 1
  {
    if last < perPage {
      DivUnique(total, perPage, n - 1, last);
    } else {
      assert total == n * perPage;
      DivUnique(total, perPage, n, 0);
    }
  }

  lemma {:induction false} WellPagedCount<R>(replies: Replies<R>, perPage: int)
    requires WellPaged(replies, perPage)
    ensures (if |replies| > 0 && |replies[|replies| - 1].body.items| < perPage
             then |replies| else |replies| + 1) == |Flatten(replies)| / perPage + 1
  {
    var n := |replies|;
    if n == 0 {
      assert Flatten(replies) == [];
    } else {
      var last := |replies[n - 1].body.items|;
      FullPagesLength(replies, perPage, n - 1);
      assert |Flatten(replies)| == |Flatten(replies[..n - 1])| + last;
      PageCountArith(|Flatten(replies)|, perPage, n, last);
    }
  }

  /** On a properly paging store holding `total` records, fetching all pages
      returns every record in page order and issues total / perPage + 1
      requests: ceil(total / perPage) of them, plus one for the empty page
      after the end when `total` is a multiple of the page size. */
  lemma WellPagedFetch<R>(replies: Replies<R>, params: Params, perPage: int)
    requires WellPaged(replies, perPage)
    ensures var o := Fetch(true, replies, params, true, perPage);
      && o.result == Some(Flatten(replies))
      && |o.requests| == |Flatten(replies)| / perPage + 1
  {
    var n := |replies|;
    var k := WellPagedStop(replies, perPage);
    assert replies[..n] == replies;
    GatheredIsFlatten(replies, n);
    if k == n + 1 {
      assert Gathered(replies, k) == Gathered(replies, n);
    }
    WellPagedCount(replies, perPage);
  }

  /** Page size 2 and 5 records: three requests, pages of 2, 2 and 1
      records, all 5 records returned in order. */
  lemma FivePagedByTwo<R>(a: R, b: R, c: R, d: R, e: R, params: Params)
    ensures var o := Fetch(true, [Reply(200, List([a, b])), Reply(200, List([c, d])),
                                  Reply(200, List([e]))], params, true, 2);
      && |o.requests| == 3
      && o.result == Some([a, b, c, d, e])
  {
    var replies := [Reply(200, List([a, b])), Reply(200, List([c, d])), Reply(200, List([e]))];
    assert WellPaged(replies, 2);
    WellPagedFetch(replies, params, 2);
    assert replies[..1][..0] == [];
    assert Flatten(replies[..1]) == [a, b];
    assert replies[..2][..1] == replies[..1];
    assert Flatten(replies[..2]) == [a, b, c, d];
    assert replies[..2] == replies[..|replies| - 1];
    assert Flatten(replies) == [a, b, c, d, e];
  }
}
