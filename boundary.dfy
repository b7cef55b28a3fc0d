/** The two time-bounded queries of `WooCommerceManager`: the incremental
    poll from a watermark, with a five-minute overlap, and the backfill of
    the last day. Timestamps are integer seconds. */
module Boundary {
  import opened Wrappers
  import opened Pager

  /** The safety overlap subtracted from the watermark: 5 minutes. */
  const OverlapSeconds := 5 * 60

  /** The backfill window, and the age of the initial watermark: 1 day. */
  const DaySeconds := 24 * 60 * 60

  /** The filter and the paging mode one fetch hands to the pager. */
  datatype Query = Query(params: Params, paginateAll: bool)

  /** `fetch_orders_since`: orders modified after the watermark less the
      overlap, first page only. */
  function SinceQuery(since: int): Query {
    Query(map["modified_after" := Num(since - OverlapSeconds)], false)
  }

  /** `fetch_last_day_orders`: orders created in the last day before `now`,
      every page. */
  function LastDayQuery(now: int): Query {
    Query(map["after" := Num(now - DaySeconds)], true)
  }

  /** The incremental poll issues exactly one request: page 1 with the
      default parameters and the single filter modified_after = since - 300;
      its result is page 1's. */
  lemma SinceFetch<R>(replies: Replies<R>, since: int, perPage: int)
    ensures var q := SinceQuery(since);
      var o := Fetch(true, replies, q.params, q.paginateAll, perPage);
      var r := ResponseAt(replies, 1);
      && |o.requests| == 1
      && o.requests[0].Keys == {"per_page", "page", "orderby", "order", "status", "modified_after"}
      && o.requests[0]["modified_after"] == Num(since - 300)
      && o.requests[0]["page"] == Num(1)
      && o.requests[0]["per_page"] == Num(perPage)
      && o.result == (if r.Raise? then None
                      else if r.status == 200 && r.body.List? then Some(r.body.items)
                      else Some([]))
  {
    var params := SinceQuery(since).params;
    FirstPageOnly(replies, params, perPage);
    var req := Request(perPage, 1, params);
    assert params.Keys == {"modified_after"};
    assert req.Keys == {"per_page", "page", "orderby", "order", "status", "modified_after"};
    assert req["modified_after"] == Num(since - 300);
  }

  /** The backfill asks for every page; each of its requests carries the
      single filter after = now - 86400 and its own page index, whatever the
      watermark is (the query does not depend on it). */
  lemma LastDayFetch<R>(replies: Replies<R>, now: int, perPage: int)
    ensures var q := LastDayQuery(now);
      var o := Fetch(true, replies, q.params, q.paginateAll, perPage);
      && q.paginateAll
      && |o.requests| >= 1
      && (forall i :: 0 <= i < |o.requests| ==>
            && o.requests[i].Keys == {"per_page", "page", "orderby", "order", "status", "after"}
            && o.requests[i]["after"] == Num(now - 86400)
            && o.requests[i]["page"] == Num(i + 1))
  {
  }
}
