/** `WooCommerceManager`: the API handle, the two-state synchronisation flag,
    the watermark of the last successful synchronisation, the pager loop and
    the polling loop.

    The clock, the store's answers and whether the consumer callback raises
    are inputs of the methods; threads and sleeping are not modelled. */
module Manager {
  import opened Wrappers
  import opened Pager
  import opened Boundary

  /** The settings the WooCommerce client is built from. */
  datatype Client = Client(url: string, consumerKey: string, consumerSecret: string)

  /** The answer to the `system_status` probe: it raised, or it returned a
      status code (its body is never read). */
  datatype Probe = ProbeRaised | ProbeStatus(code: int)

  /** The environment of one polling cycle: the store's answers to the
      cycle's fetch, whether the consumer callback raises, the clock read
      after the callback, and whether a concurrent `stop_sync` lands while
      the cycle is under way. */
  datatype Cycle<R> = Cycle(replies: Replies<R>, callbackRaises: bool, clock: int,
                            stopRequested: bool)

  /** The watermark after a polling cycle that fetched `fetched`: the clock
      when the batch was non-empty and the callback returned normally,
      otherwise unchanged. */
  function Advance<R>(watermark: int, fetched: Option<seq<R>>, callbackRaises: bool,
                      clock: int): (w: int)
    ensures w == watermark || w == clock
    ensures w != watermark ==> fetched.Some? && fetched.value != [] && !callbackRaises
    ensures fetched.Some? && fetched.value != [] && !callbackRaises ==> w == clock
  {
    if fetched.Some? && fetched.value != [] && !callbackRaises then clock else watermark
  }

  /** The watermark after running `cycles` from `watermark`: each cycle
      fetches from its predecessor's watermark. */
  function WatermarkAfter<R>(watermark: int, cycles: seq<Cycle<R>>, connected: bool,
                             perPage: int): int
  {
    if cycles == [] then watermark
    else
      var w := WatermarkAfter(watermark, cycles[..|cycles| - 1], connected, perPage);
      var c := cycles[|cycles| - 1];
      var q := SinceQuery(w);
      Advance(w, Fetch(connected, c.replies, q.params, q.paginateAll, perPage).result,
              c.callbackRaises, c.clock)
  }

  /** Running one more cycle advances the watermark from where the earlier
      cycles left it. */
  lemma WatermarkStep<R>(watermark: int, cycles: seq<Cycle<R>>, connected: bool,
                         perPage: int, n: nat)
    requires n < |cycles|
    ensures var w := WatermarkAfter(watermark, cycles[..n], connected, perPage);
      var q := SinceQuery(w);
      WatermarkAfter(watermark, cycles[..n + 1], connected, perPage)
      == Advance(w, Fetch(connected, cycles[n].replies, q.params, q.paginateAll, perPage).result,
                 cycles[n].callbackRaises, cycles[n].clock)
  {
    assert cycles[..n + 1][..n] == cycles[..n];
  }

  /** The watermark only ever takes the initial value or the clock of a
      cycle whose callback returned normally. */
  lemma {:induction false} WatermarkOrigin<R>(watermark: int, cycles: seq<Cycle<R>>,
                                              connected: bool, perPage: int)
    ensures var w := WatermarkAfter(watermark, cycles, connected, perPage);
      w == watermark
      || exists i :: 0 <= i < |cycles| && w == cycles[i].clock && !cycles[i].callbackRaises
  {
    if cycles != [] {
      var front := cycles[..|cycles| - 1];
      WatermarkOrigin(watermark, front, connected, perPage);
      var w := WatermarkAfter(watermark, front, connected, perPage);
      if w != watermark {
        var i :| 0 <= i < |front| && w == front[i].clock && !front[i].callbackRaises;
        assert cycles[i] == front[i];
      }
    }
  }

  /** With a clock that never goes back and never reads earlier than the
      initial watermark, the watermark never decreases from one cycle to
      the next. */
  lemma {:induction false} WatermarkMonotone<R>(watermark: int, cycles: seq<Cycle<R>>,
                                                connected: bool, perPage: int, j: nat)
    requires j < |cycles|
    requires forall i :: 0 <= i < |cycles| ==> watermark <= cycles[i].clock
    requires forall i, k :: 0 <= i < k < |cycles| ==> cycles[i].clock <= cycles[k].clock
    ensures WatermarkAfter(watermark, cycles[..j], connected, perPage)
         <= WatermarkAfter(watermark, cycles[..j + 1], connected, perPage)
  {
    var front := cycles[..j];
    assert cycles[..j + 1][..j] == front;
    WatermarkOrigin(watermark, front, connected, perPage);
    var w := WatermarkAfter(watermark, front, connected, perPage);
    if w != watermark {
      var i :| 0 <= i < |front| && w == front[i].clock && !front[i].callbackRaises;
      assert front[i] == cycles[i];
    }
  }

  class WooCommerceManager {
    /** The API handle; absent until `Initialize`. */
    var api: Option<Client>
    /** Whether the polling loop is meant to run. */
    var syncRunning: bool
    /** The watermark: the time of the last successful synchronisation. */
    var lastSync: int

    /** A fresh manager built at time `now`: no handle, not running, the
        watermark one day before `now`. */
    constructor (now: int)
      ensures api == None && !syncRunning && lastSync == now - DaySeconds
    {
      api := None;
      syncRunning := false;
      lastSync := now - DaySeconds;
    }

    /** Stores the handle built from `client`, then probes the store:
        success exactly when the probe answers with status 200. The handle
        stays in place when the probe fails or raises. */
    method Initialize(client: Client, probe: Probe) returns (ok: bool)
      modifies this
      ensures api == Some(client)
      ensures ok == (probe.ProbeStatus? && probe.code == 200)
      ensures syncRunning == old(syncRunning) && lastSync == old(lastSync)
    {
      api := Some(client);
      ok := probe.ProbeStatus? && probe.code == 200;
    }

    /** Starts synchronising: a no-op when already running; otherwise sets
        the flag and reports that the polling thread is spawned. */
    method StartSync() returns (spawned: bool)
      modifies this
      ensures spawned == !old(syncRunning)
      ensures syncRunning
      ensures api == old(api) && lastSync == old(lastSync)
    {
      if syncRunning {
        return false;
      }
      syncRunning := true;
      spawned := true;
    }

    /** Stops synchronising: always clears the flag. */
    method StopSync()
      modifies this
      ensures !syncRunning
      ensures api == old(api) && lastSync == old(lastSync)
    {
      syncRunning := false;
    }

    /** `get_orders`: requests pages 1, 2, ... until one does not continue,
        and returns what the reference definition `Fetch` says. */
    method GetOrders<R>(replies: Replies<R>, params: Params, paginateAll: bool, perPage: int)
      returns (result: Option<seq<R>>, requests: seq<Params>)
      ensures Outcome(result, requests) == Fetch(api.Some?, replies, params, paginateAll, perPage)
    {
      if api.None? {
        return None, [];
      }
      var allOrders: seq<R> := [];
      var page: nat := 1;
      requests := [];
      while true
        invariant 1 <= page <= |replies| + 1
        invariant requests == RequestLog(perPage, params, page - 1)
        invariant allOrders == Gathered(replies, page - 1)
        invariant forall i :: 1 <= i < page ==> Continues(ResponseAt(replies, i), perPage, paginateAll)
        decreases |replies| + 1 - page
      {
        var current := Request(perPage, page, params);
        requests := requests + [current];
        var response := ResponseAt(replies, page);
        assert requests == RequestLog(perPage, params, page);
        if response.Raise? {
          FetchStopsAt(replies, params, paginateAll, perPage, page);
          return None, requests;
        }
        if response.status != 200 {
          assert allOrders == Gathered(replies, page);
          break;
        }
        var body := response.body;
        if body.NotAList? || |body.items| == 0 {
          assert allOrders == Gathered(replies, page);
          break;
        }
        allOrders := allOrders + body.items;
        assert allOrders == Gathered(replies, page);
        if !paginateAll {
          break;
        }
        if |body.items| < perPage {
          break;
        }
        page := page + 1;
      }
      FetchStopsAt(replies, params, paginateAll, perPage, page);
      result := Some(allOrders);
    }

    /** `fetch_orders_since`: the pager on the incremental query from
        `since`. */
    method FetchOrdersSince<R>(replies: Replies<R>, since: int, perPage: int)
      returns (result: Option<seq<R>>, requests: seq<Params>)
      ensures Outcome(result, requests)
           == Fetch(api.Some?, replies, SinceQuery(since).params, false, perPage)
    {
      var q := SinceQuery(since);
      result, requests := GetOrders(replies, q.params, q.paginateAll, perPage);
    }

    /** `fetch_last_day_orders`: the pager on the backfill query from the
        clock value `now`; the watermark plays no part. */
    method FetchLastDayOrders<R>(replies: Replies<R>, now: int, perPage: int)
      returns (result: Option<seq<R>>, requests: seq<Params>)
      ensures Outcome(result, requests)
           == Fetch(api.Some?, replies, LastDayQuery(now).params, true, perPage)
    {
      var q := LastDayQuery(now);
      result, requests := GetOrders(replies, q.params, q.paginateAll, perPage);
    }

    /** The body of one polling iteration: fetch from the watermark, hand a
        non-empty batch to the callback, and advance the watermark to the
        clock only when the callback returned normally. `notified` is the
        batch handed to the callback, if any. */
    method PollOnce<R>(replies: Replies<R>, perPage: int, callbackRaises: bool, clock: int)
      returns (notified: Option<seq<R>>, requests: seq<Params>)
      modifies this
      ensures var o := Fetch(api.Some?, replies, SinceQuery(old(lastSync)).params, false, perPage);
        && requests == o.requests
        && notified == (if o.result.Some? && o.result.value != [] then o.result else None)
        && lastSync == Advance(old(lastSync), o.result, callbackRaises, clock)
      ensures api == old(api) && syncRunning == old(syncRunning)
    {
      var updated;
      updated, requests := FetchOrdersSince(replies, lastSync, perPage);
      notified := None;
      if updated.Some? && updated.value != [] {
        notified := updated;
        if !callbackRaises {
          lastSync := clock;
        }
      }
    }

    /** `_polling_loop` over a finite sequence of cycles: the flag is read at
        the top of each iteration only, so a stop landing during a cycle
        lets that cycle finish (watermark update included) and no further
        cycle start. `ran` is the number of cycles run. */
    method PollingLoop<R>(cycles: seq<Cycle<R>>, perPage: int) returns (ran: nat)
      modifies this
      ensures ran <= |cycles|
      ensures !old(syncRunning) ==> ran == 0
      ensures old(syncRunning) ==>
        && (forall i :: 0 <= i < ran - 1 ==> !cycles[i].stopRequested)
        && (ran == |cycles| || (ran >= 1 && cycles[ran - 1].stopRequested))
      ensures syncRunning == (old(syncRunning) && forall i :: 0 <= i < ran ==> !cycles[i].stopRequested)
      ensures lastSync == WatermarkAfter(old(lastSync), cycles[..ran], api.Some?, perPage)
      ensures api == old(api)
    {
      ran := 0;
      while syncRunning && ran < |cycles|
        invariant ran <= |cycles|
        invariant api == old(api)
        invariant !old(syncRunning) ==> ran == 0 && !syncRunning
        invariant forall i :: 0 <= i < ran - 1 ==> !cycles[i].stopRequested
        invariant syncRunning == (old(syncRunning) && forall i :: 0 <= i < ran ==> !cycles[i].stopRequested)
        invariant lastSync == WatermarkAfter(old(lastSync), cycles[..ran], api.Some?, perPage)
        decreases |cycles| - ran
      {
        var c := cycles[ran];
        WatermarkStep(old(lastSync), cycles, api.Some?, perPage, ran);
        var _, _ := PollOnce(c.replies, perPage, c.callbackRaises, c.clock);
        if c.stopRequested {
          StopSync();
        }
        ran := ran + 1;
      }
    }
  }
}
