# WooCommerce order synchronisation, modelled in Dafny

This project models the synchronisation core of `WooCommerceManager` in
`woocommerce_api.py`. The manager pulls orders from a WooCommerce store's REST
API and hands new or updated orders to a consumer callback. The model covers
three parts:

- **The pager** (`get_orders`). It asks for pages 1, 2, 3, … of the `orders`
  collection and builds each request from fixed defaults (`per_page`, `page`,
  `orderby=date`, `order=desc`, `status=any`); the caller's filter
  parameters override defaults of the same name. It stops on an empty page,
  a body that is not a list, a non-200 status, a short page, or after the
  first page in first-page-only mode. It gives up with "no result" when a
  request or its JSON decoding raises. With no API handle it returns "no
  result" and sends nothing.
- **The two boundary queries.** `fetch_orders_since` polls from the
  watermark less a five-minute overlap, as a `modified_after` filter, first
  page only. `fetch_last_day_orders` backfills from one day before the
  clock, as an `after` filter, every page.
- **The synchronisation state.** This is the `sync_running` flag, its
  start/stop transitions, and the `last_sync` watermark. The watermark
  starts one day before construction time. A polling iteration moves it
  only after a non-empty batch whose callback returned normally. The model
  has both one polling iteration and a finite run of the polling loop.

Modules:

- `Wrappers` (`wrappers.dfy`): the `Option` used for the "no result" signal.
- `Pager` (`pager.dfy`): responses, request parameters, and the reference
  definition `Fetch` of one pager call, followed by its properties.
- `Boundary` (`boundary.dfy`): the two queries and what the pager requests
  for each.
- `Manager` (`manager.dfy`): the class `WooCommerceManager`, whose fields
  are `api`, `syncRunning` and `lastSync`. Its imperative pager loop
  `GetOrders` is proved equal to `Fetch`. The module also holds the polling
  iteration, the polling loop, and the watermark lemmas.

Abstractions. These are the same in every module:

- **The store.** Each call is given the store's answers to its page
  counter 1, 2, 3, … as a sequence `replies`. Each answer is one of:
  - `Raise`: the transport or the JSON decoding failed;
  - `Reply(status, body)`: the body is `List(records)` or `NotAList`, and
    it is read only when the status is 200.

  A page past the end of `replies` is answered with status 200 and an
  empty list.
- **Records.** Order records are values of a type parameter, never
  inspected.
- **Time.** Timestamps are integer seconds. The clock is a method
  parameter.
- **The callback's failure** is a boolean input.
- **The page size** is a parameter. The source reads it from configuration
  on each call.

The watermark moves to the clock read after the callback returned (line
46), not to the time the cycle started. `PollOnce` therefore takes that later
clock value as its input.

## Model

| member | source | states |
|---|---|---|
| Pager.RequestFields | woocommerce_api.py:78-85 | A request has exactly the five default keys plus the caller's keys. Every caller key keeps the caller's value. Every default key the caller does not set has its default: per_page, the page index, orderby=date, order=desc, status=any. |
| Pager.RequestLog | woocommerce_api.py:76-90 | The requests for pages 1..n, in order: entry i is the request for page i+1. |
| Pager.StopPage | woocommerce_api.py:92-110 | The last page requested is the first page after which the loop does not go on. Every earlier page was a 200 list that was non-empty, not shorter than per_page, and fetched in all-pages mode. |
| Pager.FetchRequests | woocommerce_api.py:69-90 | Requests of one call, per the reference definition `Fetch`. No handle: nothing is requested. With a handle: between 1 and \|replies\|+1 requests, the i-th being the defaults-plus-params request for page i+1. Its page index is i+1 unless the caller overrides `page`. |
| Pager.FetchAbsentIff | woocommerce_api.py:70-117 | The result is absent exactly when there is no API handle or some requested page raised. With no handle nothing is requested. Accumulated pages are never returned after a raise. |
| Pager.FirstPageOnly | woocommerce_api.py:87-103 | First-page-only mode issues exactly one request, for page 1. The result is absent if page 1 raised, is page 1's records for a 200 list, and is the empty list for a non-list body or a non-200 status. |
| Pager.AllPagesShape | woocommerce_api.py:95-110 | All-pages mode requests pages 1..k in order, with k >= 1. Each page before k is a 200 list, non-empty and at least per_page long. Page k is the first one that raised, was non-200, was not a list, was empty, or was shorter than per_page. A present result is the in-order concatenation of what pages 1..k returned. |
| Pager.StatusErrorStops | woocommerce_api.py:92-113 | A non-200 status at page j, after pages that all continued, makes page j the last request, with no retry. The result is the records of pages 1..j-1. |
| Pager.WellPagedFetch | woocommerce_api.py:99-110 | Take a store whose answers are all 200 lists, every one full except a possibly shorter non-empty last one. Fetching all pages returns every record in page order. It issues total/per_page + 1 requests: ceil(total/per_page), plus one empty page when the total is a multiple of per_page. |
| Pager.FivePagedByTwo | woocommerce_api.py:99-110 | With page size 2 and pages of 2, 2 and 1 records, the call issues 3 requests and returns all 5 records in order. |
| Boundary.SinceFetch | woocommerce_api.py:52-55 | The incremental poll from `since` issues one request. Its keys are exactly the defaults plus modified_after, with modified_after = since - 300, page 1 and per_page. Its result is page 1's result. |
| Boundary.LastDayFetch | woocommerce_api.py:60-64 | The backfill from `now` runs in all-pages mode. Every request has exactly the defaults plus after = now - 86400, and the request for page i+1 carries page = i+1. The watermark takes no part. |
| Manager.Advance | woocommerce_api.py:43-46 | After one cycle the watermark is either unchanged or the clock. It changes only when the fetch gave a non-empty list and the callback did not raise, and in that case it is the clock. |
| Manager.WatermarkOrigin | woocommerce_api.py:40-50 | After any run of cycles, the watermark is the initial one or the clock of a cycle whose callback returned normally. |
| Manager.WatermarkMonotone | woocommerce_api.py:40-50 | If the clock never goes back and never reads earlier than the initial watermark, the watermark never decreases from one cycle to the next. |
| Manager.WooCommerceManager.constructor | woocommerce_api.py:13-17 | A new manager has no API handle, is not running, and has its watermark one day (86400 s) before construction time. |
| Manager.WooCommerceManager.Initialize | woocommerce_api.py:19-27 | Stores the handle. Reports success exactly when the probe's status is 200. A failed or raising probe leaves the handle set. The flag and the watermark do not change. |
| Manager.WooCommerceManager.StartSync | woocommerce_api.py:29-34 | Afterwards the flag is set. The polling thread is spawned exactly when the flag was clear. Nothing else changes, so a second start is a no-op. |
| Manager.WooCommerceManager.StopSync | woocommerce_api.py:36-38 | Always clears the flag. Nothing else changes. |
| Manager.WooCommerceManager.GetOrders | woocommerce_api.py:69-122 | The imperative page loop returns exactly the result and the request list of `Fetch`, for the current handle. |
| Manager.WooCommerceManager.FetchOrdersSince | woocommerce_api.py:52-58 | Equals the pager on the incremental query: modified_after = since - 300, first page only. |
| Manager.WooCommerceManager.FetchLastDayOrders | woocommerce_api.py:60-67 | Equals the pager on the backfill query: after = now - 86400, all pages. The watermark is not read. |
| Manager.WooCommerceManager.PollOnce | woocommerce_api.py:42-50 | One polling iteration. It fetches from the current watermark and passes a non-empty batch to the callback. It sets the watermark to the clock only when the batch was non-empty and the callback returned normally. An absent or empty result, or a raising callback, leaves the watermark unchanged. The flag and the handle do not change. |
| Manager.WooCommerceManager.PollingLoop | woocommerce_api.py:40-50 | The loop tests the flag only at the top of each iteration. Not running: no cycle runs. Running: cycles run up to and including the first one during which a stop lands, or all of them. The flag ends clear exactly when a stop landed or it was clear. The watermark is the fold of the cycles run. |

## Left out

- Threads and sleeping (lines 32-33, 47, 50). The polling thread and both
  sleeps are not modelled. A concurrent `stop_sync` is modelled as a flag
  on a cycle, which takes effect after that cycle.
- The WooCommerce client (lines 21-22). Building it, HTTPS/TLS and timeouts
  are not modelled. `Initialize` stores an abstract handle and takes the
  probe's answer as input. The client constructor raising is not modelled.
- Configuration lookups (lines 47, 74). The page size is a parameter and
  the polling interval is not modelled.
- `datetime.now`, time zones and `.isoformat()` (lines 17, 46, 54, 62-63).
  Timestamps are integers, the clock is an input, and a filter's value is
  its integer bound, not ISO-8601 text.
- All console output.
- The contents of order records, which the code never inspects.
- The `except` clauses of `fetch_orders_since` and `fetch_last_day_orders`
  (lines 56-58, 65-67). In the model nothing before or inside `get_orders`
  raises past its own handler, so these clauses never fire.
- Exceptions in the polling loop other than those raised by the callback.
  Those from the configuration lookup or the sleep (line 47) happen after
  the watermark update at line 46. They do not change the watermark: the
  handler at lines 48-50 never touches it, and only the 60-second back-off
  differs, which is not modelled. A raise from the clock read at line 46
  itself would leave the watermark unchanged; the model's clock never
  raises.
- The store abstraction. The answers are indexed by the pager's page
  counter, so a caller-supplied `page` parameter (which overrides the
  requested page) is not reflected in what the store answers.
- Pager.AllPagesShape: states that every page before the last has at least
  per_page records, not exactly per_page. The code only compares with
  `<`, so a store returning more records than asked still lets the loop go
  on.
