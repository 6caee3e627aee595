# lapuacore: a verified model

lapuacore is a trading client. A strategy sends, amends and cancels orders through a dealer; the
exchange answers over HTTP, later and in any order; fills arrive on a private feed and may overtake
any answer. Beside the dealer it keeps an order book from snapshots and deltas, the best quote, the
account position, a rate limiter in front of the exchange, and a cache that drops duplicate messages
received on several channels.

This project models those parts and proves what they promise over every run, every history of
messages and every delivery order.

* `Protocol.dfy` gives the dealer as a transition system over values. One event is one public call,
  one agent response, one order-data entry, or one deferred callback; the agent's answer is part of
  the event. `Runs.dfy` splits and joins runs.
* `LifeCycle.dfy`, `Waitlists.dfy`, `Alarms.dfy` and `ForeignOrders.dfy` say a second time, from the side of
  one order, what each event means, and prove that the transition system does exactly that.
* `Partition.dfy`, `Finality.dfy`, `Requests.dfy` and `Deferral.dfy` hold the theorems about runs.
* `Dealer.dfy` is the dealer as the object it is. Its ghost history is a legal run of the protocol and
  its view is where that run ends; every public method adds its own event. The theorems about runs are
  then restated for the object's fields.
* `PriceLevels.dfy`, `Execution.dfy`, `Replay.dfy` and `OrderBook.dfy` are the order book: one side as
  a sorted list, what a market order pays, how messages are merged, and the book with its cached
  best levels.
* `RateLimiter.dfy`, `TtlCache.dfy`, `Feeds.dfy` and `Slices.dfy` are the rest. Each has a small
  functional specification with the theorems, and classes proved against it.

## Main results

1. Every event does to every order exactly what is written down for it: fields, living map and log
   (`LifeCycle.FateHolds`), callback lists and queue (`Waitlists.WaitsHold`). In particular an order becomes
   Done, and for which reason, **if and only if** one of a short list of events occurs
   (`LifeCycle.EndsIff`), a fill ends an order (`LifeCycle.FillsMean`), and the dealer stops accepting if and
   only if a critical error is reported (`Alarms.AcceptingFallsIff`).
2. Every order that was sent is living, or logged as done exactly once, never both and never
   neither; an event keeps this **if and only if** a guard holds that the caller can check
   (`Partition.StepKeepsIff`, `Partition.ExactlyOnePlace`).
3. Done is final: an event keeps the outcome of an ended order (status, reason, price, quantity, fill
   data) **if and only if** a guard holds (`Finality.DoneSurvivesIff`), so the first terminating event
   fixes it for the rest of the run (`Finality.DoneIsFinal`, `Finality.FirstEndingWins`), and late
   responses change nothing.
4. An order never has two requests in flight, and the one it has is the one its status names; again an
   event keeps this if and only if a guard holds (`Requests.StepOneIff`), a calling discipline keeps
   whole runs inside it (`Requests.OneRequestAtATime`), and outside it the overlap is reachable
   (`Requests.RequestsOverlap`).
5. Calls made while a create or an amend is unanswered collapse to one cancel and one amend, whatever
   the callback list held (`Deferral.CallsCoalesce`). Whether they then have the effect asked for is
   decided exactly: when the operation is accepted, for every list, every sequence of calls and every
   order in which the goroutines run (`Deferral.RuleInEveryOrderIff`, and `Deferral.RuleHoldsIff` for
   list order); when the amend is refused (`Deferral.RefusedAmendIff`). For a new order it is the case
   in every order of the goroutines if and only if no amend that changes the order follows a cancel
   (`Deferral.NewOrderInEveryOrderIff`).
6. The walk behind the average execution price is optimal among all allocations, and the average never
   improves with size (`Execution.WalkIsCheapest`, `Execution.WalkEarnsMost`,
   `Execution.GreedyAttains`, `Execution.AskAverageMonotone`, `Execution.BidAverageMonotone`).
7. Merging by sequence id is the naive replay on an ordered feed (`Replay.OrderedFeedIsNaive`). On an
   unordered one, a set of records ends in one book under every delivery if and only if one put tops all
   records at each price where anything is put (`Replay.ConvergesIff`).
8. No one-second window grants more than the capacity, if and only if refunds sleep a full second
   (`RateLimits.WindowBoundIff`). With adds and cleanup interleaved step by step, the duplicate cache
   answers like an ideal one exactly as long as no sweep deletes a renewed entry and no add comes
   between the two steps of another (`TtlCaches.SweepInvisibleIff`, `TtlCaches.LookRightIff`); then an id
   is handled once per time to live (`TtlCaches.AnswerIff`).
9. Quotes and positions converge in every delivery order (`Quotes.QuotesConverge`,
   `Positions.PositionsConverge`), and the in-place multi-delete is right if and only if the indices do
   not mix signs (`Slices.DropsCorrectIff`).

## Where the code and its documentation differ

* README.md:41 says that calls made while an operation is under way are executed when it completes,
  that of several amends only the last is retained, and that a cancel overrides them. Three things are
  in the way.
  Callbacks are handed to goroutines (domains/deals/order.go:435-445), so an amend asked for after a
  cancel may run before it, and the cancel is lost, even for a new order
  (`Deferral.AmendOvertakesCancel`).
  A refused amend runs no callback (domains/deals/dealing_handlers.go:309-313), so a cancel or amend
  queued behind it is not executed (`Deferral.RefusedAmendDropsCancel`); it stays queued for the next
  amend that is accepted.
  The list of amend callbacks is never emptied (domains/deals/order.go:441-445), so every later accepted
  amend runs the old callbacks again. An old amend is sent again with the detail it captured
  (`Deferral.OldAmendComesBack`), and an old cancel, even one the exchange had refused, is sent again
  for an order nobody asked to cancel (`Deferral.OldCancelComesBack`).
* A batch cancel that the agent refuses puts every order it was given back to Pending, not only the
  orders it asked to cancel (domains/deals/dealer.go:297-299). A finished order among them leaves Done
  (`Finality.BatchCancelRevives`), and one whose create is unanswered can get a second request
  (`Requests.RequestsOverlap`).
* `SendOrder` accepts an order that is already Done (domains/deals/dealer.go:71); see
  `Finality.ResendRevives`.
* `RoundToTickSize` is said to round down (domains/insights/orderbook.go:158-160) but truncates towards
  zero. It rounds down if and only if the price is not negative or is a multiple of the tick
  (`Execution.RoundsDownIff`, `Execution.NegativeRoundsUp`).
* `AddIfAbsent` is said to return false for a key that has not expired, and to check and insert
  atomically (internal/gateways/ttl_cache.go:38-40). An expired entry is renewed in a second locked step,
  so two channels that look at one expired key at once both get true
  (`TtlCaches.ConcurrentAddsBothWin`). And an entry renewed between the scan and the deletion of a cleanup
  tick is deleted all the same, so the key is answered true again (`TtlCaches.RenewalIsLost`,
  `TtlCaches.RenewalCanBeLost`).
* A refund is clamped to the capacity (internal/gateways/exchanges/coinex/agent/rate_limiter.go:62-64).
  The clamp is idle as long as nobody asks for a negative number of units; if somebody did, units could
  be lost for good (`RateLimits.NegativeRequestLeaks`). `consume` is not exported and its callers pass
  one or the size of a batch, so nobody does.
* `Drops` handles each index after correcting it by the number of indices before it, so negative
  indices, which delete nothing, still shift the ones after them (mutex/slice.go:111-115).

## Model

| member | source | states |
|---|---|---|
| `LifeCycle.FateHolds` | domains/deals/dealing_handlers.go:27-344 | For every possible event and every order: type, status, reason, price, quantity, average price, executed quantity, fee, pending amend detail, presence in the living map and number of log entries become exactly what the fate of the order, written out event by event, says; batch answers order by order. |
| `LifeCycle.EndsIff` | domains/deals/dealing_handlers.go:255-298 | An order that is not Done becomes Done with a reason if and only if: a full fill (Filled); a partial fill of an IOC order (PartiallyFilledAndCanceled); an error-free cancel answer, single or in a batch (Canceled); an amend or cancel answer that the order does not exist (Abandoned); a create error, or a send the agent refuses (Rejected); each with the status and presence it needs. |
| `LifeCycle.EndedIsLogged` | domains/deals/dealing_handlers.go:255-298 | And then, within the calling discipline, it is out of the living map and in the log exactly once. |
| `LifeCycle.FillsMean` | domains/deals/dealing_handlers.go:207-229 | A full fill of a living order sets the three fill fields from the data and ends it as Filled; a partial fill sets them and ends IOC orders only; any other data, and data for another order, changes nothing. |
| `LifeCycle.NewIsBorn` | domains/deals/order.go:547-558 | A new order is Born with its price and quantity, not living and not logged. |
| `LifeCycle.BatchIsEachCancel` | domains/deals/dealer.go:262-295 | An accepted batch cancel does to each order it names, and to its queued detail, what a single accepted cancel would, and nothing to others. |
| `Waitlists.WaitsHold` | domains/deals/dealer.go:140-241 | For every possible event and every order: callback lists and queued detail change by amend calls, cancel calls, batch cancels, client callbacks and running amends only, as the order's type and status say; takers get no create callback, and only limit and maker orders an amend callback. |
| `Waitlists.StartedByAnswers` | domains/deals/order.go:435-445 | Exactly the callbacks of an accepted create or amend are handed to goroutines, in list order. |
| `Alarms.AcceptingFallsIff` | domains/deals/dealing_handlers.go:169-181 | In one event the dealer stops accepting if and only if a critical error is reported: not for information, warnings or HTTP errors, and not when an amended or canceled order no longer exists; for batches, if some order's answer is critical. |
| `ForeignOrders.ForeignStep` | domains/deals/dealing_handlers.go:190-205 | One event: a foreign order is remembered when opened, and logged once and forgotten when it ends; no other event touches it. |
| `ForeignOrders.ForeignLoggedPerPair` | domains/deals/dealing_handlers.go:190-205 | In every run a foreign order is in the log once for each time it was opened and then ended. |
| `Partition.StepKeepsIff` | domains/deals/dealer.go:67-301 | Any event, in any state that satisfies the partition (living iff the status is Sending, Pending, Amending or Canceling; logged once iff Done with a reason; never logged otherwise), keeps it if and only if: a send that passes the dealer's checks names unsent orders, listed once if the agent refuses a batch; a refused batch cancel with a target names only living orders. |
| `Partition.SendOrderIff` | domains/deals/dealer.go:67-87 | A send keeps the partition exactly when the order is still Born or the dealer turns it away. |
| `Partition.SendOrdersIff` | domains/deals/dealer.go:89-114 | A batch send keeps it exactly when all orders are Born and, if the agent refuses, no order is listed twice (it would be logged twice). |
| `Partition.CancelOrdersIff` | domains/deals/dealer.go:262-301 | A batch cancel keeps it exactly when the agent accepts, nothing was Pending, or all named orders are living. |
| `Partition.RunKeeps` | domains/deals/dealing_handlers.go:184-344 | The partition holds after every legal run whose events respect the guard. |
| `Partition.ExactlyOnePlace` | domains/deals/dealing_handlers.go:255-344 | From an empty dealer, after any such run, an order that left Born is living and unlogged, or not living and logged exactly once (exports included), Done, with a reason. |
| `Finality.DoneSurvivesIff` | domains/deals/dealing_handlers.go:43-298 | Any event, in any state in which the order is Done and not living, keeps its type, status, reason, price, quantity, average price, executed quantity and fee if and only if it is not an accepted re-send (unless refused again after a refusal) and not a refused batch cancel with a target that names the order; what it does to other orders does not matter. |
| `Finality.DoneIsFinal` | domains/deals/dealing_handlers.go:43-298 | The outcome is fixed over every run whose events satisfy that guard for the order, and the order stays out of the living map. |
| `Finality.DisciplineSpares` | domains/deals/dealer.go:67-114 | A run in which orders are sent once and refused batch cancels name living orders satisfies the guard for every Done order. |
| `Finality.FirstEndingWins` | domains/deals/dealing_handlers.go:255-298 | In every run from an empty dealer in which orders are sent once and refused batch cancels name living orders, what is Done after a prefix has the same outcome at the end. |
| `Finality.StaleResponseIsInert` | domains/deals/dealing_handlers.go:43-165 | A create, amend or cancel response for an ended order does nothing but cease to be outstanding. |
| `Finality.StaleBatchIsInert` | domains/deals/dealing_handlers.go:27-39 | A batch answer for ended orders does nothing but that, except that a transport error is still noticed. |
| `Finality.FailedBatchCancelRevives` | domains/deals/dealer.go:297-299 | In every state that satisfies the partition, a refused batch cancel with a target revives each Done order it names: Pending, not living, still logged, the partition broken. |
| `Finality.BatchCancelRevives` | domains/deals/dealer.go:297-299 | A concrete run from an empty dealer in which that happens to an order already logged and exported. |
| `Finality.ResendRevives` | domains/deals/dealer.go:71-78 | A concrete run in which a rejected order is sent again and becomes Sending while logged as done. |
| `Requests.IssueAmendIff` | domains/deals/dealer.go:181-209 | The amend proper keeps one request per order exactly when it does not fail on an order that is living, not Pending and has a request in flight. |
| `Requests.StepOneIff` | domains/deals/dealer.go:181-259 | Any event keeps "none when Born or Pending, at most a create when Sending, exactly an amend when Amending, exactly a cancel when Canceling, at most one when Done" if and only if the stated overlap does not occur. |
| `Requests.RunKeepsOne` | domains/deals/dealing_handlers.go:43-165 | In runs where orders are sent once, refused batch cancels name orders without a request, and no amend is asked for while one is under way or waiting, the request invariant and the callback-list invariant both hold throughout; deferred callbacks may run at any time and in any order. |
| `Requests.OneRequestAtATime` | domains/deals/dealing_handlers.go:43-165 | From an empty dealer, each order has at most its one request in flight after every such run. |
| `Requests.RequestsOverlap` | domains/deals/dealer.go:287-299 | A concrete run of seven events, with a refused batch cancel, that leaves an order with a create and a cancel in flight at once. |
| `Deferral.CallsCoalesce` | domains/deals/dealer.go:140-241 | Any sequence of amend and cancel calls behind a create or an amend, with any callback list, leaves [one cancel in place of the list if there was a cancel, else the list] + [one amend if an amend followed the last cancel and none was waiting], the detail of the last such amend, and nothing else changed. |
| `Deferral.RuleInEveryOrderIff` | domains/deals/order.go:435-445 | When the create or amend is accepted, exactly the operation asked for is issued (the cancel if any, else the last amend if it changes anything, else none) in every order in which the goroutines may run, if and only if: with a cancel among the calls, no amend after it changes the order; without one, the list left behind holds no cancel and its amends agree (at most one, or none captured anything but the present and the last detail). For every list, every sequence of calls and every accepted detail. |
| `Deferral.RuleHoldsIff` | domains/deals/order.go:435-445 | The same for the goroutines running in list order: there a cancel among the calls always wins, and otherwise the list must be harmless. |
| `Deferral.OrdersAreSchedules` | domains/deals/order.go:435-445 | The schedules of the goroutines are exactly the orders of the list, and running a schedule is firing that order. |
| `Deferral.RefusedAmendIff` | domains/deals/dealing_handlers.go:309-313 | When the amend is refused, no callback runs: the calls have the effect asked for if and only if they ask for nothing, and what they queued stays in the list and the queue. |
| `Deferral.GoneAmendEnds` | domains/deals/dealing_handlers.go:96-101 | When the exchange no longer knows the order, it ends as abandoned and the calls issue nothing. |
| `Deferral.RefusedCreateEnds` | domains/deals/dealing_handlers.go:49-54 | When the create is refused, the order ends as rejected and the calls issue nothing. |
| `Deferral.NewOrderInEveryOrderIff` | domains/deals/dealing_handlers.go:282-290 | With only client callbacks in the list, as for a new order, the calls have the effect asked for in every order of the goroutines if and only if there was no cancel, or no amend after it, or the last of these changes nothing. |
| `Deferral.OneOperationAfterCreate` | domains/deals/dealing_handlers.go:282-290 | With only client callbacks in the list and the goroutines in list order, the calls always have exactly the effect asked for; callbacks of other orders may be waiting. |
| `Deferral.SentMakerIsFresh` | domains/deals/dealer.go:67-87 | What a send of a new maker order produces meets the conditions of the results for new orders. |
| `Deferral.AmendBehindAmendIff` | domains/deals/order.go:441-445 | In list order, with a detail queued and any callback list, the queued amend wins if and only if no cancel runs before the first amend of the list and every later amend captured the accepted or the queued detail (and, if these are equal, no cancel follows). The queued detail is the last one asked for behind the amend under way, except that one queued behind an earlier, refused amend survives it and overrides the amend asked for since. |
| `Deferral.AcceptedAmendSticksIff` | domains/deals/order.go:441-445 | With nothing queued and any callback list, an accepted amend stays if and only if every retained callback is the client's or captured that very detail. |
| `Deferral.RetainedCancelFiresIff` | domains/deals/order.go:430-445 | A cancel in the list is sent again at the next acceptance, alone and in every order of the goroutines, if and only if no amend of the list can change the order. |
| `Deferral.RetainedCancelFires` | domains/deals/order.go:430-445 | In list order it is sent again whenever only client callbacks come before it, whatever follows and whatever was asked since. |
| `Deferral.OldAmendComesBack` | domains/deals/dealer.go:140-172 | A concrete run of twelve events in which the last amend was accepted and the dealer then amends back to an earlier one. |
| `Deferral.OldCancelComesBack` | domains/deals/dealer.go:223-241 | A concrete run of eleven events in which a cancel the exchange refused is sent again after a later amend was accepted. |
| `Deferral.RefusedAmendDropsCancel` | domains/deals/dealing_handlers.go:309-313 | A concrete run of six events in which the amend is refused and the cancel queued behind it is not sent. |
| `Deferral.AmendOvertakesCancel` | domains/deals/order.go:435-439 | A concrete run of seven events: a new order is canceled and then amended, the amend's goroutine runs first, and the cancel is lost. |
| `Protocol.AmongWithin` | domains/deals/dealing_handlers.go:27-28 | The status lookup of a batch response finds exactly the listed living orders with that status. |
| `Dealing.Dealer.EachOrderInOnePlace` | domains/deals/dealing_handlers.go:255-344 | For the object's own fields, after every disciplined history: an order that was sent is in the living map and unlogged, or Done with a reason and in the done and exported logs exactly once. |
| `Dealing.Dealer.EachOrderOneRequest` | domains/deals/dealer.go:181-259 | After every orderly history, each order object has at most the one request in flight that its status names. |
| `Dealing.Dealer.DoneStaysDone` | domains/deals/dealing_handlers.go:255-298 | Between any two points of a disciplined history, an order object that was Done keeps its outcome. |
| `Dealing.Dealer.AllFated` | domains/deals/dealing_handlers.go:27-344 | After any one event of the history, every order object, with the maps and logs, shows exactly what the fate of the order says. |
| `Dealing.Dealer.AcceptedCancelEnds` | domains/deals/dealing_handlers.go:292-298 | On the object's fields: an order being canceled that gets an error-free answer is Done, Canceled, out of the living map and logged once more. |
| `Dealing.Dealer.Register` | domains/deals/order.go:547-558 | A new order is one event; orders start Born. |
| `Dealing.Dealer.SendOrder` | domains/deals/dealer.go:67-87 | One send event of the history, and which error is returned when. |
| `Dealing.Dealer.SendOrders` | domains/deals/dealer.go:89-114 | The three loops are one batch-send event, all or none admitted, and which error is returned when. |
| `Dealing.Dealer.AmendOrder` | domains/deals/dealer.go:135-179 | One amend event: direct, queued behind the create, queued behind the amend, or nothing; and exactly when each error is returned, by the order's fields. |
| `Dealing.NoErrorMeans` | domains/deals/dealer.go:135-179 | When an amend call returns no error, the order is Done, or the detail is queued, or it is being amended to, or it changes nothing. |
| `Dealing.ErrorMeans` | domains/deals/dealer.go:135-179 | When it returns one, nothing was queued or asked and the order has the status and the requests it had. |
| `Dealing.Dealer.IssueAmend` | domains/deals/dealer.go:181-209 | The new view is the protocol's amend proper, with its limit, its no-change test and both ways to fail, and the error is the one that belongs to it. |
| `Dealing.Dealer.CancelOrder` | domains/deals/dealer.go:223-243 | One cancel event: direct, or in place of everything queued. |
| `Dealing.Dealer.IssueCancel` | domains/deals/dealer.go:245-259 | The new view is the protocol's cancel proper; no error exactly when the order is being canceled or the agent accepts, and which error otherwise. |
| `Dealing.Dealer.Unique` | domains/deals/order.go:78-88 | The same orders, each once. |
| `Dealing.Dealer.DeferOrCollect` | domains/deals/dealer.go:273-286 | Cancels of Sending and Amending orders are queued and the Pending orders, no others, are collected. |
| `Dealing.Dealer.CancelOrders` | domains/deals/dealer.go:262-301 | The loops together are one batch-cancel event over the set of orders named, for batches with repetitions too. |
| `Dealing.Dealer.ExportDoneOrders` | domains/deals/dealer.go:322-328 | Returns the log; one export event. |
| `Dealing.Dealer.OrdersWith` | domains/deals/dealing_handlers.go:27-28 | Finds the listed living orders with a status, in list order. |
| `Dealing.Dealer.HandleSendOrderResp` | domains/deals/dealing_handlers.go:43-75 | One create-response event; the order's fields, map entry and log follow the error and the type, and no other order changes. |
| `Dealing.Dealer.HandleSendOrdersResp` | domains/deals/dealing_handlers.go:27-39 | One batch-response event; each named order fares as with its own answer, or as with an error if the transport failed, and no other order changes. |
| `Dealing.Dealer.HandleAmendOrderResp` | domains/deals/dealing_handlers.go:91-119 | One amend-response event: price and quantity taken over, or Pending again, or abandoned; no other order changes. |
| `Dealing.Dealer.HandleCancelOrderResp` | domains/deals/dealing_handlers.go:137-165 | One cancel-response event: an order being canceled becomes Done and Canceled and leaves the living map without error, Done and Abandoned if it no longer exists, and Pending otherwise; no other order changes. |
| `Dealing.Dealer.HandleCancelOrdersResp` | domains/deals/dealing_handlers.go:121-133 | One batch-response event; each named order fares as with its own answer, or is Pending again if the transport failed, and no other order changes. |
| `Dealing.Dealer.NoticeError` | domains/deals/dealing_handlers.go:169-181 | Errors other than info, warning and HTTP stop the dealer from accepting. |
| `Dealing.Dealer.HandleEntry` | domains/deals/dealing_handlers.go:185-229 | One data event: a filled order has the data's average price, executed quantity and fee, is Done and Filled and has left the living map; partial fills and other data as written; no other order changes. |
| `Dealing.Dealer.HandleOrderData` | domains/deals/dealing_handlers.go:184-235 | One such event for each entry, in order. |
| `Dealing.Dealer.TrackForeign` | domains/deals/dealing_handlers.go:190-205 | Foreign orders are remembered when opened and logged once when done. |
| `Dealing.Dealer.Finish` | domains/deals/dealing_handlers.go:255-298 | The common end of an order: Done with a reason, out of the living map, into the log. |
| `Dealing.Dealer.AcceptCreate` | domains/deals/dealing_handlers.go:282-290 | Pending, and every create callback is handed to a goroutine in list order. |
| `Dealing.Dealer.AcceptAmend` | domains/deals/dealing_handlers.go:273-280 | Pending with the new price and quantity, and every amend callback is handed to a goroutine. |
| `Dealing.Dealer.RejectAmend` | domains/deals/dealing_handlers.go:309-313 | Pending, with no amend detail. |
| `Dealing.Dealer.RejectCancels` | domains/deals/dealing_handlers.go:332-339 | Every listed order becomes Pending, whatever it was. |
| `Dealing.Dealer.RejectCreates` | domains/deals/dealing_handlers.go:315-322 | Every listed order ends as Rejected, one log entry for each listing. |
| `Dealing.Dealer.RunDeferred` | domains/deals/dealer.go:140-150 | One callback event: a deferred amend takes the queued detail if there is one, else its own, and removes the queue entry; a deferred cancel cancels. |
| `Execution.WalkIsCheapest` | domains/insights/price_level.go:114-131 | On asks, no allocation of the quantity within the levels' volumes costs less than the walk. |
| `Execution.WalkEarnsMost` | domains/insights/price_level.go:114-131 | On bids, no allocation earns more than the walk. |
| `Execution.GreedyAttains` | domains/insights/price_level.go:118-128 | For a quantity up to the total volume the walk is itself such an allocation, with that cost. |
| `Execution.AskAverageBetween` | domains/insights/price_level.go:114-131 | The ask average lies between the best price and the price of the last level touched. |
| `Execution.AskAverageMonotone` | domains/insights/price_level.go:114-131 | Buying more never lowers the average, up to the total volume. |
| `Execution.BidAverageBetween` | domains/insights/price_level.go:114-131 | The bid average lies between the price of the last level touched and the best price. |
| `Execution.BidAverageMonotone` | domains/insights/price_level.go:114-131 | Selling more never raises the average, up to the total volume. |
| `Execution.AverageBeyond` | domains/insights/price_level.go:114-131 | Beyond the total volume, on either side, the average is the cost of the whole side over the quantity asked for, and falls with size if and only if that cost is positive. |
| `Execution.WalkBeyond` | domains/insights/price_level.go:118-128 | Beyond the total volume the walk pays for the whole side and no more. |
| `Execution.RoundsDownIff` | domains/insights/orderbook.go:158-164 | The rounded price is the multiple of the tick below, as documented, if and only if the price is not negative or is itself a multiple. |
| `Execution.RoundsTowardsZero` | domains/insights/orderbook.go:161-164 | The rounded price is a multiple of the tick, not farther from zero than the price and less than a tick away. |
| `Execution.NegativeRoundsUp` | domains/insights/orderbook.go:158-164 | A negative price that is rounded up. |
| `Execution.RoundingMonotone` | domains/insights/orderbook.go:161-164 | Truncation to the tick size is monotone over all prices. |
| `Execution.ReportedAverageMonotone` | domains/insights/orderbook.go:188-208 | The averages the book reports, rounded to the tick size, are as monotone in quantity as the exact ones. |
| `Execution.VolSumMap` | domains/insights/orderbook.go:210-230 | The loop stores, at each price, the volume from the best level down to it; with positive volumes the map has exactly the book's prices. |
| `Execution.CumulativeIsSum` | domains/insights/orderbook.go:210-230 | The entry of that map at a price equals the cumulative volume query at the price. |
| `Execution.SumMonotone` | domains/insights/price_level.go:96-109 | The query does not decrease from best to worst, for any pair of prices, listed or not. |
| `PriceLevels.OneListing` | domains/insights/price_level.go:22-33 | A side has one sorted listing: contents by price determine the order of iteration. |
| `PriceLevels.InsertContents` | domains/insights/price_level.go:43 | Insertion into the sorted list is update at one price. |
| `PriceLevels.RemoveContents` | domains/insights/price_level.go:52-56 | Deletion from the sorted list is removal of one price. |
| `PriceLevels.PriceLevelMap.Set` | domains/insights/price_level.go:35-44 | A level with volume replaces the one at its price, one without removes it; order and absence of empty levels are kept. |
| `PriceLevels.PriceLevelMap.Get` | domains/insights/price_level.go:46-50 | The level at a price, if any. |
| `PriceLevels.PriceLevelMap.Drop` | domains/insights/price_level.go:52-56 | Removes one price. |
| `PriceLevels.PriceLevelMap.Replace` | domains/insights/price_level.go:64-68 | Takes over another side's levels. |
| `PriceLevels.PriceLevelMap.BestLevel` | domains/insights/price_level.go:80-89 | The level before all others, or the zero level when there is none. |
| `PriceLevels.PriceLevelMap.SumVolume` | domains/insights/price_level.go:96-109 | The loop that stops at the first worse price computes the volume at or better than the price over the whole side. |
| `PriceLevels.PriceLevelMap.WeightedSum` | domains/insights/price_level.go:115-128 | The traversal computes the cost of the walk. |
| `PriceLevels.PriceLevelMap.AvgExecPrice` | domains/insights/price_level.go:114-131 | That cost divided by the quantity. |
| `PriceLevels.PriceLevelMap.Top` | domains/insights/orderbook.go:232-248 | The best levels up to the depth, but one level for a depth of one or less. |
| `Replay.DeltasClosedForm` | domains/insights/orderbook_handlers.go:61-91 | After any deltas from any book, the row at a price is the old one exactly when it was at least as new as every record for the price, and otherwise does not depend on the book. |
| `Replay.ReapplyIsIdle` | domains/insights/orderbook_handlers.go:58-140 | Applying any delta or snapshot a second time at once changes nothing. |
| `Replay.DeltaRow` | domains/insights/orderbook_handlers.go:61-91 | What a delta leaves at a price it names: the row before if at least as new, else nothing for a removal, else its record. |
| `Replay.SnapshotRow` | domains/insights/orderbook_handlers.go:103-117 | What a snapshot leaves at a price it names: nothing for a removal, the row before if strictly newer, else its own row. |
| `Replay.SnapshotElsewhere` | domains/insights/orderbook_handlers.go:103-117 | A price that a non-empty snapshot does not name is gone. |
| `Replay.SeqNeverDecreases` | domains/insights/orderbook_handlers.go:58-140 | Across a message with one sequence id, a price that stays never gets an older id. |
| `Replay.MixedIdsCanDecrease` | domains/insights/orderbook_handlers.go:61-75 | Within a message of mixed ids it can: a removal leaves no trace of its id. |
| `Replay.CommuteIff` | domains/insights/orderbook_handlers.go:61-91 | Two records commute on every book if and only if they concern different prices, are equal, are both removals, are puts with different ids, or the put is at least as new as the removal. |
| `Replay.ConvergesIff` | domains/insights/orderbook_handlers.go:61-91 | Every delivery of a set of records, in any order, with any duplication and from any book, ends in the same book if and only if, at each price where anything is put, one put is newer than every other put and at least as new as every removal. |
| `Replay.DeliveryOrderIrrelevant` | domains/insights/orderbook_handlers.go:61-91 | Two deliveries of such records end in the same book. |
| `Replay.NewestRecordWins` | domains/insights/price_level.go:149-151 | Without removals each price holds a record (or the old row) with the highest id for that price. |
| `Replay.RemovalFreeConverges` | domains/insights/orderbook_handlers.go:61-91 | Without removals, and with one record per price and id, every delivery of the same records ends in the same book. |
| `Replay.OrderedFeedIsNaive` | domains/insights/orderbook_handlers.go:58-140 | With strictly increasing ids and distinct prices per message, merging by id equals the replay that ignores ids. |
| `OrderBooks.UpdateByDelta` | domains/insights/orderbook_handlers.go:58-96 | The loop over one side applies every record in order, skipping those not newer than their row. |
| `OrderBooks.ResetBySnapshot` | domains/insights/orderbook_handlers.go:98-140 | The two loops build the snapshot's rows with newer existing rows kept; an empty side changes nothing. |
| `OrderBooks.OrderBook.UpdateByOBData` | domains/insights/orderbook_handlers.go:18-56 | After every message both sides are what their whole history gives, and the cached current and previous best levels are the best levels after the last message and after the one before. |
| `OrderBooks.OrderBook.IsReady` | domains/insights/orderbook.go:119-126 | Ready if and only if at least two messages were handled. |
| `OrderBooks.OrderBook.GetDiffBestAsk` | domains/insights/orderbook.go:73-82 | Field by field, the best ask after the last message minus the one after the message before. |
| `OrderBooks.OrderBook.GetDiffBestBid` | domains/insights/orderbook.go:84-93 | Field by field, the best bid after the last message minus the one after the message before. |
| `OrderBooks.OrderedBookIsNaive` | domains/insights/orderbook_handlers.go:58-140 | On an ordered feed the asks are the naive replay of the messages' asks and the bids that of their bids, each row under its own price and none without volume. |
| `OrderBooks.RowsComeFromTheirSide` | domains/insights/orderbook_handlers.go:61-133 | On any feed every row of the asks is one of some message's asks, and every row of the bids one of some message's bids. |
| `OrderBooks.OrderBook.SidesAreTheirOwn` | domains/insights/orderbook_handlers.go:18-46 | The same for the object's two sides, whose best levels are the cached ones. |
| `OrderBooks.BestOf` | domains/insights/price_level.go:80-89 | Every side has a best level, and the cached one is it. |
| `OrderBooks.DiffsTelescope` | domains/insights/orderbook.go:73-93 | Over any history, the first best price plus the differences told to the client is the present best price, and the same for volumes. |
| `RateLimits.WindowBound` | internal/gateways/exchanges/coinex/agent/rate_limiter.go:48-68 | In every run of requests for non-negative numbers and refunds that sleep at least a second, every half-open one-second window grants at most the capacity. |
| `RateLimits.WindowBoundIff` | internal/gateways/exchanges/coinex/agent/rate_limiter.go:57-65 | That bound holds for every capacity and every run if and only if refunds sleep at least a second. |
| `RateLimits.QuotaConserved` | internal/gateways/exchanges/bybit/agent/rate_limiter.go:54-74 | In every run, free units plus units to be refunded are the capacity. |
| `RateLimits.ConsumeBalancedIff` | internal/gateways/exchanges/coinex/agent/rate_limiter.go:52-55 | A request keeps the balance (free plus sleeping units are the capacity, none negative) if and only if it is not for a negative number. |
| `RateLimits.RefundBalanced` | internal/gateways/exchanges/coinex/agent/rate_limiter.go:57-65 | A refund keeps the balance, and its clamp does not take effect. |
| `RateLimits.EarlyRefundBreaksBound` | internal/gateways/exchanges/coinex/agent/rate_limiter.go:58 | For every shorter sleep, a run of three events grants two units of a capacity of one within a second. |
| `RateLimits.NegativeRequestLeaks` | internal/gateways/exchanges/coinex/agent/rate_limiter.go:55-64 | A run with a negative request, which no caller makes, after which nothing sleeps and a quarter of the capacity is gone. |
| `RateLimits.RateLimiter.Consume` | internal/gateways/exchanges/coinex/agent/rate_limiter.go:48-68 | For any number and any group: grants exactly when the number is at most the units left, which then fall by it; the group steps and the others do not change; a group that is not in the table has a capacity of zero. |
| `RateLimits.RateLimiter.GroupWithinLimit` | internal/gateways/exchanges/coinex/agent/rate_limiter.go:22-44 | For the object: as long as nobody asked for a negative number, every one-second window of every group is within its limit and nothing has leaked. |
| `RateLimits.RateLimiter.WakeUp` | internal/gateways/exchanges/bybit/agent/rate_limiter.go:63-71 | One refund event of its own group; it adds exactly the units of its grant unless somebody asked for a negative number. |
| `TtlCaches.CachesAgree` | internal/gateways/ttl_cache.go:41-83 | As long as no sweep deletes a renewed entry and no add comes between the two steps of another add of its key, the cache differs from an ideal one (never cleaned, adds in one step) only by expired entries and renewals under way; for any interleaving of looks, renewals, scans, marks and sweeps. |
| `TtlCaches.CleaningInvisible` | internal/gateways/ttl_cache.go:41-83 | Then every answer is that of the ideal cache. |
| `TtlCaches.SweepInvisibleIff` | internal/gateways/ttl_cache.go:70-79 | From a sweep on, every key not being renewed gets the ideal answer if and only if the sweep deleted no renewed entry. |
| `TtlCaches.LookRightIff` | internal/gateways/ttl_cache.go:41-53 | An add gets the ideal answer if and only if every renewal of its key under way is itself more than the time to live old. |
| `TtlCaches.ConcurrentAddsBothWin` | internal/gateways/ttl_cache.go:43-50 | Two channels look at one expired key before either renews it: both answers are true. |
| `TtlCaches.OneAtATimeIsCareful` | internal/gateways/ttl_cache.go:41-83 | If every add and every tick runs without interruption, both conditions hold. |
| `TtlCaches.RenewalIsLost` | internal/gateways/ttl_cache.go:70-79 | From every large cache with an expired key: if the key is added again between its mark and the sweep, its next message is answered true at once. |
| `TtlCaches.RenewalCanBeLost` | internal/gateways/ttl_cache.go:65-79 | Whole histories in which that happens, one for every size above the threshold. |
| `TtlCaches.AnswerIff` | internal/gateways/ttl_cache.go:41-53 | Under the two conditions, an add answers true if and only if every earlier true answer for its key is more than the time to live old. |
| `TtlCaches.OncePerWindow` | internal/gateways/dedup_topic.go:20-26 | Under the two conditions, two messages with one id that were both passed on are more than the time to live apart, on whatever channels. |
| `TtlCaches.FirstAlwaysHandled` | internal/gateways/dedup_topic.go:20-26 | The first message with an id is never dropped, whatever the cleanup does. |
| `TtlCaches.SafeMap.SetIfAbsent` | mutex/map.go:48-57 | Returns the existing value or inserts the new one. |
| `TtlCaches.SafeMap.GetKeys` | mutex/map.go:20-28 | Every key, each once. |
| `TtlCaches.SafeMap.BulkDelete` | mutex/map.go:83-89 | Removes the listed keys and nothing else. |
| `TtlCaches.TtlCache.LookUp` | internal/gateways/ttl_cache.go:42-47 | The first step of an add: the object follows its history, the answer is the one the theorems are about, and it says whether the entry is to be renewed. |
| `TtlCaches.TtlCache.RenewEntry` | internal/gateways/ttl_cache.go:47-50 | The second step, after which other channels may already have come; one renewal event. |
| `TtlCaches.TtlCache.AddIfAbsent` | internal/gateways/ttl_cache.go:41-53 | Both steps without interruption. |
| `TtlCaches.TtlCache.StartTick` | internal/gateways/ttl_cache.go:65-71 | A tick starts with the keys of the moment, if the cache is above the threshold. |
| `TtlCaches.TtlCache.MarkKey` | internal/gateways/ttl_cache.go:73-77 | One key is looked at, with the time the scan began; one mark event. |
| `TtlCaches.TtlCache.FinishTick` | internal/gateways/ttl_cache.go:78-80 | The keys found expired are deleted; one sweep event. Adds may have come in between. |
| `TtlCaches.TtlCache.CleanupTick` | internal/gateways/ttl_cache.go:64-80 | A tick without interruption: a scan, a mark for every key, and a sweep. |
| `TtlCaches.DedupTopic.MsgHandler` | internal/gateways/dedup_topic.go:20-26 | A message is passed on exactly when it has no id or the shared cache answers true for it. |
| `Quotes.QuoteOrderIff` | domains/insights/quote.go:207-214 | Two messages may arrive in either order, whatever is shown, if and only if they are equal or one is not after the other in both counts and before it in one. |
| `Quotes.LastMessageShown` | domains/insights/quote.go:196-228 | Every delivery of a chain, in any order and with any duplication, ends at its greatest message. |
| `Quotes.QuotesConverge` | domains/insights/quote.go:196-228 | Two deliveries of the same chain show the same. |
| `Quotes.NeverGoesBack` | domains/insights/quote.go:207-217 | Sequence id and execution time never decrease, whatever arrives. |
| `Quotes.Quote.Update` | domains/insights/quote.go:196-228 | The object shows what the specification shows, and records the previous best levels even for stale messages. |
| `Positions.LatestWins` | domains/deals/dealing_handlers.go:354-364 | The final position is that of the latest arrival among the greatest timestamps not before the start: its quantity if bought, minus its quantity if sold, zero without a side; a client reads back its side and quantity. |
| `Positions.ReadsBack` | domains/deals/position.go:17-25 | The side and size read from a position are those of the message it came from. |
| `Positions.SomeDecides` | domains/deals/dealing_handlers.go:354-364 | There is such a message unless all are before the start. |
| `Positions.OldNewsIgnored` | domains/deals/dealing_handlers.go:356 | If all are before the start, the initial position stays. |
| `Positions.PositionsConverge` | domains/deals/dealing_handlers.go:347-370 | With distinct timestamps every arrival order, with any duplication, ends in the same position. |
| `Positions.Tracker.Extract` | domains/deals/dealing_handlers.go:377-397 | A message is usable if and only if it is a single one-way entry. |
| `Positions.Tracker.HandlePositionData` | domains/deals/dealing_handlers.go:347-370 | A usable message not before the last sets value (plus for Buy, minus for Sell, zero without side) and time; any other changes nothing. |
| `Positions.Tracker.GetQty` | domains/deals/position.go:40-43 | Side and size of the value, from which the value can be recovered. |
| `Slices.LoopDeletesListed` | mutex/slice.go:108-121 | For indices that are not negative, the in-place loop leaves exactly the elements whose position was not listed, in order. |
| `Slices.DropsCorrectIff` | mutex/slice.go:108-121 | The loop deletes the listed positions of every list if and only if the indices are all negative or none is. |
| `Slices.MixedSignsGoWrong` | mutex/slice.go:111-115 | For every mixed index list there is a list on which the loop goes wrong. |
| `Slices.AppendsKeepLast` | mutex/slice.go:35-57 | Appending one by one to a bounded slice keeps the most recent elements, which is what a merge keeps. |
| `Slices.UniqueSorted` | mutex/slice.go:123-134 | Strictly increasing, with the same elements. |
| `Slices.Compact` | mutex/slice.go:127-132 | Dropping equal neighbours of a sorted list leaves a strictly increasing list of the same elements. |
| `Slices.Slice.constructor` | mutex/slice.go:14-23 | A copy of the source, cut to the bound from the front. |
| `Slices.Slice.DropAt` | mutex/slice.go:101-106 | Shifting in place removes one position and keeps the rest in order. |
| `Slices.Slice.Drops` | mutex/slice.go:80-84 | With repeated, unsorted and out-of-range indices the result is the deletion loop on the sorted indices; with none negative it is the elements not listed. |
| `Slices.Slice.Append` | mutex/slice.go:35-43 | A full slice loses its first element. |
| `Slices.Slice.AppendHead` | mutex/slice.go:25-33 | A full slice loses its last element. |
| `Slices.Slice.Merge` | mutex/slice.go:45-57 | The most recent elements of both, as appending one by one would give. |

## Left out

- Batch amend (domains/deals/dealer.go:128-131) is a stub, and its response handler has no caller.
- HTTP agents, request signing, message translators and JSON: the agent is the environment, which either refuses at once or owes exactly one response.
- WebSocket channels, health checks, topic subscription, configuration, secrets, metrics, notifications and display.
- Goroutine scheduling below one event: each public call, response, data entry and deferred callback is one atomic step, although the code looks an order up before it takes the order's lock.
- Data races and the locks themselves.
- A transport error and an error inside a response are one `err` in the single-order handlers, which treat them alike.
- Timestamps, memo, public id and side of an order, and client callbacks other than those on create and amend; none of them influences a status.
- The done log holds order ids and not pointers, so what a client reads later through an exported pointer is the order's current state.
- Decimal division is exact; the sixteen digits of the decimal library are not modelled.
- The B-tree is a sorted list; its balancing is not modelled.
- Update callbacks of the book and the quote, handlers called on a position update, and log messages.
- `CalcBestPrice`, size and quantity conversions, plain getters and setters, and the string forms of enumerations: each would add one-branch facts only.
- PriceLevels.PriceLevelMap.AvgExecPrice: requires a quantity other than zero, because the source panics on the division.
- OrderBooks.OrderBook.GetDiffBestAsk: requires two messages, because the source dereferences nil before that; the same holds for GetDiffBestBid.
- Replay.SeqNeverDecreases: requires one sequence id per message, which both exchanges' translators produce; without it the claim is false (MixedIdsCanDecrease).
- Deferral.CallsCoalesce: is stated for an accepting dealer and the order types that can be amended; an amend call on another type queues a detail that no callback will use.
- Deferral.RuleInEveryOrderIff: supposes that the agent takes what the callbacks ask and that nothing else happens to the order while they run; the limit of 9500 amends is excluded, which no order reaches because the source never counts one.
- Deferral.OneOperationAfterCreate: is about list order; NewOrderInEveryOrderIff is the result for every order.
- Execution.AskAverageBetween: is about quantities up to the total volume, as are BidAverageBetween, AskAverageMonotone, BidAverageMonotone and ReportedAverageMonotone; AverageBeyond says what happens above.
