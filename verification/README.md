# A verified model of the limit order book engine

The repository is a low-latency matching engine: an arena-based limit order book, a facade
that counts what it does, a single-producer single-consumer ring that feeds it, an
asynchronous logger behind a second ring, and the tools around it (latency histogram,
workload generator, replay files). This project models those components in Dafny in the form
the C++ gives them - classes with mutable fields, arrays and loops where the source has them,
plain functions where it computes - and proves what the design promises of them.
`dafny verify dfyconfig.toml` checks everything.

## How it is organised

**The book.** `BookSpec` is the market as a value: two maps from price to a first-in-first-out
queue, and what an add, a sweep, a rest and a cancel do to them. Two classes are proved to
compute exactly those functions. `NaiveBook` (`NaiveBooks.dfy`) is the repository's executable
specification, sorted maps of lists with an id index. `OrderBook` (`OrderBooks.dfy`) is the
optimised book: an `OrderPool` whose slot array carries the free list and, interleaved with it,
one doubly linked queue per price and side, and a `PriceLadder` per side with its banded level
array, best-price cursor and overflow map. The representation invariant (`PoolInv`,
`LadderInv`, `SidesInv`) is what `check_invariants` writes out, plus where every slot is; it is
kept by every operation and by every iteration of the matching loop, with the taker's slot
live but in no list. It is stated over the contents of the slot array, so that each heap
method assigns and then appeals to a lemma about values (`Ladders`, `LadderSteps`, `BookRep`).

`BookLaws` says what those functions mean without naming them: which orders trade, at which
prices, what every event reports, what rests, what is refused and what stays.

**Theorems about runs.** Because both books compute the specification, properties of it are
properties of them: equal behaviour for every script (`Differential`), price-time priority and
the uncrossed book (`Market`), conservation of quantity (`Conservation`), the life of one order
(`Lifecycle`), when ids recur (`Identity`), and the counters (`Stats`, `Engine`).

**The ring and what is built on it.** `SpscQueue` is the ring with operations taken as atomic
and its indices as wrapping 64-bit words. `RingProtocol` is the same ring as two threads of
small steps with stale views, for every interleaving. `DrainProtocol` puts the loop that
`MatchingEngine::run` and `AsyncLogger::consume` share on top of it; `EngineRun` and `AsyncLog`
instantiate the loop.

**Tools.** `Latency` compares the histogram with exact order statistics, `Workload` proves that
generated streams replay without refusals, and `Replay` is the file format.

## Results that needed the exact condition

* `NaiveBook::qty_at` adds into 32 bits, `OrderBook::qty_at` into 64. The second is always the
  exact total; the two agree exactly when it is below 2^32 (`Differential.QtyAt`), and two
  full-size buys at one price already tell them apart (`Differential.QtyCanDisagree`).
* "An order's id is accepted once" holds over a run if and only if no slot is accepted into more
  than 2^32 - 1 times (`Identity.RunStrictIff`). A caller that counts mints per slot can tell
  before an add (`Identity.NextRecursIff`); `Identity.IdsCanRecur` is a run where it fails.
* `add_limit` can cross the book, by design: exactly when the new price crosses a resting
  opposite level (`Market.AddLimitCrossesIff`).
* Rereading and rewriting a replay file reproduces it exactly when the header's unchecked
  padding is zero (`Replay.RewriteIff`).
* The generator's comment asks that a stream be replayed with the same `EngineConfig`. Only its
  pool capacity matters: the anchor and the band radius never change an id, an event or the
  book (`Workload.ReplayWorkload` asks for nothing else).

## Model

| member | source | states |
|---|---|---|
| OrderPools.MakeOrderId | include/lob/order_pool.h:29-37 | an id gives back the index and generation it was made of, and a nonzero generation never yields the invalid id |
| OrderPools.IdRoundTrip | include/lob/order_pool.h:29-37 | every id is the one made of its own generation and index |
| OrderPools.IdBits | include/lob/order_pool.h:29-37 | the generation is the upper half of the word and the index the lower half |
| OrderPools.TakenIsFresh | include/lob/order_pool.h:118-134 | a minted id is nonzero and was live nowhere; afterwards exactly it is live in addition |
| OrderPools.ReleasedDropsOne | include/lob/order_pool.h:136-146 | freeing a live id's slot makes that id and no other stale |
| OrderPools.FirstIds | include/lob/order_pool.h:104-134 | a new pool mints the ids 2^32, 2^32 + 1, .. in slot order, each slot in generation 1 |
| OrderPools.ReusedNext | include/lob/order_pool.h:118-146 | the slot given back last is used next, in the generation after its last one, 0 skipped |
| OrderPools.LiveCensus | include/lob/order_pool.h:181-183 | there are as many live ids as slots off the free list |
| OrderPools.AllocInv | include/lob/order_pool.h:118-134 | popping the head keeps the free list a repetition-free chain through the free slots, and the id of every live slot naming it |
| OrderPools.FreeInv | include/lob/order_pool.h:136-146 | pushing a live slot keeps the same invariant |
| OrderPools.OrderPool.constructor | include/lob/order_pool.h:104-112 | all slots free, threaded from 0 to capacity - 1 |
| OrderPools.OrderPool.Alloc | include/lob/order_pool.h:118-134 | fails, changing nothing, exactly when live_count equals capacity; otherwise mints the front slot's next id and touches no other slot |
| OrderPools.OrderPool.Free | include/lob/order_pool.h:136-146 | the slot becomes the front of the free list, live_count drops by one, no other slot changes |
| OrderPools.OrderPool.Find | include/lob/order_pool.h:148-160 | finds an id exactly when it is the live mint of its slot, and then that slot |
| BookSpec.CancelAt | include/lob/order_book.h:146-161 | what a cancel reports and removes is the order at the one place that holds the id |
| BookFacts.FillBestOpen | include/lob/order_book.h:248-274 | a fill closes its maker exactly when it takes all of it, closes nothing else, and duplicates no id |
| BookFacts.SweepOpen | include/lob/order_book.h:232-276 | a sweep closes exactly the makers it filled |
| BookFacts.PlaceOpen | include/lob/order_book.h:52-104 | after an add the open ids are the old ones less the filled makers, plus the taker exactly when it rests |
| BookFacts.WithoutOpen | include/lob/order_book.h:136-161 | a cancel closes its target and nothing else |
| BookRuns.ApplyOk | include/lob/order_book.h:196-212 | after every operation the open orders are exactly the pool's live ids, on one side each, with 1 <= remaining <= qty |
| BookLaws.AddLaw | include/lob/order_book.h:52-104 | an accepted add, told by orders and events alone: Accepted first; then pairs of Traded events, each a resting order of the other side at its own price within the order's own limit and then the taker at that price and quantity; a remainder rests last at its price (limit) or is canceled (market, IOC), and only when no opposite level within the limit is left; every level beyond the limit and the rest of the own side keep their queues |
| BookLaws.PlaceIsRight | include/lob/order_book.h:232-276 | the same for any placed order, whoever minted its id: every trade takes the whole maker or the whole taker |
| BookLaws.RejectLaw | include/lob/order_book.h:52-70 | quantity 0 is InvalidQty before anything else, then a price below 1 on anything but a market order InvalidPrice, then a full pool PoolExhausted; the event echoes side, quantity and price, and nothing changes |
| BookLaws.TradesAreWithOpenOrders | include/lob/order_book.h:248-274 | between Accepted and the end the events of an add come in pairs: the first names an order open before the add, on the other side, at that order's price; the second the taker, at the same price and quantity |
| BookLaws.AddLimitLaw | include/lob/order_book.h:111-134 | a rest-only order that is not refused rests whole behind the queue at its price under a new id, and the other side is untouched |
| BookLaws.CancelLaw | include/lob/order_book.h:146-161 | wherever the id rests, the cancel reports Canceled with that side, that price and that order's remaining quantity; an id that is not open is Rejected as UnknownOrder with everything else zero |
| BookLaws.CancelReuses | include/lob/order_book.h:136-161 | the next order after a cancel gets the canceled order's slot, in its next generation |
| BookLaws.AddReuses | include/lob/order_book.h:90-103 | so does the next order after an add whose taker does not rest, with the taker's slot |
| BookLaws.NaiveAddLaw | include/lob/naive_book.h:49-86 | the same account of an add for the reference book, whose refusals echo the caller's id |
| BookLaws.NaiveAddLimitLaw | include/lob/naive_book.h:88-111 | the rest-only order of the reference book: one Accepted event and the order behind its queue, or one reject |
| Ladders.PushLinks | include/lob/price_ladder.h:41-54 | appending at the tail keeps a level's links symmetric, acyclic and in queue order |
| Ladders.UnlinkLinks | include/lob/price_ladder.h:56-79 | unlinking at any position leaves the same chain without that order |
| Ladders.DebitLinks | include/lob/order_book.h:270-273 | a partial fill in place keeps the maker at the front of its queue with the quantity reduced |
| Ladders.SideFrame | include/lob/price_ladder.h:159-197 | changes to slots that do not rest on a side leave that side's structure and queues alone |
| Ladders.BandBound | include/lob/price_ladder.h:337-340 | an order off the side leaves the in-band order counter below the number of slots, so it cannot wrap |
| Ladders.TotalBound | include/lob/price_ladder.h:245-251 | a level holds no more orders than slots, and its quantity never exceeds (2^31 - 1)(2^32 - 1) |
| LadderSteps.PushOk | include/lob/price_ladder.h:137-157 | a push keeps the whole ladder invariant and appends the order to the queue at its price |
| LadderSteps.BestStays | include/lob/price_ladder.h:186-196 | removing an order off the best level, or not its last, leaves the cursor right |
| LadderSteps.BandEmpty | include/lob/price_ladder.h:187-192 | when the in-band counter is zero the cursor may be cleared without scanning |
| LadderSteps.CursorOk | include/lob/price_ladder.h:316-332 | a cursor at the first non-empty level from the good end names the true in-band best |
| LadderSteps.DebitOk | include/lob/order_book.h:270-273 | debiting maker and level by hand keeps the ladder invariant and takes the fill from the front of the queue |
| LadderSteps.BestIsBest | include/lob/price_ladder.h:199-220 | the side is empty exactly when cursor and overflow are, and the merge of cursor and overflow is the true extremum over all levels |
| PriceLadders.PushBack | include/lob/price_ladder.h:41-54 | links the order behind the tail and updates head, tail, count and total of the record |
| PriceLadders.Unlink | include/lob/price_ladder.h:56-79 | relinks the neighbours, clears the order's links and takes its remaining quantity off the record |
| PriceLadders.PriceLadder.constructor | include/lob/price_ladder.h:112-120 | an empty band of 2 * radius + 1 levels around the anchor |
| PriceLadders.PriceLadder.FindLevel | include/lob/price_ladder.h:126-135 | the level's record at any price, in band or in overflow, nothing where no level exists |
| PriceLadders.PriceLadder.PushOrder | include/lob/price_ladder.h:137-157 | the full invariant again, with the order appended at its price and the other side and the pool untouched |
| PriceLadders.PriceLadder.RemoveOrder | include/lob/price_ladder.h:159-197 | the full invariant again, with exactly that order gone from its queue and an emptied level erased |
| PriceLadders.PriceLadder.AdvanceBest | include/lob/price_ladder.h:316-332 | with in-band orders left the scan finds the first non-empty level; the null fallback is dead code |
| PriceLadders.PriceLadder.RefreshBest | include/lob/price_ladder.h:184-196 | after a removal the cursor is the true in-band best, by the shortcut, the scan or standing still |
| PriceLadders.PriceLadder.Empty | include/lob/price_ladder.h:199-202 | true exactly when no order rests on the side |
| PriceLadders.PriceLadder.BestPrice | include/lob/price_ladder.h:204-220 | the best price over every resting order of the side |
| BookRep.SlotsPartition | include/lob/order_book.h:196-212 | every slot is in exactly one of the free list, one position of one queue of one side, and the in-flight taker |
| BookRep.RepMeansOk | include/lob/order_book.h:192-212 | the orders resting in the two ladders are the pool's live ids, save the taker in flight, and none rests twice |
| OrderBooks.OrderBook.constructor | include/lob/order_book.h:26-31 | an empty, well-formed book over a full free list |
| OrderBooks.OrderBook.FillOne | include/lob/order_book.h:248-274 | one iteration of the loop: the invariant with the taker in flight, the maker-then-taker pair at the maker's price (`Market.SweepIsFair`), the front order filled, and its slot freed exactly when it is filled completely |
| OrderBooks.OrderBook.Match | include/lob/order_book.h:232-276 | leaves the remainder, events, opposite side and freed slots of the specified sweep, whose trades `BookLaws.PlaceIsRight` and `Market.SweepIsFair` describe; the own side and the taker's slot are untouched |
| OrderBooks.OrderBook.Add | include/lob/order_book.h:52-104 | keeps the full invariant; id, events, pool and book are those of the specified add, rejects included; `BookLaws.AddLaw` and `BookLaws.RejectLaw` say what that add does |
| OrderBooks.OrderBook.AddLimit | include/lob/order_book.h:111-134 | the same for the rest-only primitive, which emits nothing |
| OrderBooks.OrderBook.Cancel | include/lob/order_book.h:136-161 | succeeds exactly for an open id, reports what was open (`BookLaws.CancelLaw`), removes exactly it; otherwise one UnknownOrder reject and no change |
| OrderBooks.OrderBook.BestOf | include/lob/order_book.h:168-176 | the best price of a side, or none when it is empty |
| OrderBooks.OrderBook.QtyAt | include/lob/order_book.h:178-182 | the exact sum of the open quantities at the price |
| OrderBooks.OrderBook.OrdersAt | include/lob/order_book.h:184-188 | the number of orders in the queue at the price |
| OrderBooks.OrderBook.OpenOrders | include/lob/order_book.h:190-190 | the number of open ids |
| OrderBooks.OrderBook.Contains | include/lob/order_book.h:192-194 | true exactly for open ids |
| NaiveBooks.NaiveBook.Match | include/lob/naive_book.h:199-225 | the same specified sweep (`BookLaws.PlaceIsRight`), and the id index follows every fill |
| NaiveBooks.NaiveBook.Rest | include/lob/naive_book.h:193-197 | appends to the queue at the price and indexes the id |
| NaiveBooks.NaiveBook.Add | include/lob/naive_book.h:49-86 | events, result and book of the specified add under the caller's id, described by `BookLaws.NaiveAddLaw` |
| NaiveBooks.NaiveBook.AddLimit | include/lob/naive_book.h:88-111 | rests without matching and emits exactly one event |
| NaiveBooks.NaiveBook.Cancel | include/lob/naive_book.h:113-136 | the same report and the same removal as the optimised book (`BookLaws.CancelLaw`) |
| NaiveBooks.NaiveBook.QtyAt | include/lob/naive_book.h:235-242 | the level's quantity modulo 2^32, the width it is summed in |
| Differential.RunBoth | tests/differential_matching_test.cc:28-165 | for every configuration and every script of adds, rest-only adds and cancels, after every call: the arena book shows the specified results, events, best prices, exact quantities, counts and membership, and the reference shows the same, its quantities modulo 2^32 and equal exactly when they fit 32 bits; it is not asked when the pool is full |
| Differential.ExhaustedAddRejects | include/lob/order_book.h:65-70 | a valid add that finds no slot emits one reject and changes nothing |
| Differential.QtyAt | tests/differential_matching_test.cc:163-173 | asked at the same price, the arena book answers the exact total, the reference that modulo 2^32, and the comparison succeeds exactly when the total is below 2^32 |
| Differential.QtyCanDisagree | include/lob/naive_book.h:235-242 | after two full-size buys the arena book answers 2^33 - 2 and the reference 2^32 - 2 |
| Market.SweepStops | include/lob/order_book.h:248-254 | a sweep leaves quantity only when no remaining level crosses |
| Market.MarketSweepsAll | include/lob/order_book.h:75-81 | with the sentinel limit, quantity is left only when the whole side is gone |
| Market.UncrossedBests | include/lob/order_book.h:220-225 | the cheap test on best prices decides that no bid is at or above any ask |
| Market.RunUncrossed | include/lob/order_book.h:90-103 | every run of adds and cancels keeps the book uncrossed |
| Market.AddLimitCrossesIff | include/lob/order_book.h:111-116 | the rest-only primitive crosses an uncrossed book exactly when its price crosses a resting opposite level |
| Market.MakerHasPriority | include/lob/order_book.h:232-234 | the order filled has the better price or the earlier arrival against every other order of its side |
| Market.SweepIsFair | include/lob/order_book.h:232-246 | every fill of a sweep goes to the order with priority at that moment, at its price, within the taker's limit; the sweep's events are two per fill, the maker's with its id, side, price and what is left of it, then the taker's at that price and quantity |
| Market.SweepPricesWorsen | include/lob/order_book.h:232-234 | prices within a sweep never improve for the taker |
| Market.RunIsFair | include/lob/order_book.h:17-22 | every run from an ordered state keeps arrival stamps increasing along every queue, partial fills included, so every next sweep is fair |
| Market.StartIsFair | include/lob/order_book.h:26-31 | a new book is ordered and uncrossed, so the results about runs hold in every reachable state |
| Conservation.SweepFillsAvailable | include/lob/order_book.h:243-276 | the quantity filled is the minimum of what was asked and what rests at crossing prices, and the side loses exactly that |
| Conservation.SweepTrades | include/lob/order_book.h:259-266 | a sweep emits Traded events only |
| Conservation.SweepPairs | include/lob/order_book.h:259-266 | and an even number of them |
| Conservation.SweepTotal | include/lob/order_book.h:259-266 | whose quantities add up to twice what was filled |
| Conservation.AddBalanced | include/lob/order_book.h:52-104 | one add: accepted plus previously open equals traded (both sides) plus canceled plus now open |
| Conservation.RunConserves | include/lob/order_book.h:52-161 | over every run from an empty book, accepted quantity equals traded plus canceled plus open quantity |
| Lifecycle.ApplyLife | include/lob/order_book.h:52-161 | one operation moves every order's life as its events say, and the book holds it with the quantity left exactly while it is working |
| Lifecycle.RunFollowsProtocol | include/lob/order_book.h:40-51 | over every run each order is accepted, drawn down fill by fill and finished at most once per acceptance, in step with the book |
| Identity.PoolIdsRecurIff | include/lob/order_pool.h:23-27 | over every run of alloc and free from a fresh pool, two mints of a slot give equal ids exactly when their mint counts differ by a multiple of 2^32 - 1, and all ids differ exactly when no slot is minted more often than that |
| Identity.ApplyIsPoolRun | include/lob/order_book.h:52-161 | every book operation, add_limit included, drives the pool by one alloc at most and then frees of the orders it closes |
| Identity.BookIdsRecurIff | include/lob/order_pool.h:23-27 | the same two laws over every run of the book, add_limit included |
| Identity.NextRecursIff | include/lob/order_pool.h:118-134 | before an add: the id it would mint was handed out already exactly when the front slot has been minted at least 2^32 - 1 times |
| Identity.IdsCanRecur | include/lob/order_pool.h:125-128 | 2^32 orders through one slot accept an id a second time |
| Identity.RunStrictIff | include/lob/order_pool.h:23-27 | every id's events follow the once-only automaton exactly when no slot is accepted into more than 2^32 - 1 times |
| Stats.EngineStats.OnEvent | include/lob/stats.h:44-75 | counts the event under its kind and reason, in wrapping 64-bit counters |
| Stats.CountedOne | include/lob/stats.h:44-75 | counter by counter: which ones an event of each kind and reject reason raises, and by how much |
| Stats.CountedMore | include/lob/stats.h:44-75 | counting a list in two parts is counting it at once, wrap-around included |
| Stats.TallyStep | include/lob/stats.h:77-79 | one command's events keep the counter identities, modulo 2^64 |
| Stats.AddCounts | include/lob/stats.h:77-79 | the events of every add: one acceptance or one reject, and an even number of fills and of filled quantity |
| Engine.ProcessOk | include/lob/matching_engine.h:59-72 | every command keeps the book well formed and its open orders the pool's live ids |
| Engine.ProcessTally | include/lob/matching_engine.h:109-134 | every command keeps events = accepted + rejected + traded + canceled, rejected = unknown + invalid + exhausted, news = accepted + invalid + exhausted (modulo 2^64), and both trade counters even |
| Engine.RunTallyOk | include/lob/stats.h:77-79 | the same identities after every command list |
| Engine.ProcessIsRun | include/lob/matching_engine.h:59-72 | processing commands is running their operations on the book |
| Engine.RunTally | include/lob/matching_engine.h:109-113 | after any command list the counters are the counts of the commands and of the emitted events |
| Engine.RunViews | include/lob/stats.h:77-85 | from zeroed counters and while the true numbers fit 64 bits, the views report the commands, half the Traded events, and the quantity traded, which with the canceled one accounts for accepted quantity and the change in what is open |
| Engine.MatchingEngine.constructor | include/lob/matching_engine.h:48-50 | an empty book and zero counters |
| Engine.MatchingEngine.Submit | include/lob/matching_engine.h:114-121 | the book's add, with the command and every event counted |
| Engine.MatchingEngine.Cancel | include/lob/matching_engine.h:127-134 | the book's cancel, with the request and its event counted |
| Engine.MatchingEngine.ProcessCommand | include/lob/matching_engine.h:61-72 | one command: the specified state, counters and events |
| Bits.MaskIsMod | include/lob/spsc_queue.h:18-21 | masking with capacity - 1 is the remainder when the capacity is a power of two |
| SpscQueue.WrapKeepsSlot | include/lob/spsc_queue.h:18-22 | a wrapped 64-bit index still masks to the slot of the unbounded one |
| SpscQueue.SubIsDistance | include/lob/spsc_queue.h:49-53 | the wrapped difference of two indices is their true distance |
| SpscQueue.Spsc.constructor | include/lob/spsc_queue.h:37-42 | an empty ring for any power-of-two capacity that fits |
| SpscQueue.Spsc.TryPush | include/lob/spsc_queue.h:44-69 | fails exactly when full; the cached head is refreshed only when the ring looks full, and the high-water mark rises to exactly the occupancy against it |
| SpscQueue.Spsc.TryPop | include/lob/spsc_queue.h:71-89 | fails exactly when empty, otherwise takes the first element |
| SpscQueue.Spsc.TryPopBatch | include/lob/spsc_queue.h:91-121 | takes, in order, all the elements up to the cached tail, or up to max_items; the tail is looked up again only when the cache shows none, so the batch is empty only when the queue is |
| SpscQueue.UncachedSpsc.TryPush | bench/false_sharing_bench.cc:78-87 | the textbook push: fails exactly when full |
| SpscQueue.UncachedSpsc.TryPop | bench/false_sharing_bench.cc:89-98 | the textbook pop: fails exactly when empty |
| SpscQueue.RunRings | bench/false_sharing_bench.cc:68-71 | for every script of pushes, pops and batch pops both rings give the same answers, and they are those of a bounded first-in-first-out queue, a batch being a prefix that is empty only when the queue is |
| RingProtocol.NoRace | include/lob/spsc_queue.h:50-60 | the slot being written is none that holds an unpopped value or that a pending batch still has to read |
| RingProtocol.StepOk | include/lob/spsc_queue.h:44-121 | every small step of either thread, with any stale view, keeps the index, content and thread invariants; pushed and popped only grow |
| RingProtocol.EveryInterleaving | include/lob/spsc_queue.h:13-22 | in every interleaving the invariants hold and the popped values are a prefix of the pushed ones |
| RingProtocol.FromStart | include/lob/spsc_queue.h:39-42 | the same from the constructed ring |
| RingProtocol.FailuresAreReal | include/lob/spsc_queue.h:52-57 | a push fails, or a pop comes back empty, only on a freshly loaded peer index that shows the ring full or empty |
| RingProtocol.BatchTakes | include/lob/spsc_queue.h:95-112 | a batch takes everything up to the tail trusted or just read, at most max, and comes back empty exactly when that tail shows nothing |
| RingProtocol.MarkIsOccupancy | include/lob/spsc_queue.h:49-66 | the high-water mark changes only to the occupancy with the new value against the last head read, or to the capacity when a fresh head leaves no room |
| DrainProtocol.LoopStepOk | include/lob/matching_engine.h:82-107 | every step of producer, ring and loop keeps: handled plus pending is what was popped, and a loop that has seen stop sees the final tail |
| DrainProtocol.ReturnedMeansDrained | include/lob/matching_engine.h:79-81 | when the loop has returned the ring is empty, every accepted value was handled in order, and the count is their number |
| DrainProtocol.AllAccountedFor | include/lob/async_logger.h:86-90 | at any moment handled, pending, ring contents and refusals add up to the attempts |
| DrainProtocol.EveryRunDrains | include/lob/matching_engine.h:74-81 | in every interleaving and batching the loop returns only drained |
| DrainProtocol.EveryStepAdvances | include/lob/matching_engine.h:88-106 | once stop is stored, every step that can happen, with any stale view, brings the loop nearer to its return, except a stop load that still reads false |
| DrainProtocol.EveryScheduleReturns | include/lob/matching_engine.h:79-81 | so every schedule that lets the loop see the stop returns after finitely many steps |
| DrainProtocol.DrainCompletes | include/lob/matching_engine.h:79-81 | and from every state after the stop there is such a schedule |
| EngineRun.RunLosesNothing | include/lob/matching_engine.h:74-107 | whatever the interleaving, when run returns the state, counters and emitted events are those of processing the pushed commands in order, and none is lost |
| AsyncLog.RecordKeepsEvent | include/lob/async_logger.h:28-37 | a log record carries the timestamp and every field of its event but the remaining quantity, unchanged |
| AsyncLog.LogAccounts | include/lob/async_logger.h:105-116 | in every interleaving written, dropped, ring contents and pending batch account for every log call |
| AsyncLog.LogFromStart | include/lob/async_logger.h:130-145 | once the consumer has returned after stop, the stream is the accepted records in call order and written plus dropped is the number of calls |
| Latency.BucketIsWidth | include/lob/latency.h:88-90 | bucket b holds exactly the 64-bit values of bit width b, and no width exceeds 64 |
| Latency.TicksToNanos | include/lob/latency.h:71-81 | the split conversion is floor(ticks * 10^9 / rate) with no 64-bit overflow |
| Latency.NanosMonotone | include/lob/latency.h:109-117 | the conversion keeps order |
| Latency.RankIsCeiling | include/lob/latency.h:147-148 | the rank is the least positive k with k * den >= count * num |
| Latency.Interpolate | include/lob/latency.h:199-211 | the interpolated value stays inside its bucket for every count, even where the 64-bit product wraps |
| Latency.InterpolateExact | include/lob/latency.h:199-211 | for bucket counts up to 2^32 it is exactly lo + floor(span * in_rank / bucket_count) |
| Latency.PercentileNearOrderStat | include/lob/latency.h:91-94 | the reported percentile has the bit width of the exact order statistic and lies in [min, max], clamping included |
| Latency.PercentileAccuracy | include/lob/latency.h:90-96 | for every non-empty sample list whose rank product fits 64 bits the unique exact ceil-rank order statistic exists and the answer is within a factor of two of it |
| Latency.PercentileIs | include/lob/latency.h:139-158 | below 2^32 samples the answer exactly: lo + (hi - lo) * (k - 1 - j) / n of the order statistic's bit width, with k the rank, n the samples that wide and j those narrower, brought into [min, max] |
| Latency.PercentileEnds | include/lob/latency.h:139-146 | no samples report 0, and num == den reports the largest sample |
| Latency.PercentileMonotone | include/lob/latency.h:139-158 | below 2^32 samples a larger fraction never reports a smaller percentile |
| Latency.PercentileInRange | include/lob/latency.h:213-217 | no percentile leaves [min, max], whatever the 64-bit arithmetic wraps |
| Latency.Summary.ToNanos | include/lob/latency.h:109-117 | the converted summary keeps count and the order min <= p50 <= p90 <= p99 <= p999 <= max |
| Latency.NanosFields | include/lob/latency.h:109-117 | the count is kept and every other field of the converted summary is the floor of its ticks in nanoseconds |
| Latency.LatencyRecorder.Record | include/lob/latency.h:126-131 | the recorder's state is that of the sample list with the sample appended |
| Latency.LatencyRecorder.MinTicks | include/lob/latency.h:134-136 | the smallest sample, 0 when there is none |
| Latency.LatencyRecorder.MaxTicks | include/lob/latency.h:137-137 | the largest sample, 0 when there is none |
| Latency.LatencyRecorder.PercentileTicks | include/lob/latency.h:139-158 | computes the specified percentile of the recorded samples, which `Latency.PercentileIs` gives in closed form, in [min, max], for every recorder and fraction; the fallback after the scan is unreachable |
| Latency.LatencyRecorder.Summarize | include/lob/latency.h:160-168 | the four percentiles and exact extremes, in order below 2^32 samples |
| Latency.LatencyRecorder.Merge | include/lob/latency.h:170-179 | merging is recording the other's samples after one's own, self-merge included |
| Latency.LatencyRecorder.Reset | include/lob/latency.h:181-182 | no samples |
| Workload.IndexRemove | include/lob/workload_gen.h:257-270 | swap-remove keeps the position map an exact inverse of the list and removes exactly the id |
| Workload.LifeFollows | include/lob/workload_gen.h:229-249 | the order protocol is why no id is ever added twice or removed when absent |
| Workload.PendingCommand | include/lob/workload_gen.h:229-232 | handling a command's events takes an index equal to the open ids before it to one equal to those after it |
| Workload.SoundIsClean | include/lob/workload_gen.h:28-30 | a valid order or a cancel of an open id is refused for lack of slots or not at all |
| Workload.BuildCdf | include/lob/workload_gen.h:114-122 | the running weights fit 64 bits for every maximum offset |
| Workload.WeightIsShare | include/lob/workload_gen.h:114-122 | the weight w of offset k is the least with w * (k + 1) above the scale |
| Workload.UpperBound | include/lob/workload_gen.h:201-206 | the first entry above r |
| Workload.WorkloadGenerator.constructor | include/lob/workload_gen.h:105-126 | nothing live, nothing emitted, no word drawn and the mid at the anchor, for every valid configuration |
| Workload.WorkloadGenerator.MaybeStepMid | include/lob/workload_gen.h:192-199 | the mid moves only on its draw, by the size and in the direction of the next two words, and stays in the walk bounds |
| Workload.WorkloadGenerator.SampleZipfOffset | include/lob/workload_gen.h:201-206 | in range, and offset k comes from exactly weight(k) of the residues |
| Workload.WorkloadGenerator.MakeAdd | include/lob/workload_gen.h:208-222 | side by coin; quantity min_qty plus the residue of its word; price 0 for market orders, otherwise the sampled offset above or below the mid and at least 1, on its own side of the mid when the draw says passive and through it when aggressive |
| Workload.WorkloadGenerator.AddLive | include/lob/workload_gen.h:251-255 | the id is appended to the list and its position recorded |
| Workload.WorkloadGenerator.RemoveLive | include/lob/workload_gen.h:257-270 | the last id takes the removed one's place and no other moves |
| Workload.WorkloadGenerator.TrackEvents | include/lob/workload_gen.h:229-249 | after a command's events the index is the set of ids open in the shadow book |
| Workload.WorkloadGenerator.Next | include/lob/workload_gen.h:128-160 | keeps index, shadow, tallies and walk in step; the command is the one the words give by the op-mix thresholds, a cancel of nothing degrading to a counted limit order; a cancel names a live id, an order is valid, an operation of weight zero is not emitted |
| Workload.DrawnOnce | include/lob/workload_gen.h:128-160 | the random words, the mid and the live ids determine the command |
| Workload.GenerateWorkload | include/lob/workload_gen.h:285-295 | for every valid configuration and every random stream, the commands are refused for lack of slots or not at all, and lead a fresh engine to the shadow's state |
| Workload.ReplayWorkload | include/lob/workload_gen.h:23-30 | replaying on a fresh engine of the same pool capacity reaches the shadow's book and counters, with no unknown-order, quantity or price reject |
| Replay.CommandRoundTrip | include/lob/replay_format.h:22-27 | 24 bytes read back as the command written |
| Replay.ConfigRoundTrip | include/lob/replay_format.h:40-46 | 72 bytes read back as the configuration written |
| Replay.CommandLayout | include/lob/types.h:57-67 | a record is kind, side, type and padding in one byte each, then quantity at 4, price at 8 in two's complement and id at 16, little-endian |
| Replay.ConfigLayout | include/lob/workload_gen.h:85-101 | the frozen offsets of every configuration field, from the anchor at 0 to the padding at 68 |
| Replay.CommandsSplit | include/lob/replay_format.h:145-162 | decoding in two pieces is decoding at once, so the chunk size does not matter |
| Replay.ReadsBack | include/lob/replay_format.h:91-106 | for every configuration and command list, reading what was written gives exactly them back |
| Replay.AcceptedIsFile | include/lob/replay_format.h:33-34 | a byte string read without error is the file of what was read, up to the header's padding |
| Replay.RewriteIff | include/lob/replay_format.h:40-46 | writing again what was read reproduces the bytes exactly when the padding is zero |
| Replay.WrongVersion | include/lob/replay_format.h:139-142 | any other version is refused as such |
| Replay.CutShort | include/lob/replay_format.h:127-161 | a file cut at any point is reported truncated, in the header or in the body as the case is |
| Replay.TooLong | include/lob/replay_format.h:164-171 | any bytes after a file are reported as trailing |
| Replay.ParseDiagnoses | include/lob/replay_format.h:127-171 | for every byte string, exactly when each of the five errors is reported and when none is |
| Replay.WriteReplay | include/lob/replay_format.h:91-106 | appends exactly the file to the stream |
| Replay.ReadReplay | include/lob/replay_format.h:127-173 | the chunked reader computes the one-pass parse of the rest of the stream, nothing half-loaded; which error it reports is read off the bytes: under 96, other than the magic, other than version 1, and then length below, above or equal to 96 + 24 * count |
| Replay.WiresMean | include/lob/types.h:30-67 | encoded commands mean exactly the commands they encode |
| Replay.FileLayout | include/lob/replay_format.h:19-60 | a written file byte by byte: magic, version 1, zero padding, count, configuration at 24, and command k with its kind, side and type codes at 96 + 24 k |
| Replay.FilesReplayFaithfully | include/lob/replay_format.h:28-31 | a generated stream, written, read back and interpreted, still leads a fresh engine of the recorded configuration to the shadow's state without such refusals |

## Left out

- Differential.RunBoth: when the arena book rejects for lack of slots, which the reference cannot express, the reference is not called, where the repository's own comparison would fail its check.
- OrderPools.OrderPool.Find: returns the slot's index where the C++ returns the slot's address.
- PriceLadders.PushBack: a `PriceLevel` is a value stored back into the ladder's array or overflow map, not an object updated in place; nothing else refers to it in between. The same holds for `Unlink` and for the order slots, which are records in the pool's array.
- NaiveBooks.NaiveBook.Cancel: finds the list node by id within its level; the C++ keeps a list iterator in the index.
- OrderBooks.OrderBook.Add: returns the events as a sequence; the sink is assumed neither to throw nor to call back into the book, as its contract says. `flags` and padding fields are not modelled.
- RingProtocol.StepOk: slot contents are one shared array and an acquire load returns any index from the reader's last view up to the current one; hardware reordering beyond that is not modelled. Indices are unbounded here; their 64-bit wrap is covered by `SpscQueue`.
- RingProtocol.EveryInterleaving: `try_pop` is the batch pop with a limit of one.
- SpscQueue.Spsc.TryPush: operations are atomic; `popped`, the ghost count of elements taken, is unbounded.
- DrainProtocol.EveryScheduleReturns: the loop's read of stop eventually being true, and its thread being scheduled at all, are assumptions; the timing of the busy wait is not modelled.
- AsyncLog.LogFromStart: `try_log`, which leaves the drop counter alone, flushing, the thread's spawn and join, and the record's byte layout are not modelled.
- Stats.EngineStats.OnEvent: counters wrap at 2^64, and the identities are stated modulo 2^64.
- Latency.PercentileMonotone: requires fewer than 2^32 samples and rank products that fit 64 bits; beyond that the C++ products wrap, and only the bucket and the range are promised.
- Latency.PercentileIs: under the same bounds as `PercentileMonotone`; where the products wrap, no closed form is given.
- Latency.NanosFields: under the bounds of `TicksToNanos`, for an ordered summary, which `Summarize` gives below 2^32 samples.
- Latency.TicksToNanos: requires a rate of at most 2^34 ticks a second and a result that fits 64 bits. `rdtsc_now` and `TscCalibration::measure` are clocks and are not part of this model.
- Workload.WorkloadGenerator.Next: the random words are an arbitrary function of their position, so splitmix64 and the quality of its output are not part of this model; statements hold for every stream. The weights' distribution over offsets is stated per residue, not statistically.
- Workload.GenerateWorkload: requires room below INT64_MAX for the walk and the offsets, which the C++ needs to avoid signed overflow but does not assert.
- Replay.ReadReplay: a stream is a byte string read once; stream failures other than running out of bytes, and `write_replay`'s result after one, are not modelled.
- Unknown bytes in a command's kind or type have no meaning here (`Replay.Meaning`); what a release build does with them is not modelled.
- Affinity, command-line tools, benchmark drivers and scripts do input, output and timing only.
- Cache-line layout, struct offsets and zero-allocation claims are compile-time or performance facts.
