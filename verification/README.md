# A verified model of the tick-to-trade core

This project models the single-threaded state machines of a low-latency trading system and its
simulated exchange, and proves what they promise:

- the order book and matching engine: pooled orders and price levels on intrusive lists, indexed by
  hash maps, refine a sorted list of FIFO queues with greedy price-time matching;
- the open-addressing hash map and the index free stack they are built on;
- the timing wheel, with callbacks that schedule and cancel during a tick;
- the exchange core and the engine's request step: sessions, the two id maps, the event stream,
  routing across gateways;
- the order manager: risk checks, outstanding orders, timeouts, token bucket, kill switch;
- the wire: big-endian codecs, frames, the receive loop over an arbitrarily cut byte stream;
- the wrapping ring buffer and the A/B market data feed.

Each component has two layers. Its behaviour on values is a set of functions (`Books`, `Matching`,
`TimerLog`, `Exchange`, `Desks`, ...) about which the properties are proved, over every input or every
run. Its classes update arrays, counters and linked nodes in place as the program does, and every
method is proved to do exactly what the function on values says. What the functions send, record and
answer is in turn stated field by field, without them, in `Prices`, `ExchangeAnswers`,
`ExchangeDispatch`, `DeskAnswers`, `DeskHistory` and `Layout`. Whether a bounded table takes an entry
is a ghost result of a class method, tied to the condition under which the table refuses, and an
argument of the function on values; so each run property says which refusals, if any, it depends on.

Files: `Machine` (words and masks), `HashTable`, `FreeStack`, `IntrusiveLists`; `Books`, `Ladders`,
`Matching`, `Prices`, `Quantities`, `Accounting` (matching on values), `BookRep`, `Wiring`,
`BookParts`, `Draining`, `OrderBook`, `MatchingEngine`, `BookRefusal` (the classes); `TimerLog`,
`WheelShape`, `WheelTime`, `TimingWheel`; `Exchange`, `ExchangeIds`, `ExchangeRuns`,
`ExchangeSessions`, `ExchangeReports`, `ExchangeAnswers`, `ExchangeRouting`, `ExchangeDispatch`,
`ExchangeStrays`, `Purging` (values), `Venue`, `ExchangeTables`, `ExchangeCore`, `ExchangeEngine`,
`StrayRun` (classes); `Desk`, `DeskRuns`, `DeskBooks`, `DeskAnswers`, `DeskHistory`, `TokenBucket`,
`DeskRate` (values), `OrderTimers`, `OrderManager`, `OrderOverrun`, `OrderRefusal` (classes); `Wire`,
`Protocol`, `Framing`, `Layout`, `Receiving`; `RingBuffer`; `FeedHandler`.

## Findings

- The level-map failure that libs/algo/order_book.hpp:817-825 calls unreachable is reachable. A side
  takes no more levels than the 70 % load cap of its map admits, however many are free
  (`OrderBooks.OrderBook.LevelMapRefuses`, `BookRefusals.ThirdPrice`). With the default sizes, where a
  map has twice as many slots as there are levels, tombstones get there: they are only cleared with the
  whole book, and even an empty book can refuse a price (`BookRefusals.StaleLevels`). It is an ordinary
  failure path, on which the book is unchanged.
- The order-table failure that apps/tick_to_trade/order_manager.hpp:288-289 says should never happen
  can happen with one order outstanding, because tombstones are only cleared when nothing is
  outstanding (`OrderRefusals.Wear`, `OrderRefusals.Refused`). That comment speaks of a table twice the
  limit; the code makes it four times the limit (apps/tick_to_trade/order_types.hpp:54-58).
- The debug assertion in libs/ds/timing_wheel.hpp:531-556 that a reset returns as many nodes as timers
  are active holds exactly when no node cancelled during a walk is still linked
  (`TimingWheels.ResetCount`, `TimingWheels.ResetMiscounts`). The order manager never gets there.
- In libs/ds/timing_wheel.hpp:476-529 the generation check after a callback always succeeds: nothing a
  callback may do recycles the node it runs on.
- The exchange core ignores refused id-map entries (apps/simulated_exchange/exchange_core.hpp:325-333);
  for a resting order this is exactly what takes maps and books out of step
  (`ExchangeRuns.SubmitKeepsExactly`, `ExchangeRuns.ModifyKeepsExactly`). A modify's forward entry is
  never refused.
- An order whose forward entry alone was refused outlives its session: a disconnect
  (apps/simulated_exchange/exchange_core.hpp:160-216) finds orders through the forward map. Its later
  fills go to whoever has the session id by then. `ExchangeSessions.DisconnectForgets` and
  `ExchangeSessions.SubmitStrays` say exactly when; `StrayRuns.StrayFill` is a run of a new engine, with
  id maps of four slots, in which a gateway that never placed an order gets the fill.
- The market data numbers a request reports are taken after its whole match, not after each fill, as
  the comment at apps/simulated_exchange/exchange_core.hpp:626-628 suggests. The model follows the code.
- A rejection, a cancel acknowledgement or a terminal fill for an unknown order still lowers the
  outstanding count (apps/tick_to_trade/order_manager.hpp:385-388, 419-422, 461-464); this takes the
  tables out of step if and only if an order is outstanding (`DeskBooks.RejectKeepsExactly`,
  `DeskBooks.CancelAckKeepsExactly`, `DeskBooks.FillKeepsExactly`). It needs no faulty exchange: a
  timeout erases its order before the cancel is sent (apps/tick_to_trade/order_manager.hpp:570-594),
  so the acknowledgement of that cancel names an unknown order (`DeskBooks.LateCancelAck`). The results
  about tables in step (`DeskBooks.StepInStep`, `DeskBooks.RunInStep`) assume that this reply does not
  come; those of `DeskRuns` assume nothing. An order acknowledgement does not stop the timeout.
- The buffer of timed-out order ids (apps/tick_to_trade/order_manager.hpp:649-655) holds as many ids as
  orders may be outstanding, and only an assertion guards its end. An advance fits if and only if no
  more timers are due (`OrderManagers.OrderManager.AdvanceTimeouts`); with the tables in step it always
  does. But the timer pool is rounded up to a power of two (apps/tick_to_trade/main.cpp:604-605), and
  after one rejection of an unknown order a manager with a limit of three can have four timers due at
  once (`OrderOverruns.Overdue`, `OrderOverruns.Overrun`).
- After the sequence number 2^64 - 1 the feed accepts anything (`FeedHandlers.WrapRepeats`); two lines
  deliver a stream correctly if and only if nothing follows that number (`FeedHandlers.TwoLines`).

## Model

| member | source | states |
|---|---|---|
| `Books.PriceTimeUnique` | libs/algo/matching_engine.hpp:227-294 | An outcome that satisfies the declarative price-time rule (each fill takes the head maker in priority order at the maker's price, whole unless the taker runs out, until the taker is filled, the limit stops crossing or the fill buffer is full) is the greedy one: the rule has exactly one outcome |
| `Books.GreedyIsPriceTime` | libs/algo/matching_engine.hpp:227-294 | Greedy matching satisfies the declarative price-time rule |
| `Ladders.SweepIsGreedy` | libs/algo/matching_engine.hpp:227-274 | The nested loop over levels and their queues gives the same fills, the same remaining quantity and the same leftover makers as greedy matching of the flattened side, and leaves a sorted ladder without empty levels |
| `Ladders.RestRanks` | libs/algo/order_book.hpp:315-357 | A resting order goes behind every order of its price or better and before every worse one, and nothing else moves |
| `Matching.SubmitIsPriceTime` | libs/algo/matching_engine.hpp:197-301 | For every well-formed book and incoming order: fills, remaining quantity and what is left of the opposite side obey price-time priority; the own side gains the remainder at the back of its level, or is unchanged |
| `Matching.UnrestedRemainder` | libs/algo/matching_engine.hpp:276-301 | A remainder neither filled nor rested occurs if and only if the id is a duplicate, or the fill buffer is full while the book still crosses, or the book refused the order |
| `Prices.SubmitWithinLimit` | libs/algo/matching_engine.hpp:236-242 | Comparisons written out: every fill of a buy is at or below its limit, of a sell at or above; a remainder that had room for more fills and an unused id leaves every price of the other side beyond the limit; an id in use does nothing |
| `Prices.SubmitBestFirst` | libs/algo/matching_engine.hpp:230-273 | Better prices trade first: fill prices never improve along the fills, and nothing left on the other side is better than any fill |
| `Prices.SubmitRestsBehind` | libs/algo/matching_engine.hpp:284-294 | A remainder that rests goes behind everything at its price or better and before everything worse, with prices compared outright; nothing else on its side moves |
| `Prices.ModifyWithinLimit` | libs/algo/matching_engine.hpp:327-345 | A modify of an order that does not rest does nothing; otherwise the old order is gone and did not trade, quantities add up, and the replacement keeps to its limit |
| `Accounting.SubmitAccounts` | libs/algo/matching_engine.hpp:248-274 | No maker is filled twice, at most MaxFills fills, fills plus remainder equal the order quantity, and every maker's quantity left plus its fill equals its quantity before |
| `Accounting.SubmitMakers` | libs/algo/matching_engine.hpp:248-262 | Every fill names a maker that rested on the opposite side and the incoming order as taker, with positive quantity |
| `Matching.SubmitWellFormed` | libs/algo/matching_engine.hpp:197-301 | A submission keeps ladders strictly sorted, levels non-empty, ids unique and quantities positive; only the incoming id can be new |
| `Matching.SubmitUncrossed` | libs/algo/matching_engine.hpp:276-294 | A submission leaves best bid below best ask, even when matching stops because the fill buffer is full |
| `Matching.CancelWellFormed` | libs/algo/order_book.hpp:361-385 | A cancel keeps the book well formed and removes exactly the named id |
| `Matching.RunKeeps` | libs/algo/matching_engine.hpp:197-345 | Every run of submits, cancels and modifies, whatever the book refuses on the way, keeps bids strictly descending, asks strictly ascending and every bid below every ask |
| `Ladders.CancelFlatten` | libs/algo/order_book.hpp:361-385 | A cancel takes one order out of the priority order of its side and keeps everybody else's place |
| `Engines.MatchingEngine.Cross` | libs/algo/matching_engine.hpp:227-274 | The crossing loops over the pooled, linked book yield exactly the sweep of the opposite ladder, with the fills in the fill buffer; the own side is untouched |
| `Engines.MatchingEngine.CrossLevel` | libs/algo/matching_engine.hpp:248-273 | The inner loop consumes the best level order by order, keeps the sweep on course and makes progress |
| `Engines.MatchingEngine.Submit` | libs/algo/matching_engine.hpp:197-301 | The engine refines the submission on values: same result, same book; an unrested remainder that no longer crosses means the book really has no room for the order |
| `Engines.MatchingEngine.CancelOrder` | libs/algo/matching_engine.hpp:304-306 | Refines the cancel on values; true exactly when the order rested |
| `Engines.MatchingEngine.ModifyOrder` | libs/algo/matching_engine.hpp:327-345 | Refines cancel plus re-submission under the new id; fails, changing nothing, exactly when the old order does not rest |
| `OrderBooks.OrderBook.AddOrder` | libs/algo/order_book.hpp:315-357 | Rests the order at the back of its price, or leaves the book as it was: success exactly when the quantity is positive, the id is new and there is a free order slot, a level for the price (existing, or free with room in the level map) and room in the order map. Keeps the whole representation invariant on every path |
| `OrderBooks.OrderBook.CancelOrder` | libs/algo/order_book.hpp:361-385 | Removes exactly the named order, with its level if that becomes empty; true exactly when it rested; keeps the representation invariant |
| `OrderBooks.OrderBook.ReduceOrder` | libs/algo/order_book.hpp:390-426 | Reduces an order in place, keeping its queue position; quantity zero cancels; refused, changing nothing, unless the new quantity is below the current one |
| `OrderBooks.OrderBook.RemoveFilledOrder` | libs/algo/order_book.hpp:571-586 | Takes a filled order out of queue, maps and pools, and its level with it when it was the last; says whether the level went |
| `OrderBooks.OrderBook.TradeFront` | libs/algo/matching_engine.hpp:250-271 | One fill against the front order of the best level: price, maker and quantity are those of the front order, the book is the old one with that order reduced or gone |
| `OrderBooks.OrderBook.Clear` | libs/algo/order_book.hpp:429-452 | Empties the book; every order slot and every level slot is free again |
| `OrderBooks.OrderBook.FindOrCreateLevel` | libs/algo/order_book.hpp:796-831 | Yields the level of a price, existing or newly opened at the rank of the price; fails exactly when the price has no level and no level is free or the level map refuses it |
| `OrderBooks.OrderBook.InsertLevelSorted` | libs/algo/order_book.hpp:843-872 | Links a level into its ladder right before the first level its price beats |
| `OrderBooks.OrderBook.RegisterLevel` | libs/algo/order_book.hpp:806-825 | Allocates and maps a level; on refusal by the level map everything is as before |
| `OrderBooks.OrderBook.LevelMapRefuses` | libs/algo/order_book.hpp:817-825 | The level-map failure called unreachable: a side with as many levels as its map's load cap admits takes no new price, however many levels are free and whatever the hash |
| `OrderBooks.OrderBook.TombstonesRefuse` | libs/algo/order_book.hpp:817-825 | The same for a side whose map is at its load cap through tombstones, for a price whose path begins with an empty slot, however few levels are in use |
| `BookRefusals.ThirdPrice` | libs/algo/order_book.hpp:796-831 | A run of a new book of four levels with a level map of four slots, under any hash: two prices are taken and the third is refused with two levels free |
| `BookRefusals.StaleLevels` | libs/algo/order_book.hpp:796-831 | A run of a new book of four levels whose level map has twice as many slots: five prices come and go, the book is empty, and the next price is refused |
| `OrderBooks.OrderBook.RegisterOrder` | libs/algo/order_book.hpp:326-341 | Allocates and maps an order slot; success exactly when a slot is free and the order map has room; on failure everything but free slots' contents is as before |
| `OrderBooks.OrderBook.VolumeAt` | libs/algo/order_book.hpp:485-491 | The volume at a price is the sum of its orders' quantities modulo 2^32 |
| `OrderBooks.OrderBook.BestQuote` | apps/simulated_exchange/exchange_core.hpp:629-650 | Best price and volume of a side: first level of the ladder, sum of its quantities modulo 2^32 |
| `OrderBooks.OrderBook.BestPrice` | libs/algo/order_book.hpp:459-472 | The best price of a side is the first of its ladder, none for an empty side |
| `OrderBooks.OrderBook.OrderQty` | libs/algo/order_book.hpp:509-512 | The quantity of a resting order, 0 for an unknown id |
| `BookRep.AppendInv` | libs/algo/order_book.hpp:326-356 | Adding an order to an existing level keeps the representation invariant: order map, queues, back-pointers, level maps, ladders, totals modulo 2^32 and pool partition |
| `BookRep.OpenInv` | libs/algo/order_book.hpp:806-830 | Opening a level for an order keeps the representation invariant |
| `BookRep.DropInv` | libs/algo/order_book.hpp:367-384 | Removing an order, with its level when emptied, keeps the representation invariant |
| `BookRep.SetQtyInv` | libs/algo/order_book.hpp:421-425 | Changing a quantity in place keeps the representation invariant, the level total included |
| `BookRep.AppendAbs` | libs/algo/order_book.hpp:326-356 | Adding to an existing level is resting on the book of values |
| `BookRep.OpenAbs` | libs/algo/order_book.hpp:806-872 | Opening a level at the place its price ranks is resting on the book of values |
| `BookRep.DropAbs` | libs/algo/order_book.hpp:367-384 | Unlinking an order is removing exactly that order from the book of values |
| `BookRep.MapIsIds` | libs/algo/order_book.hpp:504-506 | An id is in the order map if and only if it rests in the book |
| `HashTable.HashMap.Find` | libs/ds/hash_map.hpp:344-355 | Finds exactly what the finite map holds, for any hash function |
| `HashTable.HashMap.Insert` | libs/ds/hash_map.hpp:373-397 | Adds an absent key; a present or refused key changes nothing. An absent key is refused if and only if the load cap is reached and no tombstone precedes the first empty slot of its probe path |
| `HashTable.HashMap.Upsert` | libs/ds/hash_map.hpp:407-434 | Updates a present key always; inserts an absent one under the same refusal condition |
| `HashTable.HashMap.Erase` | libs/ds/hash_map.hpp:440-455 | Removes exactly the key; every other slot is as it was and the tombstone left lies on the key's own path, so the same key can always come back; no slot becomes empty |
| `HashTable.HashMap.Clear` | libs/ds/hash_map.hpp:462-468 | Empties the map, no slot stays live or dead |
| `HashTable.HashMap.Entries` | libs/ds/hash_map.hpp:480-500 | A visit sees every entry exactly once |
| `HashTable.HashMap.SizeIsCardinality` | libs/ds/hash_map.hpp:329-334 | The size counter is the number of keys |
| `HashTable.HashMap.ProbeFind` | libs/ds/hash_map.hpp:119-133 | The lookup probe ends at the key's slot or at an empty slot that proves its absence; the full-scan abort is never reached |
| `HashTable.HashMap.ProbeInsert` | libs/ds/hash_map.hpp:145-171 | The insertion probe ends at the key's slot, else at the first tombstone of the path, else at the first empty slot; the abort is never reached |
| `HashTable.TombstoneOnOwnPath` | libs/ds/hash_map.hpp:440-455 | The tombstone an erase leaves is reused by the same key |
| `HashTable.HashMap.FullRefuses` | libs/ds/hash_map.hpp:373-397 | A map with as many keys as the load cap admits has no tombstone and refuses every other key |
| `HashTable.FillToCap` | libs/ds/hash_map.hpp:373-397 | From a new map of any capacity and hash: distinct keys are taken up to the load cap, and the next is refused |
| `IntrusiveLists.ListArena.PushBack` | libs/ds/intrusive_list.hpp:206-212 | Appends a free node to one of many lists that share an arena of hooks; all other lists are unchanged and every ring stays well formed |
| `IntrusiveLists.ListArena.InsertBefore` | libs/ds/intrusive_list.hpp:239-247 | Inserts a free node right before a given node of its list |
| `IntrusiveLists.ListArena.Erase` | libs/ds/intrusive_list.hpp:250-256 | Removes exactly the given node, which is free afterwards |
| `IntrusiveLists.ListArena.PopFront` | libs/ds/intrusive_list.hpp:214-222 | Removes and returns the first node |
| `IntrusiveLists.LinkRings` | libs/ds/intrusive_list.hpp:395-418 | Rewiring four pointers keeps every circular sentinel list of the arena a well-formed ring |
| `IntrusiveLists.UnlinkRings` | libs/ds/intrusive_list.hpp:420-427 | Bypassing a node keeps every list a well-formed ring |
| `FreeStack.IndexFreeStack.Pop` | libs/ds/index_free_stack.hpp:287-299 | Pops the newest free index; fails exactly when none is free; free indices stay distinct and in range |
| `FreeStack.IndexFreeStack.Push` | libs/ds/index_free_stack.hpp:301-312 | Pushes an index that was not free; the array never overflows |
| `TimerLog.FiresOnTime` | libs/ds/timing_wheel.hpp:416-529 | In every log of a wheel run: a timer fires only after it was scheduled, in exactly the tick its delay names, with its own callback, and with no cancel, reset or earlier firing in between |
| `TimerLog.WasScheduled` | libs/ds/timing_wheel.hpp:416-529 | Every firing and every cancel in such a log is of a timer scheduled before, by exactly one event; the firing is on time and with its own callback |
| `TimerLog.EndsOnce` | libs/ds/timing_wheel.hpp:416-529 | Once a timer has fired, was cancelled or reset, it neither fires nor is cancelled again |
| `TimerLog.FiresUnlessCancelled` | libs/ds/timing_wheel.hpp:476-529 | By the end of the tick its delay names a timer has fired, unless it was cancelled or the wheel was reset |
| `TimerLog.TickCounts` | libs/ds/timing_wheel.hpp:476-529 | The count a tick reports is the number of callbacks it ran |
| `TimingWheels.TimingWheel.Schedule` | libs/ds/timing_wheel.hpp:416-437 | Between calls and from callbacks: 0 exactly when no node is free, otherwise the handle of a ticket never issued before, armed for that delay; the log stays legal |
| `TimingWheels.TimingWheel.Cancel` | libs/ds/timing_wheel.hpp:440-474 | True exactly when the handle names a pending timer, and then that timer is cancelled; during a walk the node stays linked and only loses its callback |
| `TimingWheels.TimingWheel.Tick` | libs/ds/timing_wheel.hpp:476-529 | One tick under callbacks that schedule and cancel as a script says: callbacks run in turn, each performs its own entry of the script; a schedule sets a timer exactly when a node is free, a cancel exactly when its handle names a pending timer, and the node of each callback is free again before the next; the log stays legal, and the result counts the callbacks run |
| `TimingWheels.TimingWheel.Reset` | libs/ds/timing_wheel.hpp:531-556 | Returns every node to the free stack and starts the clock again |
| `TimingWheels.OwnHandle` | libs/ds/timing_wheel.hpp:440-474 | A handle cancels its own timer or nothing, until its node has been recycled 2^32 - 1 times |
| `TimingWheels.HandleIsArmed` | libs/ds/timing_wheel.hpp:440-460 | The three checks of cancel (index, generation, callback) succeed exactly for the handle of a pending timer, and 0 never is one |
| `TimingWheels.PoolPartition` | libs/ds/timing_wheel.hpp:226-274 | Between calls linked and free nodes partition the pool, each linked node on one chain, once |
| `TimingWheels.ResetCount` | libs/ds/timing_wheel.hpp:531-556 | The debug assertion of reset (nodes returned equal active timers) holds if and only if no cancelled node is still linked; otherwise more come back than were active |
| `TimingWheels.ResetMiscounts` | libs/ds/timing_wheel.hpp:531-556 | It can fail: from a new wheel, two timers are scheduled, the callback of the first cancels the second, and the wheel is reset before its tick |
| `ExchangeRuns.SubmitKeeps` | apps/simulated_exchange/exchange_core.hpp:224-333 | A submission under any session, active or not, whose map entries are not refused keeps: both id maps inverse, their exchange ids exactly the orders resting in the books with recorded symbol and side, every mapped key seen, books sound and uncrossed |
| `ExchangeRuns.SubmitKeepsExactly` | apps/simulated_exchange/exchange_core.hpp:325-333 | Under any session: maps and books stay in step after a submission if and only if both maps take the order that comes to rest |
| `ExchangeRuns.CancelKeeps` | apps/simulated_exchange/exchange_core.hpp:337-393 | A cancel keeps all of that |
| `ExchangeRuns.ModifyKeeps` | apps/simulated_exchange/exchange_core.hpp:398-501 | A modify under any session keeps all of that, across the change of exchange id |
| `ExchangeRuns.ModifyKeepsExactly` | apps/simulated_exchange/exchange_core.hpp:459-471 | The same if and only if for a modify and its replacement |
| `ExchangeSessions.DisconnectKeeps` | apps/simulated_exchange/exchange_core.hpp:160-216 | A disconnect keeps all of that |
| `ExchangeSessions.DisconnectForgets` | apps/simulated_exchange/exchange_core.hpp:160-216 | Of every core, whatever its tables refused: a disconnect leaves no key of the session in the seen set or the forward map, takes from each book exactly the orders its forward entries name, and leaves of its reverse entries exactly those whose forward entry is missing |
| `ExchangeSessions.LinkedForgets` | apps/simulated_exchange/exchange_core.hpp:160-216 | With maps and books in step no trace of the session is left in the id maps, the seen set or the books |
| `ExchangeSessions.SubmitStrays` | apps/simulated_exchange/exchange_core.hpp:325-333 | A submission leaves a reverse entry that a disconnect will miss if and only if the order comes to rest, the forward map refuses it and the reverse map takes it |
| `StrayRuns.StrayFill` | apps/simulated_exchange/exchange_engine_main.cpp:72-206 | A run of a new engine in which connects get the first unused id, gateways use only sessions of their own and gateway 1 never places an order: an order of gateway 0 is refused by a full forward map and outlives its session, the counter wraps, gateway 1 is given the session, and the fill of that order is put on its queue |
| `StrayRuns.AskTooLate` | apps/simulated_exchange/exchange_core.hpp:325-333 | The refusal in that run: the forward map is at its load cap and the path begins with an empty slot, while the exchange id falls on a tombstone of the reverse map |
| `StrayRuns.Wrap` | apps/simulated_exchange/exchange_core.hpp:141-157 | A gateway that connects and leaves 65533 times makes the session counter wrap, so that an id of the past is next |
| `ExchangeSessions.DisconnectSpares` | apps/simulated_exchange/exchange_core.hpp:173-183 | A disconnect takes only that session's orders out of a book; all others keep quantity and queue order |
| `ExchangeIds.ReportCleans` | apps/simulated_exchange/exchange_core.hpp:589-624 | Reporting trades takes exactly the makers that no longer rest out of both maps |
| `ExchangeReports.SubmitReport` | apps/simulated_exchange/exchange_core.hpp:300-323 | An accepted order emits one taker and one maker fill per trade with equal price and quantity, makers distinct, quantities conserved; what each maker has left is what it had before less its trade |
| `ExchangeReports.ModifyReport` | apps/simulated_exchange/exchange_core.hpp:480-501 | An acknowledged modify does the same under its new exchange id; what each maker has left is what it had before the modify less its trade |
| `ExchangeReports.TakerFillsAt` | apps/simulated_exchange/exchange_core.hpp:303-317 | The taker's k-th fill reports the order quantity minus the first k + 1 trades; so the last one reports the unfilled quantity |
| `ExchangeReports.MakerLeft` | apps/simulated_exchange/exchange_core.hpp:600-613 | A maker's reported remaining quantity is its quantity before minus its fill |
| `ExchangeReports.ModifyMakerLeft` | apps/simulated_exchange/exchange_core.hpp:600-613 | The same for a modify, against the book before it; the order being replaced trades with nobody |
| `ExchangeAnswers.SubmitTells` | apps/simulated_exchange/exchange_core.hpp:300-323 | An accepted order, by the fields of its events: the k-th own fill has price and quantity of trade k, the order quantity less the first k + 1 trades, and session, ids, symbol and side of the request; the k-th other fill goes to the owner of the resting order with what the book afterwards holds of it; both sides add up to what was filled |
| `ExchangeAnswers.ModifyTells` | apps/simulated_exchange/exchange_core.hpp:480-501 | The same of an acknowledged modify under its new exchange id |
| `ExchangeAnswers.SubmitQuotes` | apps/simulated_exchange/exchange_core.hpp:626-650 | After the acceptance come the trades in turn and nothing else: taker fill, maker fill, then for each side of the book afterwards that is not empty its first price and its total modulo 2^32 |
| `ExchangeAnswers.ModifyQuotes` | apps/simulated_exchange/exchange_core.hpp:480-501 | The same after the acknowledgement of a modify |
| `ExchangeAnswers.SubmitAnswers` | apps/simulated_exchange/exchange_core.hpp:224-333 | With maps and books in step, the first answer and its reason for every order, if and only if: invalid id, unknown symbol, duplicate, no room; accepted exactly when a trade or a resting order comes of it. Rejections before matching change nothing, those after it no book and no map; what comes to rest enters the id maps as requested |
| `ExchangeAnswers.CancelAnswers` | apps/simulated_exchange/exchange_core.hpp:337-393 | The one answer to a cancel, for every core: acknowledged if and only if the id is valid, the symbol listed, the client id mapped and its order in that book; then that order and its two entries go and nothing else changes, otherwise the reason is the first check that fails and nothing changes |
| `ExchangeAnswers.ModifyAnswered` | apps/simulated_exchange/exchange_core.hpp:398-501 | The same for a modify; a refusal of a known order uses up an exchange id |
| `ExchangeAnswers.ModifyEnters` | apps/simulated_exchange/exchange_core.hpp:459-471 | The order a modify replaces leaves book and reverse map, and what comes to rest is mapped under the old client id with its new exchange id, side, symbol and time |
| `Exchange.SubmitEvents` | apps/simulated_exchange/exchange_core.hpp:83-88 | A submission emits at most 1 + 4 * 64 events |
| `Exchange.ModifyEvents` | apps/simulated_exchange/exchange_core.hpp:83-88 | So does a modify |
| `ExchangeCores.ExchangeCore.SubmitOrder` | apps/simulated_exchange/exchange_core.hpp:224-334 | Refines the submission on values, events included; the event buffer never overflows, so emit never aborts. Exact grounds of every refusal, read before the call: the seen set refuses if and only if it has no room; an id map is asked only for an order that comes to rest and refuses it if and only if it is at its load cap and the path meets no tombstone, those of the makers gone included; an order left unrested had no room in its book |
| `ExchangeCores.ExchangeCore.CancelOrder` | apps/simulated_exchange/exchange_core.hpp:337-393 | Refines the cancel on values, with every rejection in order |
| `ExchangeCores.ExchangeCore.ModifyOrder` | apps/simulated_exchange/exchange_core.hpp:398-501 | Refines the modify on values; a replacement left unrested had no room in its book, the forward map never refuses the re-entered key, and the reverse map refuses the new id if and only if it is at its load cap and the path meets no tombstone, the one of the old id included |
| `ExchangeCores.ExchangeCore.Connect` | apps/simulated_exchange/exchange_core.hpp:141-157 | Terminates and gives the first id from the counter on, past 65535 on to 1, that is not in use; aborts if and only if all 65535 ids are in use |
| `ExchangeCores.ExchangeCore.Disconnect` | apps/simulated_exchange/exchange_core.hpp:160-216 | Refines the disconnect on values: visits both tables and erases what it picked out |
| `ExchangeCores.ExchangeCore.EmitTrades` | apps/simulated_exchange/exchange_core.hpp:300-323 | The report loop emits exactly the events of the trades and cleans the maps |
| `ExchangeCores.ExchangeCore.EmitMakerFill` | apps/simulated_exchange/exchange_core.hpp:589-624 | One maker fill: event and map clean-up |
| `ExchangeCores.ExchangeCore.constructor` | apps/simulated_exchange/exchange_core.hpp:95-133 | A new core has maps, books and sessions consistent: where every run starts |
| `ExchangeRouting.ProcessRoutes` | apps/simulated_exchange/exchange_engine_main.cpp:72-162 | One request keeps every active session routed to the gateway that created it, and every push goes to the creator of its session |
| `ExchangeRouting.RunRoutes` | apps/simulated_exchange/exchange_engine_main.cpp:72-206 | In every run in which gateways use only their own live sessions, no response or maker fill is ever pushed to another gateway, across reuse and rollback of session ids |
| `ExchangeRouting.ProcessLinked` | apps/simulated_exchange/exchange_engine_main.cpp:115-206 | One request, from any gateway and for any session, keeps maps and books in step if and only if the id maps refuse nothing it brings to rest |
| `ExchangeRouting.RunLinked` | apps/simulated_exchange/exchange_engine_main.cpp:115-206 | So does every run, whatever sessions the gateways name, in which the id maps refuse nothing that comes to rest |
| `ExchangeRouting.AcceptedOnce` | apps/simulated_exchange/exchange_core.hpp:252-273 | In every run, whatever gateways do and tables refuse, between two acceptances of the same client id in a session that session has ended |
| `ExchangeEngines.ExchangeEngine.ProcessRequest` | apps/simulated_exchange/exchange_engine_main.cpp:115-206 | Refines one request on values, state and pushes, with bounded queues; a connect gets the first unused id and is rolled back exactly when the gateway's queue has no room for the answer, what the core refused has the core's grounds, and only orders wear its tables; fails only for a connect when no session id is left |
| `ExchangeEngines.ExchangeEngine.DrainAndDispatch` | apps/simulated_exchange/exchange_engine_main.cpp:72-112 | Drains all events and pushes each to the response queue of its session's gateway, the market data queue, or both; a full queue drops |
| `ExchangeDispatch.DispatchSplits` | apps/simulated_exchange/exchange_engine_main.cpp:77-111 | For all events and routes: market data gets exactly the fills and best prices, the gateways exactly everything but best prices, each in order and once, to the gateway its session is routed to |
| `ExchangeDispatch.DeliverOwn` | apps/simulated_exchange/exchange_engine_main.cpp:89-108 | Each queue ends up with what it had followed by its own pushes in order, as far as it has room; a full one is unchanged |
| `ExchangeDispatch.ProcessPushes` | apps/simulated_exchange/exchange_engine_main.cpp:115-206 | What each kind of request pushes: nothing for an unknown gateway, for a connect the id given and the tag it came with, for orders, cancels and modifies the split above; a connect moves the counter on and leaves session and route if and only if it is answered, a disconnect of session 0 does nothing |
| `ExchangeEngines.ExchangeEngine.Welcome` | apps/simulated_exchange/exchange_engine_main.cpp:136-162 | Connect with its routing entry and answer if the answer fits the queue, the complete roll-back if and only if it does not |
| `ExchangeEngines.ExchangeEngine.Pop` | apps/simulated_exchange/exchange_gateway_main.cpp:542-566 | A gateway takes the oldest push off its queue, if there is one |
| `ExchangeEngines.ExchangeEngine.constructor` | apps/simulated_exchange/exchange_engine_main.cpp:280-300 | A new engine routes nobody: where every run starts |
| `DeskRuns.StepLoose` | apps/tick_to_trade/order_manager.hpp:376-492 | In every run, whatever the exchange answers: the outstanding count never exceeds the table, no per-symbol count is below its orders, so no counter wraps below zero |
| `DeskRuns.RunLoose` | apps/tick_to_trade/order_manager.hpp:376-492 | In every run from such a state every state is one; no state but the first is assumed to be |
| `DeskRuns.KillSwitchDrains` | apps/tick_to_trade/order_manager.hpp:323-363 | After a trigger that returned n cancels the switch is complete exactly from the n-th cancel response on, whatever is interleaved, and the pending count is what is missing |
| `DeskRuns.KilledSendsNothing` | apps/tick_to_trade/order_manager.hpp:137-142 | Once triggered, no later call sends an order, a modify or a timeout cancel, and the switch never returns to normal |
| `DeskRuns.TriggerStep` | apps/tick_to_trade/order_manager.hpp:323-363 | The trigger cancels the orders of its visit as far as the buffer goes, leaves no timer, and touches no other table |
| `DeskAnswers.SignalSends` | apps/tick_to_trade/order_manager.hpp:177-312 | An order is sent if and only if the table takes it and every risk check holds, each written out: switch, outstanding, per symbol, size, notional, a token after the refill, projected position up for a buy and down for a sell. It carries the next id and symbol, side, price and quantity of the signal, and the tables record the same; otherwise no table changes |
| `DeskAnswers.ModifySends` | apps/tick_to_trade/order_manager.hpp:137-172 | A modify is sent if and only if the switch is normal and the slot of the signal's side holds an order at another price; it is for that order, at the signal's price and quantity |
| `DeskHistory.PositionsAddUp` | apps/tick_to_trade/order_manager.hpp:394-407 | In every run the position in each symbol is the first one plus the fills of known buy orders less those of known sell orders; no other call and no unknown id moves it |
| `DeskHistory.TableIsHistory` | apps/tick_to_trade/order_manager.hpp:265-296 | In every run, whatever the exchange answers, the order table holds exactly the orders sent, or there from the start, that were not since rejected, filled, cancelled or timed out, nor cleared with the table |
| `DeskHistory.RecordLasts` | apps/tick_to_trade/order_manager.hpp:267-273 | For as long as an order lasts the table says of it what the signal it was sent for asked |
| `DeskHistory.StepSlots` | apps/tick_to_trade/order_manager.hpp:299-306 | A slot shows an order from the call that sends it for that symbol and side until the next one, or until that very order ends or its modify is rejected while the table knows it |
| `DeskHistory.ModifiesOwnOrders` | apps/tick_to_trade/order_manager.hpp:137-172 | In every run from empty slots whatever a modify names was sent before, for the same symbol and side |
| `DeskHistory.TimeoutCancels` | apps/tick_to_trade/order_manager.hpp:570-603 | A timeout cancels exactly the orders whose timers fired and that are still known, once each and in order, as many as the buffer takes |
| `DeskBooks.StepInStep` | apps/tick_to_trade/order_manager.hpp:267-306 | When rejects, cancel acks and terminal fills name outstanding orders, every call keeps: count = table size, per-symbol counts exact, timers one to one with orders, resting slots naming orders of their symbol and side |
| `DeskBooks.RunInStep` | apps/tick_to_trade/order_manager.hpp:267-306 | So does every such run |
| `DeskBooks.RejectKeepsExactly` | apps/tick_to_trade/order_manager.hpp:376-391 | A rejection keeps the tables in step if and only if it names an outstanding order or none is outstanding |
| `DeskBooks.CancelAckKeepsExactly` | apps/tick_to_trade/order_manager.hpp:453-471 | The same if and only if for a cancel acknowledgement, whatever the kill switch |
| `DeskBooks.FillKeepsExactly` | apps/tick_to_trade/order_manager.hpp:394-428 | And for a terminal fill; a partial fill keeps the tables in step for every order |
| `DeskBooks.LateCancelAck` | apps/tick_to_trade/order_manager.hpp:570-594 | After timeouts from a desk in step, the acknowledgement of one of the cancels they sent keeps the tables in step if and only if no order is left outstanding |
| `DeskBooks.CountsAddUp` | apps/tick_to_trade/order_manager.hpp:295-296 | The outstanding count is the table size and the sum of the per-symbol counts |
| `DeskBooks.TimeoutsInStep` | apps/tick_to_trade/order_manager.hpp:570-603 | Every order whose timer expired is cancelled, exactly once, and the tables still agree |
| `DeskRate.OrdersBounded` | apps/tick_to_trade/order_manager.hpp:221-240 | In every run with a clock that does not go back, from any call at t1 up to a call at t2 at most bucket + (t2 - t1) / interval + 1 orders are sent |
| `TokenBucket.RateBound` | apps/tick_to_trade/order_manager.hpp:221-240 | The same bound for the bucket alone, despite the 32-bit truncation of the refill |
| `TokenBucket.RefillCredits` | apps/tick_to_trade/order_manager.hpp:225-235 | A refill credits the intervals due modulo 2^32; what truncation leaves uncredited stays due |
| `OrderTimers.OrderTimers.Advance` | apps/tick_to_trade/order_manager.hpp:561-568 | Letting n ticks pass notes in the buffer exactly the timers due by then, each once, with its order; it overruns the buffer if and only if more are due than the buffer holds |
| `OrderTimers.OrderTimers.Start` | apps/tick_to_trade/order_manager.hpp:276-284 | Starts a timer due after the delay; no handle exactly when every node is taken, otherwise one no pending timer has |
| `OrderTimers.OrderTimers.Clear` | apps/tick_to_trade/order_manager.hpp:348-349 | Stops every timer; here the reset assertion always holds, because the callbacks never touch the wheel |
| `OrderManagers.OrderManager.OnSignal` | apps/tick_to_trade/order_manager.hpp:177-312 | Refines the signal handler on values: all risk checks in order, token refill, timer, table entry; the table refuses exactly when its load cap says so; with the tables in step and a timer node per order the timer is always armed |
| `OrderManagers.OrderManager.CheckModify` | apps/tick_to_trade/order_manager.hpp:137-172 | Refines the modify check on values |
| `OrderManagers.OrderManager.OnReject` | apps/tick_to_trade/order_manager.hpp:376-391 | Refines the reject handler: known orders leave every table, unknown ones only the total; the table is cleared when nothing is counted and tombstones exceed their threshold |
| `OrderManagers.OrderManager.OnFill` | apps/tick_to_trade/order_manager.hpp:394-428 | Refines the fill handler: position, and removal on a terminal fill |
| `OrderManagers.OrderManager.OnModifyReject` | apps/tick_to_trade/order_manager.hpp:439-451 | Refines the modify-reject handler |
| `OrderManagers.OrderManager.OnCancelAck` | apps/tick_to_trade/order_manager.hpp:453-471 | Refines the cancel-ack handler, drain step included |
| `OrderManagers.OrderManager.OnCancelReject` | apps/tick_to_trade/order_manager.hpp:474-492 | Refines the cancel-reject handler: an unknown order changes only the drain |
| `OrderManagers.OrderManager.TriggerKillSwitch` | apps/tick_to_trade/order_manager.hpp:323-363 | Refines the trigger: one cancel per order of the table with its symbol, as many as the batch takes, no timer left; later triggers do nothing |
| `OrderManagers.OrderManager.AdvanceTimeouts` | apps/tick_to_trade/order_manager.hpp:539-603 | Refines the timeout handler: whole ticks only, exactly the timers due fire, their orders are cancelled with their symbols. The id buffer is overrun if and only if more timers are due than orders may be outstanding; never with the tables in step, nor with no more timer nodes than that |
| `OrderManagers.TimeoutsFit` | apps/tick_to_trade/order_manager.hpp:649-655 | With the tables in step no more timers are due than the buffer of timed-out ids holds, at any time |
| `OrderOverruns.Overdue` | apps/tick_to_trade/order_manager.hpp:267-306 | A run from a new manager with limit three and four timer nodes: three orders, a rejection of an unknown one, a fourth order; four timers run, all due at once |
| `OrderOverruns.Overrun` | apps/tick_to_trade/order_manager.hpp:649-655 | Advancing that manager past their deadline overruns the buffer of three |
| `OrderRefusals.Wear` | apps/tick_to_trade/order_manager.hpp:286-294 | A run of a new manager for two orders: one order stays, four come and go, and nothing is cleared because something is always outstanding |
| `OrderRefusals.Refused` | apps/tick_to_trade/order_manager.hpp:286-294 | The table insert called impossible to fail then fails: the next order passes every risk check with one of two orders outstanding, and is lost |
| `Wire.ValueOfBytes` | libs/sys/endian.hpp:169-200 | The big-endian bytes of a word have the word's value |
| `Wire.BytesOfValue` | libs/sys/endian.hpp:169-200 | And any bytes are those of their value |
| `Wire.Store` | libs/sys/endian.hpp:187-200 | Writes one big-endian field into a buffer; what precedes and follows stays |
| `Protocol.PayloadRoundTrip` | apps/shared/protocol_codec.hpp:103-437 | Every protocol message whose fields fit their machine types survives serialize and deserialize, whatever follows it |
| `Protocol.ParseIsExact` | apps/shared/protocol_codec.hpp:103-437 | Whatever bytes deserialize to a message are that message's serialized form |
| `Protocol.Serialize` | apps/shared/protocol_codec.hpp:103-437 | Stores at the fixed offsets produce the documented wire layout; a buffer too small is left alone |
| `Layout.WrappedLayout` | apps/shared/protocol.hpp:86-104 | Every message in its frame, by literal offsets: magic, version 2, type code, length, then each field at its offset and width, signed ones in two's complement |
| `Layout.EightBytes` | libs/sys/endian.hpp:169-200 | Fields are big-endian: eight bytes are two four-byte words, the first counting more |
| `Layout.FourBytes` | libs/sys/endian.hpp:169-200 | And four bytes count 2^24, 2^16, 2^8 and 1 |
| `Layout.DatagramLayout` | apps/shared/protocol.hpp:150-196 | The 34 bytes of a market data update by literal offsets |
| `Framing.FramerAgrees` | apps/simulated_exchange/message_codec_framer.hpp:34-66 | The framer reports a frame exactly when the message can be unpacked, with size header plus payload length, and the frame alone unpacks to the same message |
| `Framing.CorruptIsFinal` | apps/simulated_exchange/message_codec_framer.hpp:34-66 | Once sixteen bytes are there, the framer reports corruption if and only if nothing that may follow makes the input a message |
| `Framing.UnpackPacked` | libs/net/message_codec.hpp:73-143 | What was packed is framed and unpacked again, whatever follows it |
| `Framing.UnpackIsExact` | libs/net/message_codec.hpp:109-143 | Whatever unpacks is the packed form of its parts |
| `Framing.PackMessage` | libs/net/message_codec.hpp:73-98 | Writes exactly the frame, or nothing when the payload is too long or the buffer too small |
| `Framing.MessageRoundTrip` | apps/simulated_exchange/exchange_gateway_main.cpp:120-288 | Every message comes out of serialize, pack, frame, unpack and deserialize as it went in, fits the 64-byte send slot, and is taken for a request exactly when it is a new order, cancel or modify |
| `Receiving.ScanMore` | apps/simulated_exchange/exchange_gateway_main.cpp:387-476 | Decoding a stream in two parts, the second with the first's leftover, is decoding the whole |
| `Receiving.ScanIsExact` | apps/simulated_exchange/exchange_gateway_main.cpp:387-476 | Frames and leftover make up the stream, and every frame handed on is one |
| `Receiving.PrefixYields` | apps/simulated_exchange/exchange_gateway_main.cpp:387-476 | From any prefix of a stream of frames exactly the frames it contains whole come out, never an error, and the leftover is shorter than the frame it belongs to |
| `Receiving.Receiver.TakeFrames` | apps/simulated_exchange/exchange_gateway_main.cpp:387-476 | The decode loop takes out exactly the frames at the front of the buffer |
| `Receiving.Receiver.Compact` | apps/simulated_exchange/exchange_gateway_main.cpp:478-482 | Moves what is not consumed to the front of the buffer |
| `Receiving.Receiver.Receive` | apps/simulated_exchange/exchange_gateway_main.cpp:361-483 | One round of the receive loop: the frames handed on so far are exactly those of everything received |
| `Receiving.Receiver.ReceiveAll` | apps/simulated_exchange/exchange_gateway_main.cpp:361-483 | However a stream of frames is cut, the frames handed on are the first of the stream in order and every arrival makes progress until the loop ends in front of a frame longer than the 8192-byte buffer; once enough has arrived, all frames have been handed on if and only if they all fit |
| `Receiving.AnyCut` | apps/simulated_exchange/exchange_gateway_main.cpp:363-366 | The buffer is full when the loop wants to receive only with part of a frame that does not fit it |
| `RingBuffers.RingBuffer.Push` | libs/ds/ring_buffer.hpp:288-297 | Appends to the queue and drops the oldest element when full, also past the wrap of the 32-bit write index |
| `RingBuffers.RingBuffer.PopFront` | libs/ds/ring_buffer.hpp:313-316 | Removes the oldest element |
| `RingBuffers.RingBuffer.Get` | libs/ds/ring_buffer.hpp:272-275 | The i-th oldest element of the queue |
| `RingBuffers.RingBuffer.Back` | libs/ds/ring_buffer.hpp:260-263 | The newest element of the queue |
| `RingBuffers.RingBuffer.Clear` | libs/ds/ring_buffer.hpp:319-322 | Empties the queue |
| `RingBuffers.KeepsNewest` | libs/ds/ring_buffer.hpp:288-309 | After any pushes the queue is the end of everything pushed, as much as fits |
| `RingBuffers.OneFurther` | libs/ds/ring_buffer.hpp:87-89 | Writing at a wrapping index moves every element one position back and overwrites none that is still in the queue |
| `FeedHandlers.RunAccounts` | apps/tick_to_trade/feed_handler.hpp:48-87 | Without 64-bit wrap-around accepted numbers strictly increase, and accepted plus missing numbers are all from the first accepted to the expected one |
| `FeedHandlers.DataIsNumbers` | apps/tick_to_trade/feed_handler.hpp:48-87 | In every run of datagrams those of the wrong size are counted as errors and otherwise make no difference; of the others exactly the accepted numbers are handed on |
| `FeedHandlers.WrapRepeats` | apps/tick_to_trade/feed_handler.hpp:48-87 | Accepted numbers strictly increase if and only if nothing follows the number 2^64 - 1 |
| `FeedHandlers.TwoLines` | apps/tick_to_trade/feed_handler.hpp:48-87 | However two lossless copies of a stream are interleaved, and wherever each has got to, the stream is delivered once, in order, without a gap, as far as the faster copy has it, if and only if nothing follows the number 2^64 - 1 |
| `FeedHandlers.FeedHandler.OnUdpData` | apps/tick_to_trade/feed_handler.hpp:48-87 | Refines one datagram on values: parse error, baseline, duplicate, gap |
| `FeedHandlers.DatagramRoundTrip` | apps/shared/protocol_codec.hpp:50-95 | A market data update survives serialize and deserialize |
| `FeedHandlers.DatagramIsExact` | apps/shared/protocol_codec.hpp:79-95 | Only datagrams of exactly 34 bytes are read, and what is read was the sent update |
| `FeedHandlers.SerializeMarketData` | apps/shared/protocol_codec.hpp:50-66 | Stores at fixed offsets produce the wire layout |

## Left out

- Memory layout: buffers carved into sub-structures, alignment, placement construction, moves and swaps. Pools are parallel arrays and pointers are indices into them; the hooks of orders, levels and sentinels lie in one arena.
- Concurrency: IPC queues are bounded FIFOs whose push may fail, and atomic counters are plain ones. Sockets, epoll, thread start-up, pinning and the stop flag are not part of this model; a receive call delivers an arbitrary chunk.
- Clocks: clock readings are inputs, and timestamps are carried unchanged.
- Hash functions are an arbitrary parameter.
- Exchange order ids, order ids of the order manager, diagnostic counters of the feed and the sum `price * qty` are unbounded; their 64-bit wrap-around is not modelled. Price level totals, handle generations, tick counts, the token refill, the ring buffer index and the expected sequence number do wrap.
- Shift and mask of the exchange's composite key are written as multiplication and remainder.
- Wire.Store: byte swapping and host byte order are not modelled; a store writes the big-endian bytes directly.
- The kill switch's transient state between normal and draining is not observable from outside its own call and is left out.
- Registering symbols, log lines, latency tracking, risk-reject and acknowledgement counters: they change no modelled state.
- The fixed-capacity variants of map, wheel, stack and ring buffer run the same algorithms; each is modelled once.
- The gateway's dispatch after a frame is found (version check, heartbeat reply, session check, queueing) beyond `Framing.RequestIn`; sending of queued replies.
- The intrusive list's push_front, pop_back, swap and iterators; the order book's spread, depth and count queries; the spread strategy, market data publisher and reconnect logic: easy members.
- DeskBooks.StepInStep: a reply for an order no longer known is excluded; `DeskBooks.LateCancelAck` and the lemmas next to it say what it does.
- DeskBooks.RunInStep: the same, over runs.
