# Verification of the trading engine

This project models the matching engine, its id index, the feed path and the concurrent
pipeline of the repository in Dafny, and proves that they do what their tests and comments
promise, for every input, every run and every schedule.

- **Two engines, one specification.** `PriorityBook` says what a price-time-priority book is:
  two lists of orders, best price first and earliest arrival first, and what an order does to
  them, down to the exact faults of the bounded engine. `MatchingEngine.OrderBookV2` (level
  array shared by both sides, intrusive lists in an arena, free list, hash index, rebase and
  growth) and `ReferenceEngine.OrderBook` (sorted map of queues) are classes with the fields
  the source has; every public method is proved equal to the specification.
  `Differential.RunBoth` is the repository's fuzz comparison, proved instead of sampled.
- **Laws of the engine.** `EngineLaws`, `LiveEngine` and `Ledgers` prove price-time priority,
  all-or-nothing FOK, an uncrossed book after every call including throwing ones, exact
  fault conditions, and a quantity ledger per order. `OrderTypes` says in quantities and
  prices alone what each of the six order types, a cancel and a reduction do to the book.
- **The index.** `FlatHashMaps.FlatHashMap` is open addressing with backward-shift deletion,
  proved to be a map, with termination of every probe.
- **The feed.** `Wire` and `MarketData` are codecs with round trips; `Sessions.Session` turns any
  arrival order into in-order delivery; `Snapshots.Builder` rebuilds books;
  `LateJoiners.Join` composes them. `Sequencing` is the sequencer as a state transformer,
  `SequencerObject.Sequencer` the sequencer as an object over live engines;
  `FeedTheorems` proves that the public feed determines the books exactly as long as no
  message is silent (`Silence` says which ones are, from the state before them), and that
  every resting order stays routable. `MessageLaws` says in the fields of each message what it
  does to the books, the feed, the routes, the counters and the risk state. `EndToEnd.JoinLate` goes from the exchange's message
  stream, over encoded datagrams, to a late subscriber's books.
- **Concurrency.** `RingThreads` runs the ring buffer with every atomic access as its own step;
  `ShardedPipeline` proves that the sharded run equals the sequential one for every
  schedule and shard function, and exactly which streams keep the shards one sequencer;
  `StepwisePipeline` refines it to single atomic steps. `PipelineProgress` and
  `StepwiseProgress` prove that no reachable state is stuck.

`PriceLevels`, `LevelStore`, `PriceAxis`, `EngineSteps`, `PriorityLaws` and `Shelves` hold the
layered proof of the two engines: a priority list seen level by level, linked lists in an
arena, an array read as a price axis.

Hypotheses: an order that comes to rest under an id that is already resting overwrites the
index entry (`cpp/src/order_book_v2.cpp` line 132). Both engines' `Add` and the sequencer's
`OnMessage` say exactly when that happens; runs of the engines assume that it does not, and
nothing else, so an id may come back once its order has left the book. The feed results
assume that the id a message brings in does not rest at the message's own desk, and fail
without it (`SilentExample.SelfMatchStream`); routability asks it of all desks. The shards stay one sequencer exactly when no message brings in an id
that the sequencer still routes in another shard. `SilentExample` and `ReuseExample` show on
concrete inputs what goes wrong otherwise. Order reference numbers used once meet all of these
(`Differential.DistinctIdsNeverCollide`, `FreshIds.NeverReusedIsFresh`,
`ShardedPipeline.NeverReusedSettles`). Nothing needs positive quantities.

Where documentation and code differ, the code is modelled. `sequencer.h` (lines 64-68) says a
rejected order changes nothing a subscriber could see; in the code a declined replacement
has already cancelled its original, and an order whose remainder is refused has already
traded (`SilentExample.DeclinedReplaceStream`, `SilentExample.FillThenRefusedStream`).

## Model

| member | source | states |
|---|---|---|
| Differential.RunBoth | cpp/fuzz/fuzz_v2.cpp:6-47 | both engines, fed the same operations, give the same trades, cancel results, best prices and depth after every operation, as long as no order comes to rest under a resting id; they stop exactly at the first operation the bounded specification refuses, for its reason, and both logs are those of the specification |
| Differential.StepFast | cpp/fuzz/fuzz_v2.cpp:15-40 | one operation on the fast engine gives the bounded specification's engine and fault, and the reference observation and book whenever it does not throw |
| Differential.StepReference | cpp/fuzz/fuzz_v1.cpp:15-41 | one operation on the reference engine, cancelling through `add` included, gives the specified observation and book |
| Differential.ObservesBest | cpp/fuzz/fuzz_v2.cpp:41-46 | the best prices compared are the highest bid and the lowest ask of the book, 0 without one, and the depth is the number of resting orders |
| Differential.IssuedStep | cpp/fuzz/fuzz_v2.cpp:15-40 | only Limit and PostOnly orders already submitted can rest |
| Differential.DistinctIdsNeverCollide | cpp/fuzz/fuzz_v2.cpp:15-40 | if Limit and PostOnly orders carry ids used once, none ever comes to rest under a resting id, whatever the capacity and the window |
| MatchingEngine.OrderBookV2.constructor | cpp/src/order_book_v2.cpp:5-25 | the new engine is the empty bounded book, with sound storage |
| MatchingEngine.OrderBookV2.AllocNode | cpp/src/order_book_v2.cpp:27-37 | takes the last freed node, else the next unused one; fails only when neither exists |
| MatchingEngine.OrderBookV2.FillHead | cpp/src/order_book_v2.cpp:159-175 | one trade with the oldest order of the best level: the front of the priority list shrinks or goes, nothing else changes |
| MatchingEngine.OrderBookV2.NextTop | cpp/src/order_book_v2.cpp:178-191 | after the best level empties, the scan over the shared array finds exactly the next best level of the same side |
| MatchingEngine.OrderBookV2.FillLevel | cpp/src/order_book_v2.cpp:157-176 | trades with the best level in arrival order until the taker or the level is done; the measure on resting orders and taker quantity falls |
| MatchingEngine.OrderBookV2.Match | cpp/src/order_book_v2.cpp:140-193 | trades, leftover and book are those of walking the priority list of the other side |
| MatchingEngine.OrderBookV2.CanFullyFill | cpp/src/order_book_v2.cpp:195-216 | summing level aggregates answers exactly whether the reachable orders cover the quantity |
| MatchingEngine.OrderBookV2.OpenWindow | cpp/src/order_book_v2.cpp:44-48 | the first window is centred on the price and holds no order |
| MatchingEngine.OrderBookV2.GrowFront | cpp/src/order_book_v2.cpp:52-73 | rebasing moves every level, index entry and best index so that the book does not change |
| MatchingEngine.OrderBookV2.GrowBack | cpp/src/order_book_v2.cpp:74-96 | growing at the back does not change the book |
| MatchingEngine.OrderBookV2.EnsureIndexForPrice | cpp/src/order_book_v2.cpp:43-98 | refuses the price leaving the engine as it was, or gives an in-range index whose price it is, book and ids unchanged |
| MatchingEngine.OrderBookV2.PushBackOrder | cpp/src/order_book_v2.cpp:100-138 | fails, changing nothing, exactly when all nodes carry resting orders; otherwise appends to the level and indexes the id, for any id |
| MatchingEngine.OrderBookV2.RestRemainder | cpp/src/order_book_v2.cpp:239-245 | a remainder rests behind its price level, with the specified fault otherwise; the storage stays consistent exactly when the id was free or the call faulted |
| MatchingEngine.OrderBookV2.Add | cpp/src/order_book_v2.cpp:218-280 | trades and fault are those of the specification for every order of all six types, also when it throws after trading; the engine is too, exactly unless the order came to rest under a resting id; `OrderTypes` says what that is, type by type |
| MatchingEngine.OrderBookV2.Crossing | cpp/src/order_book_v2.cpp:233-235 | the PostOnly test holds exactly when the order would trade |
| MatchingEngine.OrderBookV2.Unlink | cpp/src/order_book_v2.cpp:289-297 | a node leaves its list, level aggregate, index and arena together |
| MatchingEngine.OrderBookV2.Cancel | cpp/src/order_book_v2.cpp:282-311 | removes exactly the order of that id, keeping all others in place; true exactly when it was resting |
| MatchingEngine.OrderBookV2.Settle | cpp/src/order_book_v2.cpp:299-309 | after a removal both best indices are exact again |
| MatchingEngine.OrderBookV2.Reduce | cpp/src/order_book_v2.cpp:313-338 | takes the shares off the order in place, removing it when nothing is left |
| MatchingEngine.OrderBookV2.BestBid | cpp/include/order_book_v2.h:94 | the price of the first bid of the priority list, 0 without one |
| MatchingEngine.OrderBookV2.BestAsk | cpp/include/order_book_v2.h:95 | the price of the first ask of the priority list, 0 without one |
| MatchingEngine.OrderBookV2.HasBid | cpp/include/order_book_v2.h:96 | true exactly when a bid rests |
| MatchingEngine.OrderBookV2.HasAsk | cpp/include/order_book_v2.h:97 | true exactly when an ask rests |
| MatchingEngine.OrderBookV2.DepthCount | cpp/include/order_book_v2.h:98 | the number of resting orders |
| MatchingEngine.ArenaFull | cpp/src/order_book_v2.cpp:27-37 | no node is free exactly when the index holds arena-capacity orders |
| LiveEngine.LiveIsSound | cpp/src/order_book_v2.cpp:218-338 | every live engine is uncrossed, in priority order, free of duplicate ids, within its arena and on its axis, whose size is bounded |
| LiveEngine.LivePriority | cpp/src/order_book_v2.cpp:140-193 | price-time priority of the trades a live engine makes, for every order type |
| LevelStore.UnlinkNode | cpp/src/order_book_v2.cpp:289-297 | unlinking keeps the lists doubly linked and disjoint, the index a bijection and live and free nodes a partition, and removes one queue entry |
| LevelStore.PushNode | cpp/src/order_book_v2.cpp:100-138 | appending keeps the same storage invariant and adds one queue entry at the end |
| LevelStore.Stranded | cpp/src/order_book_v2.cpp:132 | indexing an id that is already indexed always strands a node: no such push keeps the storage invariant |
| LevelStore.RebaseStore | cpp/src/order_book_v2.cpp:52-73 | shifting levels and index entries keeps the storage invariant |
| PriceAxis.TopIsHead | cpp/src/order_book_v2.cpp:143-157 | the head of the best level is the first order of the side's priority list, although both sides share the array |
| PriceAxis.Retop | cpp/src/order_book_v2.cpp:178-191 | moving a best index over empty levels changes neither side |
| ReferenceEngine.OrderBook.Match | cpp/src/order_book.cpp:69-117 | the sorted-map engine walks the same priority list |
| ReferenceEngine.OrderBook.CanFullyFill | cpp/src/order_book.cpp:50-67 | summing the queues answers exactly whether the reachable orders cover the quantity |
| ReferenceEngine.OrderBook.Add | cpp/src/order_book.cpp:4-48 | book and trades are those of the unbounded specification for every order; the index stays right exactly unless the order came to rest under a resting id |
| PriorityLaws.FreshNeverClashes | cpp/src/order_book_v2.cpp:218-280 | an order whose id is free never comes to rest under a resting id, so both engines stay consistent |
| ReferenceEngine.OrderBook.Cancel | cpp/src/order_book.cpp:119-138 | removes exactly the order of that id; true exactly when it was resting |
| ReferenceEngine.OrderBook.DepthCount | cpp/src/order_book.cpp:146-151 | the number of resting orders |
| EngineLaws.PriceTimePriority | cpp/src/order_book_v2.cpp:140-193 | whoever trades, every better-priced or earlier order was completely filled before; trade prices never improve and never break the limit |
| EngineLaws.WalkIsPrefix | cpp/src/order_book_v2.cpp:140-193 | trades are with a prefix of the priority list, only the last maker may stay partly filled, and quantity is conserved |
| EngineLaws.InsertPlace | cpp/src/order_book_v2.cpp:100-138 | a resting order goes behind all equal or better prices and ahead of all worse ones |
| EngineLaws.TrimKeepsOrder | cpp/src/order_book_v2.cpp:282-338 | cancel and reduce keep every other order and their sequence |
| EngineLaws.LeftOver | cpp/src/order_book_v2.cpp:195-216 | matching leaves exactly what the reachable quantity lacks |
| EngineLaws.FillOrKill | cpp/src/order_book_v2.cpp:249-256 | a FOK order trades its whole quantity or leaves the book untouched, decided by whether matching would fill it |
| EngineLaws.NewIsSound | cpp/src/order_book_v2.cpp:5-25 | a new engine is sound: uncrossed, unique ids, within capacity and window bound |
| EngineLaws.AddSound | cpp/src/order_book_v2.cpp:218-280 | every order keeps the engine sound, also when it throws, exactly unless it comes to rest under a resting id |
| EngineLaws.TrimSound | cpp/src/order_book_v2.cpp:282-338 | cancel and reduce keep the engine sound |
| EngineLaws.ReserveCovers | cpp/src/order_book_v2.cpp:43-98 | a reserved price is on the axis, every price on it before stays on it, and the axis never exceeds its bound |
| EngineLaws.ExhaustedExactly | cpp/src/order_book_v2.cpp:100-138 | "arena exhausted" is raised exactly when an order still has to rest, its price fits, and capacity many orders rest |
| EngineLaws.ExhaustedTradesNothing | cpp/src/order_book_v2.cpp:256-273 | an order refused for want of arena space has not traded |
| EngineLaws.AgreeUnlessFault | cpp/src/order_book_v2.cpp:218-280 | bounded and unbounded engine make the same trades, and their books agree exactly when the bounded one did not throw |
| OrderTypes.SidesInNumbers | cpp/src/order_book_v2.cpp:140-193 | bids never rise, asks never fall, and the best bid is below the best ask |
| OrderTypes.AxisExactly | cpp/src/order_book_v2.cpp:43-98 | a price is refused exactly when the axis would pass 2^24 levels to reach it; otherwise the axis ends just beyond the price plus a quarter window, the other end and the growth counter as the source has them |
| OrderTypes.PostOnlyExactly | cpp/src/order_book_v2.cpp:227-247 | a PostOnly order never trades; it is turned down when any opposite order is at an acceptable price, otherwise it stands with its whole quantity behind all equal or better prices, unless its price does not fit (out of range) or the arena is full (exhausted) |
| OrderTypes.LimitExactly | cpp/src/order_book_v2.cpp:256-279 | a Limit order trades the smaller of its quantity and everything available at acceptable prices, taking makers in order at their prices; the remainder stands or throws for exactly one reason |
| OrderTypes.ImmediateExactly | cpp/src/order_book_v2.cpp:256-262 | Market and IOC orders trade all they can, Market at any price; nothing rests and nothing throws |
| OrderTypes.FillOrKillExactly | cpp/src/order_book_v2.cpp:249-262 | a FOK order trades its whole quantity when that much is available at acceptable prices, and changes nothing otherwise |
| OrderTypes.ReduceExactly | cpp/src/order_book_v2.cpp:282-338 | cancel and reduce take the shares off one order in place, dropping it when none is left; no other order, place or field changes |
| OrderTypes.CancelOrderExactly | cpp/src/order_book_v2.cpp:219-226 | an order of type Cancel removes the order of its id and nothing else |
| Ledgers.CallBalances | cpp/src/order_book_v2.cpp:218-338 | one call balances every order's account, whatever id it carries |
| Ledgers.LedgerBalances | cpp/src/order_book_v2.cpp:218-338 | over any run, throws included: submitted = resting + filled as taker + filled as maker + withdrawn + discarded, for each id |
| Ledgers.SoundUntilCollision | cpp/src/order_book_v2.cpp:218-338 | a run stays sound throughout exactly as long as no call rests an order under a resting id |
| FlatHashMaps.LoadNeverExact | cpp/include/flat_hash_map.h:165 | the 0.70 load test never meets equality on a power-of-two capacity |
| FlatHashMaps.FlatHashMap.constructor | cpp/include/flat_hash_map.h:56-61 | an empty map with a power-of-two capacity of at least the requested size |
| FlatHashMaps.FlatHashMap.Reserve | cpp/include/flat_hash_map.h:66-70 | room for that many entries, contents unchanged |
| FlatHashMaps.FlatHashMap.Put | cpp/include/flat_hash_map.h:73-83 | the map with that key set to that value |
| FlatHashMaps.FlatHashMap.Find | cpp/include/flat_hash_map.h:90-93 | the value of the key, or nothing exactly when the key is absent |
| FlatHashMaps.FlatHashMap.Erase | cpp/include/flat_hash_map.h:100-135 | the map without that key; every other entry stays reachable from its home slot, wraparound included; the shift loop ends |
| FlatHashMaps.FlatHashMap.ForEachMut | cpp/include/flat_hash_map.h:151-155 | every value replaced once, keys unchanged |
| FlatHashMaps.FlatHashMap.ProbeForInsert | cpp/include/flat_hash_map.h:176-184 | ends at the key's slot or at the empty slot where it belongs |
| FlatHashMaps.FlatHashMap.ProbeExisting | cpp/include/flat_hash_map.h:186-194 | finds the key's slot exactly when the key is present, and ends |
| FlatHashMaps.FlatHashMap.Rehash | cpp/include/flat_hash_map.h:204-216 | the same map at the new capacity |
| FlatHashMaps.HoleMove | cpp/include/flat_hash_map.h:116-133 | moving an entry back into the gap keeps all others reachable past the new gap |
| FlatHashMaps.HoleClosed | cpp/include/flat_hash_map.h:116-133 | when the scan meets an empty slot the gap breaks no probe path |
| Wire.PutBigEndian | cpp/feed/moldudp64.h:31-40 | writes the big-endian field and nothing else |
| Wire.GetBigEndian | cpp/feed/moldudp64.h:41-46 | reads the value of the field |
| Wire.ValueOfBigEndian | cpp/feed/moldudp64.h:31-46 | reading a written field gives the value back when it fits |
| Wire.ValueIsPositional | cpp/feed/moldudp64.h:41-46 | the value of a field is the sum of its bytes, each times 256 to the number of bytes behind it |
| Wire.EncodePacket | cpp/feed/moldudp64.h:106-120 | bytes 0 to 9 are the session, 10 to 17 the sequence number, 18 and 19 the count modulo 65536, and every message stands behind the ones before it as two bytes of length and its bytes |
| Wire.DecodePacket | cpp/feed/moldudp64.h:77-100 | accepted exactly when the buffer holds a header and, unless its count marks a control packet, that many length-prefixed blocks; what is decoded is what stands at those offsets |
| Wire.DownstreamRoundTrip | cpp/feed/moldudp64.h:77-120 | decoding an encoded packet gives all its messages back exactly when there are fewer than 65535 of them, and the first ones up to the wrapped count otherwise |
| Wire.TruncationRejected | cpp/feed/moldudp64.h:77-100 | every proper prefix of a data packet is rejected |
| Wire.AcceptedExactly | cpp/feed/moldudp64.h:77-100 | an accepted data packet starts with the encoding of exactly what was decoded from it |
| Wire.CutBlocks | cpp/feed/moldudp64.h:90-98 | a cut anywhere inside the declared blocks is rejected |
| Wire.HeaderRoundTrip | cpp/feed/moldudp64.h:143-156 | header and request packets, which share their layout, decode to themselves |
| MarketData.EventRoundTrip | cpp/feed/market_data.h:83-108 | an event record decodes to itself |
| MarketData.RecordLayout | cpp/feed/market_data.h:83-95 | the record byte by byte: code, side letter, time stamp, both ids, symbol, price in two's complement, quantity |
| MarketData.DecodesRecord | cpp/feed/market_data.h:96-108 | exactly the fifty-byte buffers decode, to what stands at those offsets; any side letter but B is a sell |
| MarketData.PadLayout | cpp/feed/market_data.h:115-120 | the symbol field is the symbol's first eight bytes followed by blanks |
| MarketData.SymbolStr | cpp/feed/market_data.h:110-114 | drops exactly the trailing spaces |
| MarketData.PadThenTrim | cpp/feed/market_data.h:110-120 | trimming undoes padding exactly for symbols of at most eight bytes that do not end in a space |
| MarketData.TrimThenPad | cpp/feed/market_data.h:110-120 | padding undoes trimming for every field |
| Sessions.Session.OnPacket | cpp/feed/moldudp64_session.h:51-74 | the session state stays the function of what was heard: delivered in order up to the first missing number, the rest pending; exactly when a control packet or a packet with messages starts ahead, one request is made, from the next expected number, which was not received, up to the packet or for 65535 messages |
| Sessions.Session.MaybeRequestGap | cpp/feed/moldudp64_session.h:84-94 | one request per detected gap: from the next expected number, up to the observed one, of at most 65535 messages |
| Sessions.Session.DeliverReady | cpp/feed/moldudp64_session.h:96-104 | hands over pending messages in order until one is missing |
| Sessions.RunSession | cpp/feed/moldudp64_session.h:51-104 | for any packet sequence the output is the stream from the start number to the first number in no packet, each once and in order |
| Sessions.OrderIrrelevant | cpp/feed/moldudp64_session.h:51-104 | any permutation or repetition of the packets ends at the same number |
| Sessions.MoreIsFurther | cpp/feed/moldudp64_session.h:51-104 | more packets never move the session back |
| Sessions.DatagramIsConsistent | cpp/feed/moldudp64.h:77-120 | an encoded stretch of the stream decodes to a packet a session may be given, carrying exactly that stretch when it is shorter than 65535 messages, nothing when it is 65535, and never anything outside it |
| Sessions.FeedIsConsistent | cpp/feed/moldudp64.h:77-140 | whatever comes off the feed, batch, control packet or damaged datagram, decodes to nothing or to a packet a session may be given, and names no message beyond the last one |
| Sessions.AllHeard | cpp/feed/tests/test_snapshot_recovery.cpp:284-302 | if datagrams of the feed together carry every message from the start number to the last, the first number the decoded packets miss is the one after it |
| Sessions.RequestIsSound | cpp/feed/moldudp64_session.h:84-94 | a request starts at a number neither delivered nor received, not even thanks to the packet that triggered it, and asks for nothing from the observed number on |
| Sessions.ReplyAdvances | cpp/feed/moldudp64_session.h:96-104 | replies that carry the range of a request the session has made move it past that range |
| Sessions.ReplyCloses | cpp/feed/moldudp64_session.h:84-104 | a gap of at most 65535 messages is closed by the reply to its one request |
| Sessions.SinglePacketReply | cpp/feed/moldudp64_session.h:90-91 | one packet can answer a request exactly when the requested count is below 65535 |
| Snapshots.Builder.Apply | cpp/feed/snapshot.h:107-131 | one event changes its symbol's orders as specified, other symbols not at all |
| Snapshots.Builder.Load | cpp/feed/snapshot.h:141-147 | the books hold exactly the rows |
| Snapshots.Builder.Rows | cpp/feed/snapshot.h:149-159 | every shown order once, zero quantities left out, whatever order the maps are visited in |
| Snapshots.SnapshotRoundTrip | cpp/feed/snapshot.h:67-95 | a snapshot decodes to itself exactly when its row count fits four bytes, and is rejected otherwise |
| Snapshots.RowRoundTrip | cpp/feed/snapshot.h:42-59 | a row decodes to itself |
| Snapshots.RowLayout | cpp/feed/snapshot.h:42-50 | a row byte by byte: symbol, order id, side letter, price, quantity |
| Snapshots.SnapshotLayout | cpp/feed/snapshot.h:67-81 | eight bytes of sequence number, four of row count, then 33 bytes per row |
| Snapshots.DecodesSnapshot | cpp/feed/snapshot.h:82-95 | rejected exactly when the length does not match the row count; otherwise decoded to what stands at those offsets |
| Snapshots.WriteSnapshot | cpp/feed/snapshot.h:67-81 | the loop writes the specified bytes |
| Snapshots.ReadSnapshot | cpp/feed/snapshot.h:82-95 | the loop reads what the specification decodes, length mismatch refused |
| Snapshots.LoadRestores | cpp/feed/snapshot.h:141-159 | loading the rows of some books shows the same orders as those books |
| Snapshots.ApplyRespects | cpp/feed/snapshot.h:107-131 | builders that show the same orders still do after the same event |
| LateJoiners.Publish | cpp/feed/snapshot.h:103-159 | the publisher's snapshot lists the orders of the replay |
| LateJoiners.Join | cpp/feed/tests/test_snapshot_recovery.cpp:223-302 | at every moment a subscriber that loaded the decoded snapshot of events 1..n and decodes datagrams from n+1 on shows the same orders as one that applied all events up to the first missing one, under any loss, damage, reordering and repetition |
| SequencerObject.Sequencer.OnMessage | cpp/feed/sequencer.cpp:8-311 | routes, risk state, counters and published events all move as the state transformer says for every message, and so do the live engines exactly unless the entered order came to rest under a resting id |
| SequencerObject.Sequencer.OnAdd | cpp/feed/sequencer.cpp:14-99 | an added order is declined, refused after its trades, or accepted, with the desk, route, counters and events of that case, whatever its id |
| SequencerObject.Sequencer.OnReplace | cpp/feed/sequencer.cpp:203-299 | the original leaves book and routes before the replacement is judged, in all three outcomes, whatever the new id, as `MessageLaws.ReplaceEnters` spells out |
| SequencerObject.Sequencer.OnCancel | cpp/feed/sequencer.cpp:101-118 | shares come off the order and one cancel event is published, as `MessageLaws.CancelTakes` spells out |
| SequencerObject.Sequencer.OnDelete | cpp/feed/sequencer.cpp:120-138 | order and route go together and one delete event is published |
| SequencerObject.Sequencer.OnExecuted | cpp/feed/sequencer.cpp:140-173 | shares come off the order and one trade event without a price is published |
| SequencerObject.Sequencer.OnExecutedWithPrice | cpp/feed/sequencer.cpp:175-201 | as an execution, and the risk state hears the price |
| SequencerObject.Sequencer.Place | cpp/feed/sequencer.cpp:41-98 | desk, trades, resting quantity and trade events of an order that passed its risk check; the engines stay consistent exactly unless it came to rest under a resting id |
| MessageLaws.CancelTakes | cpp/feed/sequencer.cpp:101-118 | Order Cancel of n shares leaves the order with n fewer, or gone at zero, every other order as before; one X event with that id and n; the cancel counter |
| MessageLaws.ExecutionTakes | cpp/feed/sequencer.cpp:140-173 | Order Executed takes its shares off the order; one T event with that id, those shares and price 0; the execution counter |
| MessageLaws.PricedExecutionTakes | cpp/feed/sequencer.cpp:175-201 | a printable Order Executed With Price does the same with the message's price, which the risk checks hear |
| MessageLaws.DeleteTakes | cpp/feed/sequencer.cpp:120-138 | Order Delete removes order and route, tells the risk checks, and publishes one D event |
| MessageLaws.IgnoredMessages | cpp/feed/sequencer.cpp:176-186 | non-printable executions, messages about ids nobody routes and all other messages are counted, each by its own counter, and change nothing |
| MessageLaws.PassesByQuote | cpp/feed/sequencer.cpp:28-37 | risk judges the order by its fields, the highest bid and the lowest ask |
| MessageLaws.AddEnters | cpp/feed/sequencer.cpp:14-99 | Add Order enters a limit order for the message's shares at its price under its id; declined, refused and accepted orders leave exactly these routes, counters, risk states and events: an A event for what rests, then one T event per trade |
| MessageLaws.AddRests | cpp/feed/sequencer.cpp:19-98 | an accepted Add Order under a free id stands at the message's price with the shares that nobody at an acceptable price took |
| MessageLaws.ReplaceEnters | cpp/feed/sequencer.cpp:203-299 | Order Replace removes the original whatever follows, then enters a limit order for the message's shares at its price under the new id on the original's side; published as R with what rests, or D, then its trades |
| MessageLaws.ReplaceRests | cpp/feed/sequencer.cpp:211-296 | after an accepted Order Replace the original is gone and the new order stands at the message's price with the shares that nobody took |
| MessageLaws.StepsAt | cpp/feed/sequencer.cpp:8-311 | a message works on its target's desk only, and its counters add up |
| MessageLaws.EntryTargets | cpp/feed/sequencer.cpp:4-22 | Add Order works at the desk of its stock field and on the side of its indicator, Order Replace where its original is routed |
| FreshIds.NeverReusedIsFresh | cpp/feed/sequencer.h:21-31 | in a stream that uses each order reference number once, every id is free at all desks when it arrives, whatever risk declines or throws |
| FeedTheorems.StepKept | cpp/feed/sequencer.cpp:8-311 | every message whose id is free at its own desk keeps all engines sound and all resting quantities positive, rejections and throws included |
| FeedTheorems.AlwaysRoutable | cpp/feed/sequencer.cpp:40-98 | after any run whose ids are free at all desks every resting order is routed to its symbol and side |
| FeedTheorems.FeedStep | cpp/feed/sequencer.cpp:8-311 | one message whose id is free at its own desk: a subscriber that agreed with all engines still does exactly when the message is not silent |
| FeedTheorems.FeedDeterminesBooks | cpp/feed/snapshot.h:107-131 | on any run whose ids are free at their own desks the subscriber shows exactly the resting orders after every message if and only if no message is silent, silence being told from risk verdict, reach and price range before the message |
| FeedTheorems.FeedFromStart | cpp/feed/sequencer.cpp:8-311 | folding the whole published feed gives exactly each symbol's resting orders when no message was silent |
| FeedLaws.DeskFollows | cpp/feed/sequencer.cpp:8-311 | at one desk the events change the shown orders exactly as the engine's orders change, other symbols untouched |
| FeedLaws.AcceptedOrders | cpp/feed/sequencer.cpp:60-75 | submitted minus taker fills is the quantity that rests, and each maker loses its trades |
| FeedLaws.UnannouncedDisagrees | cpp/feed/sequencer.cpp:222-231 | a message that changed a book without publishing makes subscriber and engine disagree |
| Silence.SilentExactly | cpp/feed/sequencer.cpp:28-37 | a message changes a book without publishing exactly when: an added order passes risk, can trade but not completely, and its price does not fit the axis; or a replacement is declined while its original rests, or its price does not fit and it displaced a resting original or can trade |
| Silence.FaultExactly | cpp/src/order_book_v2.cpp:256-273 | a limit order throws exactly when it cannot be filled and either its price does not fit or, after matching, the arena is full |
| SilentExample.BidRests | cpp/src/order_book_v2.cpp:263-279 | the book of the two examples is reached by one order |
| SilentExample.DeclinedReplace | cpp/feed/sequencer.cpp:211-231 | a concrete declined replacement removes the resting order and publishes nothing |
| SilentExample.FillThenRefused | cpp/src/order_book_v2.cpp:256-273 | a concrete order fills a bid, is refused the rest, and publishes nothing |
| SilentExample.DeclinedReplaceStream | cpp/feed/sequencer.cpp:211-231 | two messages from the start after which the subscriber no longer follows |
| SilentExample.FillThenRefusedStream | cpp/src/order_book_v2.cpp:256-273 | two messages from the start after which the subscriber no longer follows |
| SilentExample.SelfMatchTrades | cpp/src/order_book_v2.cpp:256-279 | a sell order under the id of the resting bid fills it and rests its remainder without ever resting twice under one id |
| SilentExample.SelfMatchStream | cpp/feed/sequencer.cpp:60-98 | on that stream no message is silent, yet the subscriber loses the order: the published trade takes the shares off the order just announced, so the feed results need ids that are free at their desk |
| PublicFeed.Run | cpp/feed/sequencer.cpp:8-311 | a sequencer over live engines and a subscriber fed its events: engines follow the transformer, and the subscriber mirrors every engine when no message was silent; with ids free at all desks every resting order is routable |
| EndToEnd.JoinLate | cpp/feed/tests/test_snapshot_recovery.cpp:83-302 | from messages with fields of the exchange's widths, over encoded datagrams, to a late subscriber: on a fresh, non-silent run whoever loads a snapshot and has heard every event since shows, for each live engine, exactly its resting orders |
| FieldBounds.PublishedFits | cpp/feed/market_data.h:64-108 | messages whose fields fit their widths only ever publish events that the fixed-width record can carry, whatever the risk policy does |
| Sharding.Router.RouteSymbolFor | cpp/feed/tests/test_concurrent_sharded_pipeline.cpp:87-124 | the router's table and answer for each message |
| Sharding.RouterLearns | cpp/feed/tests/test_concurrent_sharded_pipeline.cpp:87-124 | the router learns an id from the order that brings it in, moves it to the replacement, forgets it with its deletion, and learns nothing else |
| Sharding.RouterSends | cpp/feed/tests/test_concurrent_sharded_pipeline.cpp:228-246 | a message goes to the shard of the symbol it names or its id was learnt with, else to shard 0 |
| Sharding.SameTarget | cpp/feed/tests/test_concurrent_sharded_pipeline.cpp:34-44 | the shard a message is sent to finds the same order information as the single sequencer |
| Sharding.TouchesOnly | cpp/feed/sequencer.cpp:8-311 | a message routes and unroutes only ids it names and publishes only about its symbol |
| Sharding.SplitStep | cpp/feed/tests/test_concurrent_sharded_pipeline.cpp:34-62 | one message keeps every shard holding exactly its part of routes, desks and events, the router's table covering all routes and the counters adding up, exactly unless it brings in an id that the sequencer still routes in another shard |
| ShardedPipeline.ShardsAreOne | cpp/feed/tests/test_concurrent_sharded_pipeline.cpp:34-62 | the shards together are the single sequencer after every number of messages exactly when no message brings in an id that the sequencer still routes in another shard |
| ShardedPipeline.AlwaysSound | cpp/feed/tests/test_concurrent_sharded_pipeline.cpp:199-247 | in every interleaving each worker has handled exactly what it was sent except what waits in its ring, and no worker leaves early |
| ShardedPipeline.ShardedEqualsSequential | cpp/feed/tests/test_concurrent_sharded_pipeline.cpp:249-327 | for every shard function and schedule, when all threads are through: each symbol's desk equals the sequencer's and lives in one shard, all counters and event counts add up, and each shard published the sequencer's events about its symbols in order |
| ShardedPipeline.NeverReusedSettles | cpp/feed/tests/test_concurrent_sharded_pipeline.cpp:87-124 | ids used once never bring in an id that lives in another shard, whatever the shard function |
| ReuseExample.ReuseAcrossShardsDiffers | cpp/feed/tests/test_concurrent_sharded_pipeline.cpp:104-109 | a concrete run that reuses an id across shards gives different counters |
| ReuseExample.ReuseBreaksPipeline | cpp/feed/tests/test_concurrent_sharded_pipeline.cpp:249-327 | on that stream every schedule that finishes ends with an outcome that is not the sequential one |
| ShardedEngines.ShardFresh | cpp/feed/tests/test_concurrent_sharded_pipeline.cpp:199-225 | if the sequential run only meets fresh ids, so does every shard |
| ShardedEngines.RunShard | cpp/feed/tests/test_concurrent_sharded_pipeline.cpp:199-225 | a worker over live engines ends with exactly its part of the sequential result |
| SpscRing.SpscRingBuffer.Push | cpp/include/spsc_ring.h:32-41 | enqueues at the end, or refuses exactly when one slot is left |
| SpscRing.SpscRingBuffer.Pop | cpp/include/spsc_ring.h:43-51 | dequeues the oldest item, or refuses exactly when empty |
| SpscRing.SpscRingBuffer.Empty | cpp/include/spsc_ring.h:53-55 | true exactly when nothing is queued |
| RingThreads.AlwaysSound | cpp/include/spsc_ring.h:32-55 | in every interleaving of atomic steps the slots between the indices hold the unread items |
| RingThreads.PoppedIsPrefix | cpp/include/spsc_ring.h:32-51 | the popped sequence is a prefix of the pushed one and at most capacity minus one items wait |
| RingThreads.NoSlotConflict | cpp/include/spsc_ring.h:38-48 | the producer never writes an unread slot or the slot the consumer is about to read |
| RingThreads.DrainedAll | cpp/tests/test_threaded.cpp:78-92 | a consumer that leaves either drain loop has popped everything pushed |
| RingThreads.RefinesQueue | cpp/include/spsc_ring.h:32-55 | each step is an enqueue, a dequeue or invisible; a push gives up only on a full queue, a pop only on an empty one |
| StepwisePipeline.AlwaysSound | cpp/feed/tests/test_concurrent_sharded_pipeline.cpp:199-247 | router and workers over real ring memory, every load, store and slot access its own step: in every interleaving each ring is as its two threads need it and each sequencer has handled exactly what it popped |
| StepwisePipeline.NoSharedSlot | cpp/include/spsc_ring.h:38-48 | router and worker never touch the same slot at the same time |
| StepwisePipeline.MoveSimulates | cpp/include/spsc_ring.h:32-55 | each atomic step of the sharded pipeline is a step of the queue-level pipeline or invisible to it |
| StepwisePipeline.StepwiseEqualsSequential | cpp/feed/tests/test_concurrent_sharded_pipeline.cpp:249-327 | sharded equals sequential at atomic-step granularity, for every shard function, ring capacity and schedule |
| PipelineProgress.CanFinish | cpp/feed/tests/test_concurrent_sharded_pipeline.cpp:199-247 | from every reachable queue-level state some continuation brings router and workers through, if a ring has room for one message |
| PipelineProgress.FinishesExactly | cpp/feed/tests/test_concurrent_sharded_pipeline.cpp:199-247 | some schedule finishes exactly when a ring has room for one message or there is none to send |
| StepwiseProgress.CanFinish | cpp/feed/tests/test_concurrent_sharded_pipeline.cpp:199-247 | from every state reachable by atomic steps some continuation brings all threads through: no interleaving can lead into a deadlock |
| StepwiseProgress.FinishesExactly | cpp/include/spsc_ring.h:32-55 | some schedule of atomic steps finishes exactly when a ring has two slots, or one and nothing to send |

## Left out

- Machine widths: ids, quantities, prices, sequence numbers and sums are unbounded integers; wrap-around of 64-bit sums and offsets is not modelled. The codecs do state their field widths.
- ReferenceEngine.OrderBook.Add: prices are integers where the source has doubles holding integer ticks, and a queue entry keeps only id and quantity of the order.
- FlatHashMaps.FlatHashMap.Put: keys are unbounded, so the masked identity hash is the key modulo the capacity.
- SequencerObject.Sequencer.OnMessage: risk thresholds, price bands and self-trade counts are an arbitrary policy over per-symbol state and best prices; execution reports are not modelled; the books that the caller's `book_for` holds are fields of the object; callbacks do not re-enter.
- SequencerObject.Sequencer.OnAdd: running without a risk engine is the policy that accepts every order.
- MatchingEngine.OrderBookV2.Add: what an engine does after an order came to rest under a resting id is outside the model; that its storage is then inconsistent is proved (`LevelStore.Stranded`).
- StepwisePipeline.AlwaysSound: interleaving semantics only; the acquire and release orderings below it, cache lines and data layout are not modelled.
- Fairness: that every state has a continuation that finishes is proved, not that a scheduler takes it.
- Sessions.Session.OnPacket: the session identifier check, sockets and timers belong to the caller.
- The ITCH field parser, the NEON decoder, the FIX parser, the Rust sidecar and risk code, benchmarks, histograms and replay tools are not part of this model.
- The optional timing breakdown of `add` is not modelled.
