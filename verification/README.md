# A verified model of the roq-bitmex gateway's state engine

The gateway keeps local copies of what the BitMEX exchange publishes and passes changes on to its
consumers. This project models the parts that keep state, in Dafny, and proves what they promise.

- **The L2 order book.** The exchange announces levels by numeric id, often without a price. The price
  cache remembers each id's price; the handler latches on a partial, cuts each message into runs of one
  symbol, drops discarded symbols and publishes a snapshot or an increment for each run; it closes the
  socket when a price cannot be resolved, and resubscribes when a consumer rejects a book. The main
  theorem is a refinement: the price-keyed book that a consumer folds equals the exchange's id-keyed book,
  over whole runs, with filtering, disconnects, missed messages and rejected books.
- **The session.** Download stages, latches and the ready flag of the market-data and drop-copy streams.
- **Products.** Change tracking of instrument data: dirty flags, queued statistics, provenance.
- **Trades, orders and fills.** How trade messages are cut into summaries; the order snapshot of a session;
  conservation of filled quantity.
- **The controller.** Round-robin choice of a connection; the ids of the streams.
- **The dead man's switch.** When the exchange's cancel-all-after countdown can run out.

## How it is organised

| file | contents |
|---|---|
| `Common.dfy` | shared types |
| `PriceCache.dfy` | the price cache, as a class, and its history |
| `OrderBook.dfy`, `OrderBookRuns.dfy` | what one order-book message does; its runs, conservation, abandoned messages |
| `BookOutcomes.dfy` | which messages close the socket or end the process; the prices by what was asked before |
| `ConsumerBook.dfy`, `Exchange.dfy` | the consumer's book; the exchange's book and its well-formed messages |
| `BookRefinement.dfy`, `BookGating.dfy` | runs of exchange, gateway and consumer; when the latch is open |
| `BookRecovery.dfy`, `SplitPartials.dfy` | when a partial recovers the books for good; partials that split a symbol |
| `Download.dfy`, `MarketSession.dfy` | the assumed download contract; the session of the market-data stream |
| `Product.dfy`, `Instruments.dfy` | one product, as a class; the product cache and its subscribers |
| `InstrumentSends.dfy` | which instrument messages are read, what is sent of them and what is not |
| `Trades.dfy` | trade summaries |
| `MarketData.dfy` | the market-data stream, as a class, proved against the modules above |
| `StreamRuns.dfy`, `StreamSends.dfy` | runs of the whole stream, any events in any order; all that such a run sends |
| `DropCopy.dfy`, `DeadMansSwitch.dfy` | the drop-copy stream, as a class; the switch |
| `RoundRobin.dfy`, `StreamIds.dfy` | the controller's choice of a connection and its stream ids |

The classes have the fields of the source's objects and loops where the source has loops. Each method is
proved equal to a specification function of the old state, and the theorems are about those functions and
their runs. `sent` in a class stands for the dispatcher and the socket: everything sent so far, in order.

## What is assumed

- Absent numbers (NaN) are `None`, prices and sizes are exact reals, equality of prices is exact. Times are
  integers. Level ids are unbounded naturals; stream ids are 16 bits wide and wrap.
- Whether a symbol is discarded is a function of the symbol. Which publications a consumer rejects
  (`BadState`) is an input of each message. `log::fatal` is an outcome after which the process ends; a run
  that goes on after it says more than is needed.
- C++ assertions are taken as compiled out: a second instrument partial and an instrument insert do nothing.
- `core::Download` is not part of the repository; `Download.dfy` states the contract assumed of it.
- `utils::update` is not part of the repository: absent values are ignored, other values are assigned and
  reported if they differ. Whether a zero time (expiry, settlement, funding window) counts as absent cannot
  be seen, so everything holds for both readings (`zeroIsAbsent`). Empty texts count as absent.
- In runs of the whole stream the exchange's book may change unobserved at every event that is not an
  order-book message, except at the very event that reports a lost socket.
- A consumer folds what it accepts: a snapshot replaces its symbol's book, size zero removes a price, any
  other size sets it. About a symbol whose publication it rejected nothing is assumed.
- A well-formed exchange (`LegalItem`, `Lists` in `Exchange.dfy`): symbols are not empty, an id is live on
  one symbol and side at a time, live ids of one symbol and side have distinct prices, partials and inserts
  carry a price and a positive size, updates a positive size, deletes none or zero, and a partial lists each
  symbol's levels together. The gating, cutting and abandoning theorems hold for every feed.
- The exchange's countdown starts when the renewal is sent; network delay is not modelled.

## Where the code and its comments or intent differ

The model follows the code.

- A partial or insert of an id that is cached at another price does not fail, as its comment says: the new
  price is returned and the old one stays cached (`src/roq/bitmex/gateway/price_cache.cpp:32-38`). Since the
  cache is never cleared, a partial after a gap need not recover the books for good:
  `BookRefinement.StalePriceMisleads` and `BookRecovery.DeadPriceMisleads` are counterexamples. Without
  further assumptions it does exactly when each id cached before it is that of a live level of a kept symbol
  at its price (`BookRecovery.RecoveryExactlyWhen`). An id that always denotes one price is enough
  (`BookRefinement.RunsRecover`), and without gaps "one price while live" is
  (`BookRefinement.GaplessRunRefines`).
- A level with an empty symbol, if the empty symbol is not discarded, is published under the symbol that
  follows it (`OrderBookRuns.StrayLevelIsPublished`); `OrderBookRuns.MessagePublishesRunsExactlyWhen` gives
  the exact condition under which the publications are the runs.
- A snapshot whose own publication was rejected still opens the latch when the message ends
  (`BookRefinement.PartialCompletes`, `BookRefinement.RejectedSnapshotOpens`).
- A symbol without live levels gets no snapshot, so its book survives a partial
  (`BookRefinement.SilentSymbolExactlyWhen`, `BookRecovery.SilentSymbolKeepsBook`).
- A symbol that a partial splits into two runs is snapshotted twice and loses the first run
  (`SplitPartials.PartialExactExactlyWhen`).
- The time of a trade summary passes over the first trade of its run and counts the first trade of the next
  (`Trades.SummaryTimeMisleads`); `Trades.TimesExactlyWhen` says exactly when it is the latest all the same.
- A second welcome after the instrument partial sends the download back to the instruments for the rest of its session
  (`MarketSession.ReadyIsFinishedExactlyWhen`, `MarketSession.WelcomeAgainUnfinishes`).
- A symbol that is first seen in an instrument update has no reference data at its subscribers until its
  reference data changes or a partial lists it (`Instruments.UpdateAloneSendsNoReference`,
  `Instruments.ReferenceKnownExactlyWhen`); a product created by a funding item never gets its
  currencies (`Instruments.CurrenciesOfFirstTouch`, `Instruments.FundingLosesCurrencies`).
- A cancel-all-after time below one millisecond asks for a countdown of zero
  (`DeadMansSwitch.NeverExpiresExactlyWhen`, `DeadMansSwitch.ShortTimeoutExpires`).

## Model

| member | source | states |
|---|---|---|
| `BookRefinement.GaplessRunRefines` | src/roq/bitmex/gateway/market_data.cpp:470-550 | over every gapless run from an empty cache and an empty consumer: nothing is published or cached before the first partial; after it, after each event, the consumer's book is the exchange's book by price, the cache is exactly the kept live ids at their prices, and no message closes the socket |
| `BookRefinement.RunsRecover` | src/roq/bitmex/gateway/market_data.cpp:470-550 | over every run with disconnects, missed changes, dropped messages and rejected books in which an id denotes one price, what is tracked as synchronised is exact and what is tracked as covered is cached, and no message read with a covering cache is abandoned |
| `BookRefinement.ExactSincePartial` | src/roq/bitmex/gateway/market_data.cpp:470-550 | in closed form: whatever happened before, if a partial mentioned a kept symbol and its publication was accepted, and since then nothing was missed or dropped and nothing about the symbol rejected, its book is exact and the cache covers the exchange |
| `BookRecovery.RecoveryExactlyWhen` | src/roq/bitmex/gateway/market_data.cpp:483-548 | from any state of gateway and consumer: after a partial the books are exact and stay so over every gapless run, with no assumption on what ids denote later, if and only if before it each cached id was that of a live level of a kept symbol at its price, and the consumer had no symbol but kept ones that the partial mentions |
| `BookRecovery.ExactForEverExactlyWhen` | src/roq/bitmex/gateway/market_data.cpp:504-548 | with an open latch, the books stay exact over every gapless run if and only if they are exact now and the cache is exactly the kept live ids at their prices |
| `BookRecovery.PartialCacheExactlyWhen` | src/roq/bitmex/gateway/price_cache.cpp:26-44 | after a partial the cache is exactly the kept live ids at their prices if and only if it held nothing else before |
| `BookRecovery.PartialBooksExactlyWhen` | src/roq/bitmex/gateway/market_data.cpp:483-548 | after a partial all books are exact if and only if it replaced all that the consumer had |
| `BookRefinement.IncrementalStaysExact` | src/roq/bitmex/gateway/market_data.cpp:504-548 | an incremental message read with a covering cache never closes the socket, keeps the cache covering, and keeps exact each book that was |
| `BookRefinement.PartialMakesExact` | src/roq/bitmex/gateway/market_data.cpp:483-548 | whatever was cached and whatever the consumer had, a partial makes the book of each kept symbol it mentions exact and leaves all other books alone |
| `BookRefinement.PartialCompletes` | src/roq/bitmex/gateway/market_data.cpp:543-548 | a well-formed partial is always read to its end and opens the latch, even if consumers reject some of its books |
| `BookRefinement.RejectedSnapshotOpens` | src/roq/bitmex/gateway/market_data.cpp:543-548 | concrete input: a rejected snapshot opens the latch all the same |
| `BookRefinement.SilentSymbolExactlyWhen` | src/roq/bitmex/gateway/market_data.cpp:499-515 | the book of a symbol a partial does not mention is exact afterwards if and only if the consumer had nothing for it |
| `SplitPartials.PartialExactExactlyWhen` | src/roq/bitmex/gateway/market_data.cpp:504-515 | after a partial that lists the live levels in any order, the book of a kept symbol it mentions is exact if and only if the symbol's levels stand together |
| `SplitPartials.LastStretchBuilds` | src/roq/bitmex/gateway/market_data.cpp:504-542 | otherwise the book consists of the levels of the symbol's last stretch |
| `SplitPartials.SplitSymbolLosesLevels` | src/roq/bitmex/gateway/market_data.cpp:504-515 | concrete input: a symbol split into two runs loses the first |
| `BookRefinement.StalePriceMisleads` | src/roq/bitmex/gateway/price_cache.cpp:32-38 | counterexample: an id listed again at a new price keeps its cached price, and its next update is published at the old one |
| `BookRecovery.DeadPriceMisleads` | src/roq/bitmex/gateway/price_cache.cpp:32-38 | counterexample: a partial may be exact and leave the cache covering, and an id that was cached without being live still misleads a later update |
| `BookRecovery.SilentSymbolKeepsBook` | src/roq/bitmex/gateway/market_data.cpp:499-515 | concrete input: a partial that lists nothing leaves a stale book where it was |
| `BookRefinement.AcceptedBook` | src/roq/bitmex/gateway/market_data.cpp:717-721 | when nothing is rejected, the consumer's book is the fold of all publications |
| `BookRefinement.AcceptedReacts` | src/roq/bitmex/gateway/market_data.cpp:717-721 | a consumer that folds what it accepts has, for each symbol of which nothing was rejected, the fold of all publications |
| `Exchange.IncrementalFollows` | src/roq/bitmex/gateway/market_data.cpp:504-538 | every item of a well-formed incremental message resolves; cache and projected book change as the exchange's book does |
| `Exchange.PartialScan` | src/roq/bitmex/gateway/price_cache.cpp:26-44 | a partial adds exactly the kept listed ids that were not cached, at their listed prices, and changes no cached price |
| `Exchange.PartialCoversExactlyWhen` | src/roq/bitmex/gateway/price_cache.cpp:26-44 | after a partial the cache covers the exchange if and only if no listed id was cached at another price |
| `Exchange.PartialTracks` | src/roq/bitmex/gateway/market_data.cpp:504-538 | from nothing, the levels of a partial build the projection of what it lists |
| `Exchange.CacheIsExact` | src/roq/bitmex/gateway/price_cache.cpp:17-62 | a covering and sound cache is exactly the kept live ids with their prices |
| `Exchange.LegalKeepsWellFormed` | src/roq/bitmex/gateway/market_data.cpp:504-538 | well-formed messages keep the exchange's book well-formed |
| `ConsumerBook.PublicationsAreLevelwise` | src/roq/bitmex/gateway/market_data.cpp:488-542 | folding the publications, bids before asks, gives the same book as applying the levels one by one in message order |
| `OrderBookRuns.PublishesRunsExactlyWhen` | src/roq/bitmex/gateway/market_data.cpp:499-515 | the publications are those of the maximal runs of equal symbol if and only if no kept level without a symbol runs into a published symbol |
| `OrderBookRuns.MessagePublishesRunsExactlyWhen` | src/roq/bitmex/gateway/market_data.cpp:483-542 | the same for a completed message, with the condition read off its items |
| `OrderBookRuns.PublicationsAreRuns` | src/roq/bitmex/gateway/market_data.cpp:483-542 | each publication of the runs is one maximal stretch of its symbol, split by side with the order kept and stamped with the latest time of its levels |
| `OrderBookRuns.StrayLevelIsPublished` | src/roq/bitmex/gateway/market_data.cpp:505-515 | the condition is needed: a level without a symbol is published under the next symbol |
| `OrderBookRuns.LevelsConserved` | src/roq/bitmex/gateway/market_data.cpp:504-542 | otherwise the published levels of each symbol and side are exactly the message's, in order: none lost, repeated or given to another symbol |
| `OrderBookRuns.CutIsMaximal` | src/roq/bitmex/gateway/market_data.cpp:504-515 | the cut flattens back to the items, has no break inside a piece and a break between any two |
| `OrderBookRuns.ScanKeepsItems` | src/roq/bitmex/gateway/market_data.cpp:516-538 | a resolved level keeps its item's symbol, side, time and size, and exactly the levels of discarded symbols are left out |
| `OrderBookRuns.NothingEmptyPublished` | src/roq/bitmex/gateway/market_data.cpp:687-698 | no publication is empty or about an empty or discarded symbol |
| `OrderBookRuns.AbortIsSegmentAtomic` | src/roq/bitmex/gateway/market_data.cpp:499-548 | an abandoned message has published exactly what a message of its complete segments alone publishes, and the latch does not advance |
| `BookOutcomes.OutcomeExactlyWhen` | src/roq/bitmex/gateway/market_data.cpp:504-538 | stated on items and cache alone: a message that is read closes the socket if and only if the first item that stops it is a kept update or delete without a price, of an id that is not cached by then; ends the process if and only if that item is an unexpected one; and completes if and only if nothing stops it |
| `StreamSends.EventClosesExactlyWhen` | src/roq/bitmex/gateway/market_data.cpp:533-537 | an event of the whole stream closes the socket if and only if it is such a message; it does so once, as the last thing sent |
| `StreamSends.SocketClosedExactlyWhen` | src/roq/bitmex/gateway/market_data.cpp:533-537 | over every run of the whole stream the socket is closed as often as such a message is read |
| `StreamSends.RejectedBooksResubscribe` | src/roq/bitmex/gateway/market_data.cpp:717-735 | over every run of the whole stream each rejected publication is followed directly by one unsubscription from "orderBookL2" and one subscription to it, and neither is sent otherwise |
| `BookGating.LatchOpenExactlyWhen` | src/roq/bitmex/gateway/market_data.cpp:476-548 | over every run the latch is open if and only if a partial was completed and since then there was no disconnect and no book rejected by an incremental or abandoned message |
| `BookGating.IncrementalNeedsOpenLatch` | src/roq/bitmex/gateway/market_data.cpp:476-482 | an incremental message publishes or touches the cache only then |
| `BookGating.DroppedUntilPartial` | src/roq/bitmex/gateway/market_data.cpp:724-735 | after a disconnect or a resubscription every incremental message is dropped without touching the cache until the next completed partial |
| `PriceCaching.PriceCache.Consult` | src/roq/bitmex/gateway/price_cache.cpp:17-62 | the answer and the new cache, for each action, with or without price, size and cached price |
| `PriceCaching.FirstAnnouncementWins` | src/roq/bitmex/gateway/price_cache.cpp:26-60 | over every sequence of requests an id is cached at a price if and only if that is the price of its first announcement since it was last deleted |
| `PriceCaching.UncachedSinceForgotten` | src/roq/bitmex/gateway/price_cache.cpp:52-60 | an id is not cached if and only if every announcement of it was followed by a delete |
| `PriceCaching.AnswerExactly` | src/roq/bitmex/gateway/price_cache.cpp:17-62 | after every sequence of requests, the answer to one more: an update or delete gets the price of the first announcement of its id since it was last deleted, whatever price it carries, and else its own; a partial or insert its own; which requests end the process; an absent size is zero |
| `BookOutcomes.ReadLevelsResolve` | src/roq/bitmex/gateway/market_data.cpp:519-532 | every level of a kept symbol that is read has such a price, by all kept items read before it, in earlier messages and in its own |
| `BookOutcomes.CacheFollowsRequests` | src/roq/bitmex/gateway/market_data.cpp:504-538 | a message leaves the cache as its kept items, up to and including the one that stops it, ask for |
| `StreamSends.CacheRemembersRequests` | src/roq/bitmex/gateway/market_data.cpp:145-150 | over every run of the whole stream the cache is what all kept items read since the start asked for; nothing clears it |
| `MarketSession.ReadyExactlyWhen` | src/roq/bitmex/gateway/market_data.cpp:258-300 | in every session: ready if and only if the first instrument partial came after a welcome and an order-book partial was completed after it with no further welcome between; READY is reported once if so and never otherwise; the remaining topics are requested once, after that instrument partial |
| `MarketSession.ReadyIsFinishedExactlyWhen` | src/roq/bitmex/gateway/market_data.cpp:276-280 | the last stage implies the ready flag; the converse holds if and only if no welcome came after the session opened |
| `MarketSession.WelcomeAgainUnfinishes` | src/roq/bitmex/gateway/market_data.cpp:317-324 | concrete input: a second welcome leaves the stream ready in an unfinished download |
| `MarketSession.UnopenedStays` | src/roq/bitmex/gateway/market_data.cpp:267-300 | nothing but an instrument partial takes the download past the instruments or requests the remaining topics |
| `MarketSession.SaysExactly` | src/roq/bitmex/gateway/market_data.cpp:258-300 | over every sequence of signals, in any number of sessions, exactly the written-out statuses and requests are sent, in that order, and the status is the last one reported |
| `MarketSession.InstrumentsAreRequested` | src/roq/bitmex/gateway/market_data.cpp:267-287 | the instruments are requested exactly once for each welcome |
| `StreamSends.StreamSaysExactly` | src/roq/bitmex/gateway/market_data.cpp:258-300 | the same for the whole stream: requests of the instruments equal welcomes, the six remaining topics and READY go out as often as written out, and the status is the last one reported |
| `Products.Product.Update` | src/roq/bitmex/gateway/product.cpp:43-143 | the merged fields, the dirty flags, the queued statistics in order, and whether anything is waiting |
| `Products.Product.FromInstrument` | src/roq/bitmex/gateway/product.cpp:31-37 | a product made from an instrument item: reference data clean, status and statistics as changed |
| `Products.Product.FromFunding` | src/roq/bitmex/gateway/product.cpp:39-41 | a product made from a funding item: empty and clean |
| `Products.Product.UpdateFromFunding` | src/roq/bitmex/gateway/product.cpp:145-184 | a funding item changes nothing |
| `Products.Product.Clear` | src/roq/bitmex/gateway/product.hpp:40-44 | nothing dirty, nothing queued, all else as before |
| `Products.UpdateIsIdempotent` | src/roq/bitmex/gateway/product.cpp:43-143 | applying an item twice is applying it once, so the double update queues each change once |
| `Products.DifferencesShow` | src/roq/bitmex/gateway/product.cpp:54-141 | overlaying the queued statistics takes a subscriber's board from the old figures to the new |
| `Products.DifferencesAreChanges` | src/roq/bitmex/gateway/product.cpp:54-141 | every queued statistic differs from what the board showed, and no type is queued twice |
| `Products.StripTimePartBounds` | src/roq/bitmex/gateway/product.cpp:20-23 | the time of day in whole seconds, whatever the day, for times before zero with the opposite sign |
| `Products.TimesInSeconds` | src/roq/bitmex/gateway/product.cpp:20-23 | whole seconds of a time and the time of day of an interval, in literal units |
| `Products.FundingWindowIs` | src/roq/bitmex/gateway/product.cpp:109-128 | a funding rate at `t` seconds with an interval of `s` seconds beyond whole days has the window from `t` to `t + s`; at time zero the window stays or is zero, as absent times are read; without a rate it stays |
| `Instruments.SubscriberIsCurrent` | src/roq/bitmex/gateway/market_data.cpp:372-431 | over every sequence of messages and disconnects: products of kept symbols are clean between messages, and folding what was sent gives exactly their statistics and status and, if and only if some item read sent it, their reference data |
| `Instruments.ReferenceKnownExactlyWhen` | src/roq/bitmex/gateway/market_data.cpp:378-421 | over every sequence of items a subscriber has reference data of a kept symbol if and only if a partial listed it or an update changed the reference data of a product already known |
| `Instruments.UpdateAloneSendsNoReference` | src/roq/bitmex/gateway/market_data.cpp:413-421 | concrete input: after one update of a new symbol there is a product and no reference data at its subscribers |
| `Instruments.ProductsHoldLastSaid` | src/roq/bitmex/gateway/product.cpp:43-143 | over every sequence of items a product of a kept symbol holds, field by field, the last value any item that was read said, or the initial value |
| `Instruments.SubscriberSeesLastSaid` | src/roq/bitmex/gateway/market_data.cpp:372-431 | end to end: what a subscriber sees of each statistic type is the last value said by an item that was read, and none exactly if none said any |
| `Instruments.StatisticsAreChanges` | src/roq/bitmex/gateway/product.cpp:54-141 | whatever came before, a statistic is sent only if it differs from what the subscriber has, once per type |
| `InstrumentSends.SubscriberSeesWindow` | src/roq/bitmex/gateway/product.cpp:109-128 | after an item with a funding rate, whatever came before, the statistic its subscriber sees has that rate and the window from `t` to `t + s` |
| `InstrumentSends.EverythingIsNews` | src/roq/bitmex/gateway/market_data.cpp:388-428 | whatever came before, an item sends a status only if it differs from the one the subscriber has, reference data in an update only if it differs, and only non-empty, changed statistics; reference data first, then status, then statistics, each at most once |
| `InstrumentSends.DiscardedIsOnlyListed` | src/roq/bitmex/gateway/market_data.cpp:379-413 | over every sequence of items, of a discarded symbol exactly one reference-data record is sent for each partial item that lists it, with the discard flag set, and nothing else; records of kept symbols have it unset |
| `InstrumentSends.MessageReadExactly` | src/roq/bitmex/gateway/market_data.cpp:372-432 | whatever came before, a message reaches the products item by item if it is the first partial since the socket was lost, an update after that partial, or funding, and not at all otherwise |
| `InstrumentSends.LatchExactlyWhen` | src/roq/bitmex/gateway/market_data.cpp:372-408 | the instrument latch is set if and only if a partial came since the socket was last lost |
| `Instruments.PartialSendsReference` | src/roq/bitmex/gateway/market_data.cpp:378-382 | after a partial, the subscribers of each listed symbol have its current reference data |
| `Instruments.CurrenciesOfFirstTouch` | src/roq/bitmex/gateway/market_data.cpp:664-685 | a product keeps for ever the currencies of the item that created it; none if a funding item did |
| `Instruments.FundingLosesCurrencies` | src/roq/bitmex/gateway/market_data.cpp:664-685 | concrete input: a partial does not repair a product that a funding item created |
| `Trades.TradesPartitioned` | src/roq/bitmex/gateway/market_data.cpp:585-604 | the summaries of an insert message, concatenated, are exactly the trades of the kept symbols, in order |
| `Trades.TradesSentExactly` | src/roq/bitmex/gateway/market_data.cpp:552-604 | the trades of an insert message have, one for one and in order, the sides, prices, sizes and match ids of the kept items; any other action sends nothing |
| `StreamSends.StreamTrades` | src/roq/bitmex/gateway/market_data.cpp:552-604 | the same over every run of the whole stream |
| `Trades.SummariesAreRuns` | src/roq/bitmex/gateway/market_data.cpp:585-604 | each summary is one symbol's maximal run, and exactly the summary of the last run is marked last |
| `Trades.TimesExactlyWhen` | src/roq/bitmex/gateway/market_data.cpp:587-597 | for every insert message: each summary is that of a run and each run of a kept symbol has one, and its time is the latest of its trades if and only if the next item is not later and the first trade is not later than the others or as late as the next item |
| `Trades.SummaryTimeExactlyWhen` | src/roq/bitmex/gateway/market_data.cpp:587-597 | the same for the run that ends before a given item |
| `Trades.LatestOfIsLatest` | src/roq/bitmex/gateway/market_data.cpp:587 | the time kept is that of some item read since the reset, or zero, and no such item is later |
| `Trades.SummaryTimeMisleads` | src/roq/bitmex/gateway/market_data.cpp:587-597 | counterexample: the time of a summary is not the latest time of its trades |
| `MarketDataStream.MarketData.OnOrderBook` | src/roq/bitmex/gateway/market_data.cpp:470-550 | latch, cache, session and everything sent after an order-book message, as specified by `OnMessage` |
| `MarketDataStream.MarketData.ReadItems` | src/roq/bitmex/gateway/market_data.cpp:504-539 | the loop over the items: cache, buffers and publications up to the end or to the item that fails |
| `MarketDataStream.MarketData.ReadItem` | src/roq/bitmex/gateway/market_data.cpp:505-538 | one item: publish at a change of symbol, skip if discarded, resolve, append |
| `MarketDataStream.MarketData.Publish` | src/roq/bitmex/gateway/market_data.cpp:687-722 | the pending segment is published unless it is empty or discarded; a rejected publication resubscribes |
| `MarketDataStream.MarketData.Resubscribe` | src/roq/bitmex/gateway/market_data.cpp:724-735 | closes the latch and asks for the order book again |
| `MarketDataStream.MarketData.Conclude` | src/roq/bitmex/gateway/market_data.cpp:530-548 | closes the socket, or after a completed partial opens the latch and releases the download |
| `MarketDataStream.MarketData.OnInstrument` | src/roq/bitmex/gateway/market_data.cpp:358-439 | products, session and everything sent after an instrument message |
| `MarketDataStream.MarketData.FindProduct` | src/roq/bitmex/gateway/market_data.cpp:664-673 | the product is made from the item, or the item is merged into it; no other product changes |
| `MarketDataStream.MarketData.OnFunding` | src/roq/bitmex/gateway/market_data.cpp:608-624 | products are made if need be, and nothing is sent |
| `MarketDataStream.MarketData.OnTrade` | src/roq/bitmex/gateway/market_data.cpp:552-605 | the summaries of a trade message |
| `MarketDataStream.MarketData.OnStage` | src/roq/bitmex/gateway/market_data.cpp:258-283 | what entering a stage reports, requests and sets |
| `MarketDataStream.MarketData.OnWelcome` | src/roq/bitmex/gateway/market_data.cpp:317-324 | a welcome begins the download |
| `MarketDataStream.MarketData.OnSocketLost` | src/roq/bitmex/gateway/market_data.cpp:145-150 | a lost socket shuts both latches and resets the download; cache and products stay |
| `StreamRuns.Deliver` | src/roq/bitmex/gateway/market_data.cpp:145-605 | the object does with each event what the stream machine does, so the theorems about its runs hold of the object |
| `StreamRuns.StreamReadyExactlyWhen` | src/roq/bitmex/gateway/market_data.cpp:258-324 | download safety for every session of the whole stream, the first one included: ready, with READY reported once, if and only if the two partials came in order; the remaining topics requested once if and only if the first came |
| `StreamRuns.StreamBookIsExact` | src/roq/bitmex/gateway/market_data.cpp:470-550 | book refinement for the whole stream: folding the publications among everything it sent gives the exchange's book by price, any other events in between |
| `StreamRuns.StreamRecovers` | src/roq/bitmex/gateway/market_data.cpp:470-550 | recovery for the whole stream, in closed form, for the fold of the accepted publications among everything it sent |
| `StreamRuns.WorldsAreRun` | src/roq/bitmex/gateway/market_data.cpp:470-550 | a run of the stream beside a well-formed exchange and a consumer that folds what it accepts is a run of the refinement |
| `StreamRuns.GatesAreRun` | src/roq/bitmex/gateway/market_data.cpp:476-548 | only order-book messages and lost sockets move the latch and the cache |
| `StreamRuns.StreamGating` | src/roq/bitmex/gateway/market_data.cpp:476-482 | an incremental message is read only if a partial was completed with no disconnect and no rejection since |
| `StreamRuns.StreamSubscriberIsCurrent` | src/roq/bitmex/gateway/market_data.cpp:372-431 | lossless products for every run of the whole stream, with reference data if and only if some item read sent it |
| `StreamRuns.StreamSubscriberSeesLastSaid` | src/roq/bitmex/gateway/market_data.cpp:372-431 | for every run of the whole stream, what a subscriber sees of each statistic is the last value said by an item that was read |
| `StreamRuns.StreamKeepsCurrencies` | src/roq/bitmex/gateway/market_data.cpp:267-300 | in every run in which funding comes only after the remaining topics were requested, every symbol of the first instrument partial keeps the currencies given there, across reconnects, updates and funding |
| `StreamRuns.NotRequestedYet` | src/roq/bitmex/gateway/market_data.cpp:267-300 | a run without an instrument partial never requests the remaining topics |
| `StreamRuns.ProductsFollow` | src/roq/bitmex/gateway/market_data.cpp:358-439 | only instrument and funding messages reach the products and their subscribers |
| `RoundRobin.OrderEntryRR.GetNext` | src/roq/bitmex/gateway/controller.cpp:214-226 | chooses the ready connection nearest ahead of the cursor and moves past it; fails, leaving the cursor, if and only if none is ready |
| `RoundRobin.ChosenWithinARound` | src/roq/bitmex/gateway/controller.cpp:214-226 | a connection ready at every call is chosen within any n consecutive successful calls, whatever the others do |
| `RoundRobin.CursorApproaches` | src/roq/bitmex/gateway/controller.cpp:216-222 | each call that passes over a ready connection brings the cursor strictly nearer to it |
| `RoundRobin.AlwaysReadyAreBalanced` | src/roq/bitmex/gateway/controller.cpp:214-226 | two connections that are always ready are chosen alternately, whatever the others do |
| `RoundRobin.CountsDifferByAtMostOne` | src/roq/bitmex/gateway/controller.cpp:214-226 | so their counts differ by at most one |
| `StreamIds.CreateStreams` | src/roq/bitmex/gateway/controller.cpp:66-70 | the ids of all streams, in order, are the first A(N+1)+1 ids; without connections the process ends |
| `StreamIds.CreateOrderEntry` | src/roq/bitmex/gateway/controller.cpp:28-43 | N ids for each of A accounts, in order |
| `StreamIds.CreateDropCopy` | src/roq/bitmex/gateway/controller.cpp:45-53 | one more id for each account |
| `StreamIds.DistinctExactlyWhen` | src/roq/bitmex/gateway/controller.cpp:66-70 | n ids are pairwise distinct if and only if n is at most 65536 |
| `StreamIds.NumberedExactlyWhen` | src/roq/bitmex/gateway/controller.cpp:66-70 | they are exactly 1 to n if and only if n is below 65536 |
| `DeadMansSwitch.NeverExpiresExactlyWhen` | src/roq/bitmex/gateway/drop_copy.cpp:120-128 | with ticks at most a gap apart the countdown never runs out in any session if and only if a quarter of the time-out plus the gap fits the countdown in whole milliseconds |
| `DeadMansSwitch.ShortTimeoutExpires` | src/roq/bitmex/gateway/drop_copy.cpp:213-221 | concrete input: a time-out just below one millisecond asks for no countdown |
| `DeadMansSwitch.CountdownIs` | src/roq/bitmex/gateway/drop_copy.cpp:213-221 | the countdown asked for is the time-out in whole milliseconds, in literal units |
| `DeadMansSwitch.SendsAreSpaced` | src/roq/bitmex/gateway/drop_copy.cpp:124-127 | consecutive renewals of a session are at least a quarter of the time-out apart |
| `DeadMansSwitch.RenewalFollowsLastSend` | src/roq/bitmex/gateway/drop_copy.cpp:124-127 | the first tick renews, and the next renewal is due a quarter of the time-out after the last |
| `DropCopies.DropCopy.OnTick` | src/roq/bitmex/gateway/drop_copy.cpp:120-128 | a tick renews the switch if the stream is alive, ready, enabled and due, and does nothing otherwise |
| `DropCopies.TickSendsExactlyWhen` | src/roq/bitmex/gateway/drop_copy.cpp:120-128 | after any events from the start, for any configuration, a tick sends something if and only if the connection is alive, cancelling on disconnect is on with a time-out, the stream is ready, and a quarter of the time-out has passed since the last renewal of the session, if any; it is then one request for the time-out in whole milliseconds |
| `DropCopies.CancelsExactly` | src/roq/bitmex/gateway/drop_copy.cpp:120-306 | over every run, for any configuration, exactly these countdowns are asked for, in order: zero at each welcome if the switch is off, and the time-out at each such tick |
| `DropCopies.DisabledNeverArms` | src/roq/bitmex/gateway/drop_copy.cpp:124 | with either option off, no run ever asks for a countdown but zero |
| `DropCopies.DropCopy.OnSocketLost` | src/roq/bitmex/gateway/drop_copy.cpp:156-162 | resets ready flag, renewal time, latch and download |
| `DropCopies.DropCopy.OnStages` | src/roq/bitmex/gateway/drop_copy.cpp:248-266 | what entering the stages reports, requests and sets |
| `DropCopies.DropCopy.OnWelcome` | src/roq/bitmex/gateway/drop_copy.cpp:297-306 | begins the download, and cancels the countdown if the switch is off |
| `DropCopies.SessionSays` | src/roq/bitmex/gateway/drop_copy.cpp:248-306 | what a ready socket, a lost socket and a welcome send, with the four topics written out |
| `DropCopies.StatusIsLastReported` | src/roq/bitmex/gateway/drop_copy.cpp:248-266 | after any events the status is the last one reported |
| `DropCopies.DropCopy.OnOrders` | src/roq/bitmex/gateway/drop_copy.cpp:381-394 | forwards the first partial's orders as snapshots, then releases the download; forwards nothing else |
| `DropCopies.DropCopy.OnExecutions` | src/roq/bitmex/gateway/drop_copy.cpp:396-505 | the order and trade updates of an execution message, in order |
| `DropCopies.OrdersForwardedOnce` | src/roq/bitmex/gateway/order_update.cpp:24-91 | in every session exactly the orders of the first order partial are forwarded, once and in order, none after READY; ready if and only if that partial came after a welcome |
| `DropCopies.TradeFollowsItsOrder` | src/roq/bitmex/gateway/drop_copy.cpp:461-503 | each execution has its order update, directly followed, if it is a trade, by one trade update with the ids its own callback delivered, and nothing else is sent |
| `DropCopies.FillsConserved` | src/roq/bitmex/gateway/drop_copy.cpp:396-505 | over any events, across sessions, the fills sent add up to the last quantities of the trade executions |
| `DropCopies.FillsMatchTrades` | src/roq/bitmex/gateway/drop_copy.cpp:461-503 | over any events, across sessions, the fills sent are those of the trade executions received, one for one and in order, each with its match id, last quantity and last price |
| `DropCopies.NoRenewalBeforeReady` | src/roq/bitmex/gateway/drop_copy.cpp:156-162 | no renewal is scheduled while the stream is not ready, whatever happened before |
| `DropCopies.TicksDriveTheSwitch` | src/roq/bitmex/gateway/drop_copy.cpp:120-128 | while the stream is ready its ticks drive the switch as `DeadMansSwitch` says, whatever else arrives |
| `DropCopies.SwitchStaysAlive` | src/roq/bitmex/gateway/drop_copy.cpp:120-266 | from the event that makes the stream ready, while it stays connected with the switch enabled and ticks are close enough, no tick after the first finds the countdown run out |

## Left out

- Sockets, the REST client, metrics, logging, profiling, settings and configuration, application wiring: input and output without state laws of their own.
- JSON decoding, generated message types and the dispatch of a decoded message to its handler: the model starts from typed messages.
- The enum tables in `map.cpp` and the gateway's `utils.hpp`: finite tables.
- `guess_error`: a lookup table over a comparison that is not part of this model.
- Encoder text, request signing, the order-entry stream and its responses, and the routing of create, modify and cancel requests.
- Quote, liquidation, settlement, margin and position handlers: stateless.
- Floating-point rounding and the tolerance of price equality: prices are exact reals.
- The fields of requests and order updates: orders and executions are passed on whole.
- The fields of a publication, summary, reference-data or status record that are constants or copies, such as the exchange's name and the stream id.
- A trade's, an order's and an item's enum values that are only mapped and passed on.
- Product: the source's single fields are grouped into records (reference data, currencies, figures), assigned together.
- The second argument of `resubscribe_order_book_l2` is only logged; the latch covers all symbols, as in the code.
- A consumer's book after a publication it rejected: unspecified, until the next accepted snapshot of that symbol.
- Order of accounts in the controller's maps: unspecified in the source; the ids are stated in creation order.
