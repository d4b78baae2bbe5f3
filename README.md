# Order matching server and trading client — a Dafny model

This project models the core of a small order-matching system: its C++ server and its Python client.

**The server**
- Each symbol has its own order book. A book holds FIFO queues of bid and ask orders at each price, a lookup from order id to order, and two stop-order multimaps.
- A matching engine puts validation gates in front of each book. It routes each order down the GTC, IOC/FOK or market path and numbers the executions it publishes.
- A line parser turns `|`-separated, `\n`-terminated text into messages.
- A controller routes messages to the engine of their symbol and keeps the table of per-symbol trading configs.

**The client**
- The client builds the four request lines.
- It keeps an id-keyed store of its orders, which it saves as a list of records.
- It updates an order's status by looking for an acknowledgement token in the server's reply.

**How the model is shaped**
- Prices are whole numbers of ticks.
- A C++ `Order*` is an order id that indexes a map of order records.
- A price level is a sequence of order ids.
- A stop multimap is a sequence of (trigger price, order id) entries.
- Objects whose fields the source updates in place are Dafny classes, with `modifies` frames:
  - the order book;
  - the matching engine;
  - the controller;
  - the config manager;
  - the parser buffer;
  - the client's order objects, its store and its session.
- Loops in the source are loops here, each proved against a specification function. These include:
  - the queue rebuild;
  - the stop erase loops;
  - the matching loop;
  - the publishing loop;
  - `splitLine`;
  - the symbol copy;
  - the save and load loops.

**Modules**
- `Text`: decimal rendering and parsing, splitting on `|`, substring search.
- `Messages`, `ServerOrder`, `SymbolConfigs`: the server's records and config table.
- `BookSpec`: the book's state as values, the book invariant, and matching and stop triggering as functions, with their lemmas.
- `Book`: the `OrderBook` class.
- `Engine`: the `MatchingEngine` class.
- `Controller`: the `EngineController` class.
- `MessageParsing`: the parser.
- `ClientUtil`: the client's line builders.
- `WireRoundTrip`: what the server's parser reads back from the client's lines.
- `ClientOrders`: the client's `Order` and `OrderManager`.
- `ClientApp`: the client's `Client`.

**Inputs that become parameters**
- Clock readings are parameters: `now`, `timestamp`.
- The server's reply to a client request is a parameter, `reply`.
- The persistence file's contents are an `Option<seq<Record>>`. `None` stands for a missing file or one that is not valid JSON, the two errors `load_orders` catches.
- Whether the volatility test of `checkVolatilityHalt` fires is a parameter, `breach`.

## Model

| member | source | states |
|---|---|---|
| `Text.ParseU64` | src/MessageParser.cpp:98-100 | a plain digit string below 2^64 parses to its value; anything else is a failure, which the parser treats as the throw of `std::stoull` |
| `Text.ParseTicks` | src/MessageParser.cpp:102 | an optional `-`, digits, and an optional `.` followed by zeros parse to that whole number of ticks; anything else is a failure, treated as the throw of `std::stod` |
| `Text.ParseU64RoundTrip` | src/MessageParser.cpp:56-57 | `std::stoull` parses the decimal text of any 64-bit value back to that value |
| `Text.TicksRoundTrip` | src/MessageParser.cpp:102 | the price text the client writes (Python's float text of a whole price) is read back by the server as the same price |
| `Text.SplitJoin` | src/MessageParser.cpp:63-77 | splitting a line at its separators gives one field more than there are separators, no field holds a separator, and joining the fields with the separator gives back the line |
| `Text.JoinSplit` | src/MessageParser.cpp:63-77 | joining separator-free fields and splitting the result gives back the same fields |
| `Text.IndexOf` | src/MessageParser.cpp:67 | `find` returns the first index at or after the start that holds the character, or the length when there is none |
| `Text.ContainsIff` | client/client.py:37 | Python's `token in reply` holds exactly when some window of the reply equals the token |
| `Text.Absent` | client/client.py:43 | a reply with no window equal to the token does not contain it |
| `SymbolConfigs.WithHaltedIdempotent` | src/SymbolConfig.h:31-43 | halting twice is the same as halting once, and resuming twice the same as resuming once |
| `SymbolConfigs.HaltThenResume` | src/SymbolConfig.h:31-43 | halting a running symbol and then resuming it restores the table exactly, so only `tradingHalted` was touched |
| `SymbolConfigs.SymbolConfigManager.constructor` | src/SymbolConfig.h:45-46 | the config table starts empty |
| `SymbolConfigs.SymbolConfigManager.SetConfig` | src/SymbolConfig.h:18-21 | inserts or overwrites the entry of one symbol; every other entry is unchanged |
| `SymbolConfigs.SymbolConfigManager.GetConfig` | src/SymbolConfig.h:23-29 | true with the stored config exactly when the symbol has one; otherwise false, with the out-parameter untouched |
| `SymbolConfigs.SymbolConfigManager.HaltTrading` | src/SymbolConfig.h:31-36 | sets `tradingHalted` of an existing symbol only and never inserts |
| `SymbolConfigs.SymbolConfigManager.ResumeTrading` | src/SymbolConfig.h:38-43 | clears `tradingHalted` of an existing symbol only and never inserts |
| `ServerOrder.NewOrder` | src/Order.h:20-29 | `totalQuantity` equals `quantity`. Every other field is copied. The 8-char symbol buffer holds the first min(len, 7) characters, then a NUL at index min(len, 7) |
| `ServerOrder.ShortSymbolKept` | src/Order.h:25-28 | a symbol of at most 7 characters is read back whole from the buffer as a C string |
| `BookSpec.MaxKey` | src/OrderBook.cpp:166 | the best bid level is the highest price present |
| `BookSpec.MinKey` | src/OrderBook.cpp:167 | the best ask level is the lowest price present |
| `BookSpec.Step` | src/OrderBook.cpp:170-226 | the reference definition of one trade: best bid front against best ask front, the smaller remainder traded at the ask price with the given sequence number, filled orders popped and erased, empty levels erased |
| `BookSpec.MatchAll` | src/OrderBook.cpp:163-229 | the reference definition of matchBook: trades repeat while both sides are non-empty, the best bid reaches the best ask and the fronts belong to different participants, numbering executions from the given sequence |
| `BookSpec.StepValid` | src/OrderBook.cpp:170-226 | one trade keeps the book consistent, only shrinks or erases lookup entries, and removes at least one order, so the matching loop terminates |
| `BookSpec.MatchSettles` | src/OrderBook.cpp:163-229 | after matching the book is consistent and the loop condition fails: a side is empty, the best bid is below the best ask, or the two front orders share a participant |
| `BookSpec.MatchSequences` | src/OrderBook.cpp:183-197 | the executions of a matching run carry consecutive sequence numbers from `seqBase` and the run's timestamp |
| `BookSpec.MatchConserves` | src/OrderBook.cpp:199-226 | each side's total remaining quantity falls by exactly the sum of the traded quantities |
| `BookSpec.StepConserves` | src/OrderBook.cpp:199-200 | one trade takes exactly its quantity from the total of each side |
| `BookSpec.AfterTradeShrinks` | src/OrderBook.cpp:199-226 | a trade only lowers quantities or erases filled orders, and erases at least one of the two |
| `BookSpec.FillFrontValid` | src/OrderBook.cpp:199-226 | popping a filled front order (and erasing an emptied level) keeps that side's queues consistent with the lookup |
| `BookSpec.WithoutElements` | src/OrderBook.cpp:128-143 | the rebuilt queue holds exactly the old elements other than the target, still distinct |
| `BookSpec.WithoutSplice` | src/OrderBook.cpp:128-143 | removal cuts out exactly the target's position, so the other orders keep their relative order |
| `BookSpec.WithoutAbsent` | src/OrderBook.cpp:128-143 | rebuilding a queue that lacks the target leaves it unchanged |
| `BookSpec.RemoveFirstElements` | src/OrderBook.cpp:47-74 | erasing a stop entry removes exactly that entry and keeps the others distinct |
| `BookSpec.RemoveFirstAt` | src/OrderBook.cpp:47-74 | the erase loop removes the first matching entry it meets and nothing else |
| `BookSpec.RemoveFirstAbsent` | src/OrderBook.cpp:69-74 | erasing a stop entry that is absent changes nothing |
| `BookSpec.TriggerPartition` | src/OrderBook.cpp:279-300 | the stops kept are exactly the entries that do not fire, and the ids fired are exactly those of the entries that fire (buy: trigger at or below the last price; sell: at or above) |
| `BookSpec.TriggerSnoc` | src/OrderBook.cpp:279-300 | the kept and fired lists grow one entry at a time in multimap order |
| `BookSpec.KeptOrder` | src/OrderBook.cpp:279-300 | the kept entries keep their original order, so their ids stay distinct |
| `BookSpec.Modified` | src/OrderBook.cpp:103-119 | a modified order has the new price, `quantity = totalQuantity = newQty`, an iceberg's visible quantity clamped to min(old, newQty), and every other field unchanged |
| `BookSpec.EnqueueValid` | src/OrderBook.cpp:29-32 | queuing a new limit or iceberg order at the back of its level keeps the book invariant |
| `BookSpec.AddStopValid` | src/OrderBook.cpp:15-19 | recording a new stop order in its side's multimap keeps the book invariant |
| `BookSpec.AddMarketValid` | src/OrderBook.cpp:21-27 | putting a market order into the lookup alone keeps the book invariant |
| `BookSpec.UnqueueValid` | src/OrderBook.cpp:123-148 | taking a resting order out of its queue and the lookup keeps the book invariant |
| `BookSpec.ModifyValid` | src/OrderBook.cpp:89-121 | modifying an order (dequeue, update, requeue at the back of the new level) keeps the book invariant |
| `BookSpec.CancelStopValid` | src/OrderBook.cpp:47-74 | dropping a stop order from the lookup and the multimap keeps the book invariant |
| `BookSpec.CancelMarketValid` | src/OrderBook.cpp:75-80 | dropping a market order from the lookup keeps the book invariant |
| `BookSpec.TriggerValid` | src/OrderBook.cpp:251-311 | firing both multimaps and activating the fired orders as market orders keeps the book invariant |
| `BookSpec.Admit` | src/OrderBook.cpp:8-33 | the levels and lookup after addOrder: a known id changes nothing; otherwise the order enters the lookup, and a limit or iceberg order also joins the back of its price level |
| `BookSpec.AdmitStops` | src/OrderBook.cpp:15-19 | a side's stop multimap after addOrder: a new stop order of that side appends its (trigger, id) entry |
| `BookSpec.Withdraw` | src/OrderBook.cpp:35-87 | the levels and lookup after cancelOrder: unknown ids and other participants' orders change nothing; otherwise the order leaves its level (when it rests) and the lookup |
| `BookSpec.WithdrawStops` | src/OrderBook.cpp:47-74 | a side's stop multimap after cancelOrder: an owned stop of that side loses its first (trigger, id) entry |
| `BookSpec.Remodel` | src/OrderBook.cpp:89-121 | the levels and lookup after modifyOrder: an owned limit or iceberg order moves to the back of the level at its new price with the `Modified` fields; anything else changes nothing |
| `BookSpec.Triggered` | src/OrderBook.cpp:251-311 | the levels and lookup after triggerStopOrders: every id whose stop fires at the last trade price becomes a market order |
| `BookSpec.AdmitValid` | src/OrderBook.cpp:8-33 | addOrder's outcome, `Admit` and `AdmitStops`, keeps the book invariant |
| `BookSpec.WithdrawValid` | src/OrderBook.cpp:35-87 | cancelOrder's outcome, `Withdraw` and `WithdrawStops`, keeps the book invariant |
| `BookSpec.RemodelValid` | src/OrderBook.cpp:89-121 | modifyOrder's outcome, `Remodel`, keeps the book invariant with the stops untouched |
| `BookSpec.MatchValid` | src/OrderBook.cpp:163-229 | matching by `MatchAll` keeps the whole book invariant, stop multimaps included |
| `BookSpec.WindowSuffix` | src/OrderBook.cpp:243-249 | the recent-trade window is the newest part of the history, at most 100 entries |
| `BookSpec.WindowAppend` | src/OrderBook.cpp:243-249 | appending then trimming is the same as trimming the whole history |
| `Book.RebuildQueue` | src/OrderBook.cpp:128-143 | the rebuild loop yields the queue without the target and says whether the target was found |
| `Book.EraseFiring` | src/OrderBook.cpp:279-300 | the erase loop over one multimap keeps the entries that do not fire and collects the ids of those that do, in order |
| `Book.OrderBook.constructor` | src/OrderBook.cpp:6 | an empty, consistent book with no last trade |
| `Book.OrderBook.AddOrder` | src/OrderBook.cpp:8-33 | fails and changes nothing for an id already in the lookup. Otherwise the id enters the lookup, and the order goes to the back of its price queue (limit, iceberg), to its side's stop multimap (stop), or nowhere else (market). The new state is `Admit` and `AdmitStops` of the old, and the book stays consistent |
| `Book.OrderBook.InsertStopOrder` | src/OrderBook.cpp:324-330 | appends (trigger price, id) to the multimap of the order's side |
| `Book.OrderBook.CancelOrder` | src/OrderBook.cpp:35-87 | fails and changes nothing for an unknown id or another participant's order. Otherwise it takes the order out of the lookup and of its queue or multimap (market: lookup only) and returns true. The new state is `Withdraw` and `WithdrawStops` of the old, and the book stays consistent |
| `Book.OrderBook.EraseStop` | src/OrderBook.cpp:47-74 | the erase loop over one side's multimap erases the first entry equal to (trigger, id) and says whether it found one |
| `Book.OrderBook.CancelStop` | src/OrderBook.cpp:47-74 | the stop branch of `cancelOrder`: lookup entry and multimap entry gone, levels untouched, book consistent |
| `Book.OrderBook.CancelResting` | src/OrderBook.cpp:82-86 | the resting branch of `cancelOrder`: the order leaves its queue and the lookup, the multimaps are untouched, and the book stays consistent |
| `Book.OrderBook.RemoveOrderFromBook` | src/OrderBook.cpp:123-148 | rebuilds the order's queue without it, erases the level when it empties, and erases the lookup entry only when the order was found |
| `Book.OrderBook.ModifyOrder` | src/OrderBook.cpp:89-121 | fails without change for an unknown id, another participant's order, or a stop or market order. A limit or iceberg order leaves its queue, is updated as `Modified` states and joins the back of the queue at the new price, losing time priority. The new state is `Remodel` of the old |
| `Book.OrderBook.ModifyResting` | src/OrderBook.cpp:108-119 | an owned resting order leaves its old queue, takes the `Modified` fields and joins the back of the queue at the new price; the stops and trade state are untouched and the book stays consistent |
| `Book.OrderBook.Requeue` | src/OrderBook.cpp:112-119 | the changed order is stored under its id and joins the back of the queue of its side at its price |
| `Book.OrderBook.GetTopOfBook` | src/OrderBook.cpp:150-154 | the highest bid price and the lowest ask price, each 0 when that side is empty |
| `Book.OrderBook.RecordTradePrice` | src/OrderBook.cpp:243-249 | the trade is appended to the recent-trade deque, which keeps only its last 100 entries |
| `Book.OrderBook.MatchBook` | src/OrderBook.cpp:163-229 | the book and executions are exactly those of the matching specification `MatchAll`. The book stays consistent, the stops are untouched, and each trade is recorded in the recent-trade window |
| `Book.OrderBook.MatchOnce` | src/OrderBook.cpp:165-172 | one loop turn trades exactly when the loop condition holds, and then shrinks the lookup |
| `Book.OrderBook.MatchTurn` | src/OrderBook.cpp:165-227 | one loop turn keeps the loop invariant toward `MatchAll`, appending its execution and advancing the sequence; it trades and shrinks the lookup, or stops exactly when the loop condition fails |
| `Book.OrderBook.TradeFronts` | src/OrderBook.cpp:174-226 | one trade: best bid front against best ask front, quantity the smaller remainder, price the ask's, both debited, filled orders popped and erased, empty levels erased |
| `Book.OrderBook.ActivateStopOrder` | src/OrderBook.cpp:313-322 | the order's type becomes MARKET in the lookup; nothing else changes |
| `Book.OrderBook.TriggerStopOrders` | src/OrderBook.cpp:251-311 | without a last trade nothing changes. Otherwise exactly the firing stops leave the multimaps and become market orders in the lookup, and the book stays consistent |
| `Book.OrderBook.Fire` | src/OrderBook.cpp:276-306 | the multimaps keep exactly the stops that do not fire and every fired id is activated |
| `Book.OrderBook.ActivateAll` | src/OrderBook.cpp:303-306 | the activation loop turns every listed id into a market order |
| `Book.OrderBook.Match` | src/OrderBook.cpp:156-161 | stop triggering followed by matching. Without a last trade the book and executions are exactly those of `MatchAll`; with one they are `MatchAll` of `Triggered`, the state with the fired stops turned into market orders |
| `Engine.AcceptedHasLiveConfig` | src/MatchingEngine.cpp:84-95 | an add that passed validation has a config that is not halted, so the second lookup and halt test of `processAdd` never refuse it |
| `Engine.UnpricedIgnoresPrice` | src/MatchingEngine.cpp:21-41 | market and stop orders pass or fail whatever their price and whatever the volatility test says |
| `Engine.PricedNeedsBand` | src/MatchingEngine.cpp:21-41 | an accepted limit or iceberg order has a positive price within [minPrice, maxPrice] and no volatility breach |
| `Engine.AcceptedSymbolFits` | src/MatchingEngine.cpp:11-13 | an accepted symbol fits the order's symbol buffer with no character lost |
| `Engine.QuantityValid` | src/MatchingEngine.cpp:202-206 | the symbol has a config and the quantity reaches its minimum |
| `Engine.PriceValidForSymbol` | src/MatchingEngine.cpp:187-191 | the symbol has a config and the price lies in [minPrice, maxPrice] |
| `Engine.TickSizeValid` | src/MatchingEngine.cpp:193-200 | on whole-tick prices only the config lookup can fail |
| `Engine.ValidateCancel` | src/MatchingEngine.cpp:51-57 | only order id 0 is refused |
| `Engine.ValidateCancelReplace` | src/MatchingEngine.cpp:59-77 | refuses id 0, a non-positive price, quantity 0, and a price or quantity the engine symbol's config refuses |
| `Engine.Carries` | src/Order.h:20-29 | the order processAdd builds copies every message field, takes the clock reading as timestamp, and keeps the symbol up to the buffer size with a NUL after it |
| `Engine.Leftover` | src/MatchingEngine.cpp:258-261 | when quantity is left on a market or IOC/FOK order after matching, cancelOrder runs under its id and participant |
| `Engine.LeftoverStops` | src/MatchingEngine.cpp:258-261 | the same cancellation on a stop multimap |
| `Engine.Routed` | src/MatchingEngine.cpp:104-135 | the reference definition of processAdd's paths: market and IOC/FOK orders are admitted, matched and their rest cancelled; a GTC duplicate changes nothing and publishes nothing; a GTC limit or iceberg order is admitted and matched; a GTC stop order is only admitted |
| `Engine.RoutedStops` | src/MatchingEngine.cpp:104-135 | the stop multimaps after processAdd's paths: the admitted stop entry, and on the market and IOC/FOK paths the cancellation of the rest |
| `Engine.RoutedValid` | src/MatchingEngine.cpp:104-135 | every path of processAdd keeps the book invariant, stop multimaps included |
| `Engine.UnpricedNeverRests` | src/MatchingEngine.cpp:242-272 | a new market, IOC or FOK order is never left in the lookup after its path |
| `Engine.RestingSettles` | src/MatchingEngine.cpp:112-127 | after a new GTC limit or iceberg order the book is consistent and no longer crossed between different participants |
| `Engine.PublishedChain` | src/MatchingEngine.cpp:114-126 | two consecutive publications number their executions as one consecutive run |
| `Engine.MatchingEngine.constructor` | src/MatchingEngine.cpp:5-8 | an empty consistent book, next sequence number 1, nothing published |
| `Engine.MatchingEngine.CheckVolatilityHalt` | src/MatchingEngine.cpp:208-222 | answers true exactly when the symbol is halted already or a limit or iceberg order breaches the band; in the latter case it halts the symbol |
| `Engine.MatchingEngine.ValidateAdd` | src/MatchingEngine.cpp:10-49 | accepts exactly when the symbol is at most 7 characters, the quantity is nonzero and reaches the symbol's minimum, limit and iceberg prices are positive and in band, a stop's trigger is positive, and the volatility gate does not halt; the config table changes only by that halt |
| `Engine.MatchingEngine.SendExecution` | src/MatchingEngine.cpp:177-181 | the execution is appended to the published log |
| `Engine.MatchingEngine.Publish` | src/MatchingEngine.cpp:130-133 | every execution is published in order and the next sequence number is one past the last one published |
| `Engine.MatchingEngine.CheckTimeInForce` | src/MatchingEngine.cpp:224-240 | IOC and FOK alike cancel a remainder (the book becomes `Withdraw` of the order) and stop; GTC goes on with the book untouched |
| `Engine.MatchingEngine.HandleMarketOrder` | src/MatchingEngine.cpp:242-262 | the order is admitted and the executions and book are `MatchAll` of the admitted state, numbered from the next sequence number, with any rest of the order then cancelled (`Leftover`); a new market order is never left in the lookup |
| `Engine.MatchingEngine.HandleIocFok` | src/MatchingEngine.cpp:264-272 | partial fills stand: the executions and book are `MatchAll` of the admitted state, and the rest of the order is cancelled (`Leftover`); a new IOC or FOK order never rests |
| `Engine.MatchingEngine.EnterAndMatch` | src/MatchingEngine.cpp:243-245 | addOrder then matchBook: the executions and the new book are `MatchAll` of `Admit` of the old book, numbered from the next sequence number, and the quantity left on the order is reported |
| `Engine.MatchingEngine.RestAndMatch` | src/MatchingEngine.cpp:112-127 | the GTC path: a duplicate id returns false with the book unchanged and nothing published; a limit or iceberg order rests and the book and published executions are `MatchAll` of `Admit`; a stop order is only admitted |
| `Engine.MatchingEngine.MatchAndPublish` | src/MatchingEngine.cpp:154-161 | the book and the executions published are exactly `MatchAll` of the old book from the next sequence number; the stops are untouched |
| `Engine.MatchingEngine.PublishNumbered` | src/MatchingEngine.cpp:130-133 | a run numbered from the next sequence number is appended to the log, and the next sequence number follows it |
| `Engine.MatchingEngine.ProcessAdd` | src/MatchingEngine.cpp:83-136 | a refused add returns false with book, log and sequence untouched. An accepted one returns false only for a GTC non-market duplicate id, builds the order the message `Carries`, and leaves the book, stops and published executions exactly as `Routed` and `RoutedStops` give |
| `Engine.MatchingEngine.Route` | src/MatchingEngine.cpp:104-135 | the market, IOC/FOK and GTC paths of `processAdd` for a validated order: book, stops and published executions are `Routed` and `RoutedStops` of the old state, and a GTC duplicate leaves the book unchanged |
| `Engine.MatchingEngine.ProcessCancel` | src/MatchingEngine.cpp:138-145 | succeeds exactly for a nonzero id in the lookup owned by the participant; a valid cancel leaves the book as `Withdraw` and `WithdrawStops` give, so just that order leaves its queue or multimap and the lookup; otherwise the book is unchanged |
| `Engine.MatchingEngine.ProcessCancelReplace` | src/MatchingEngine.cpp:147-163 | succeeds exactly when validation passes and the participant owns a resting order. Then the book and published executions are `MatchAll` of `Remodel` of the old book; otherwise nothing changes |
| `Controller.EngineController.constructor` | src/EngineController.cpp:4-5 | no engines and no recorded order symbols |
| `Controller.EngineController.AddEngineForSymbol` | src/EngineController.cpp:7-26 | a known symbol changes neither configs nor engines; a new one gets exactly the given config, not halted, and one fresh engine |
| `Controller.EngineController.RecordOrderSymbol` | src/EngineController.cpp:103-106 | inserts or overwrites one entry of the order-symbol map |
| `Controller.EngineController.FindOrderSymbol` | src/EngineController.cpp:108-114 | true with the stored symbol exactly when the id is recorded; otherwise the out-parameter is untouched |
| `Controller.EngineController.DispatchAdd` | src/EngineController.cpp:28-41 | false for a symbol without an engine; otherwise the engine's verdict, with the engine's book and log changed as `Routed` gives for an accepted order, and the order's symbol is recorded exactly when it was accepted |
| `Controller.EngineController.ForwardAdd` | src/EngineController.cpp:35-36 | the symbol's engine processes the add, answers its validation verdict, and for an accepted order changes as `Routed` gives |
| `Controller.EngineController.DispatchCancel` | src/EngineController.cpp:43-57 | false for an id with no recorded symbol, without calling any engine; otherwise that engine's cancel verdict, and a valid cancel leaves its book as `Withdraw` and `WithdrawStops` give |
| `Controller.EngineController.DispatchCancelReplace` | src/EngineController.cpp:59-73 | false for an id with no recorded symbol, without calling any engine; otherwise that engine's cancel-replace verdict, and its book and published executions change as `ProcessCancelReplace` states: unchanged on refusal, `MatchAll` of `Remodel` of the old book on success, stop multimaps untouched |
| `Controller.EngineController.GetTopOfBook` | src/EngineController.cpp:94-101 | found exactly for a symbol with an engine, and then that book's best bid and ask |
| `MessageParsing.LineOfPrefix` | src/MessageParser.cpp:12-17 | a line written in front of a buffer is the first line read back, and what follows its `\n` is the rest |
| `MessageParsing.HeaderDropRule` | src/MessageParser.cpp:23-60 | a header line is dropped exactly when its type or sequence field is empty or the type is not ADD, CANCEL, CANCEL_REPLACE or SNAPSHOT_REQUEST; a decoded header carries the type the line names |
| `MessageParsing.HeaderTimestampDefault` | src/MessageParser.cpp:37-42 | an empty or missing timestamp field gives timestamp 0 |
| `MessageParsing.AddHeaderAgrees` | src/MessageParser.cpp:98-102 | a decoded ADD line carries the header `nextMessageHeader` decodes |
| `MessageParsing.AddFieldRules` | src/MessageParser.cpp:104-137 | the ADD defaults: tif GTC, type LIMIT, participant 0, trigger 0, visible quantity = quantity, each overridden only when its field exists; any side other than "BUY" is SELL |
| `MessageParsing.AddUnknownWordsKeepDefaults` | src/MessageParser.cpp:114-126 | an unrecognised tif or order-type word keeps the default |
| `MessageParsing.FieldCountThresholds` | src/MessageParser.cpp:87-95 | an ADD line needs 8 fields, a cancel or snapshot request 4, and a cancel-replace 6; fewer fields drop the line |
| `MessageParsing.ParticipantDefaults` | src/MessageParser.cpp:150-189 | the cancel and cancel-replace participant is 0 when its field is missing |
| `MessageParsing.KindsExclusive` | src/MessageParser.cpp:87-210 | a line decodes as at most one kind of message |
| `MessageParsing.SplitLine` | src/MessageParser.cpp:63-77 | the split loop yields exactly the separator-delimited fields of the line, as `Split` defines them |
| `MessageParsing.MessageParser.constructor` | src/MessageParser.h:16 | the buffer starts empty |
| `MessageParsing.MessageParser.AppendData` | src/MessageParser.cpp:7-9 | the data goes at the end of the buffer |
| `MessageParsing.MessageParser.ConsumeLine` | src/MessageParser.cpp:140 | erases the first line and its `\n`, leaving exactly what follows |
| `MessageParsing.MessageParser.NextMessageHeader` | src/MessageParser.cpp:11-61 | no line: none, buffer unchanged. Otherwise the first line's header is peeked without consuming, and a dropped line is consumed through its `\n` |
| `MessageParsing.MessageParser.NextAddMessage` | src/MessageParser.cpp:79-142 | no line: none, buffer unchanged; otherwise the ADD decoding of the first line, which is consumed through its `\n` |
| `MessageParsing.MessageParser.NextCancelMessage` | src/MessageParser.cpp:144-167 | no line: none, buffer unchanged; otherwise the CANCEL decoding of the first line, which is consumed |
| `MessageParsing.MessageParser.NextCancelReplaceMessage` | src/MessageParser.cpp:169-193 | no line: none, buffer unchanged; otherwise the CANCEL_REPLACE decoding of the first line, which is consumed |
| `MessageParsing.MessageParser.NextSnapshotRequest` | src/MessageParser.cpp:195-214 | no line: none, buffer unchanged; otherwise the SNAPSHOT_REQUEST decoding of the first line, which is consumed |
| `ClientUtil.LineOfFields` | client/util.py:5-18 | a built line ends in exactly one `\n` and splits back into the fields it was built from |
| `ClientUtil.BuildAddOrderMessage` | client/util.py:3-6 | the ADD line, whose shape `AddLineShape` states |
| `ClientUtil.BuildSnapshotRequestMessage` | client/util.py:8-10 | the SNAPSHOT_REQUEST line, whose shape `SnapshotLineShape` states |
| `ClientUtil.BuildCancelOrderMessage` | client/util.py:12-14 | the CANCEL line, whose shape `CancelLineShape` states |
| `ClientUtil.BuildCancelReplaceMessage` | client/util.py:16-18 | the CANCEL_REPLACE line, whose shape `CancelReplaceLineShape` states |
| `ClientUtil.AddLineShape` | client/util.py:3-6 | the ADD line has 13 fields: "ADD" at 0, the order id at 1, 3 and 10, the timestamp at 2, the symbol, price, quantity, side, tif and type at 4-9, "0.0" at 11, and the quantity again at 12 |
| `ClientUtil.SnapshotLineShape` | client/util.py:8-10 | the snapshot line has 4 fields: "SNAPSHOT_REQUEST", the sequence, the timestamp, the symbol |
| `ClientUtil.CancelLineShape` | client/util.py:12-14 | the cancel line has 5 fields: "CANCEL", the order id at 1 and 3, the timestamp at 2, the participant at 4 |
| `ClientUtil.CancelReplaceLineShape` | client/util.py:16-18 | the cancel-replace line has 7 fields: the order id at 1 and 3, the timestamp at 2, then the new price, new quantity and participant |
| `WireRoundTrip.AddRoundTrip` | client/util.py:3-6 | the server decodes a client ADD line as sequence = order id = participant = the order id, with the client's symbol, price, quantity, side, tif and type, trigger 0 and visible quantity = quantity, and leaves the rest of the buffer |
| `WireRoundTrip.CancelRoundTrip` | client/util.py:12-14 | the server decodes a client CANCEL line to its order id and participant and leaves the rest of the buffer |
| `WireRoundTrip.CancelReplaceRoundTrip` | client/util.py:16-18 | the server decodes a client CANCEL_REPLACE line to its order id, new price, new quantity and participant |
| `WireRoundTrip.SnapshotRoundTrip` | client/util.py:8-10 | the server decodes a client SNAPSHOT_REQUEST line to its sequence number and symbol |
| `ClientOrders.RecordOf` | client/order.py:24-34 | a record has exactly the eight keys order_id, symbol, side, price, quantity, order_type, tif, status |
| `ClientOrders.RecordRoundTrip` | client/order.py:37-48 | `from_dict(to_dict(o))` gives back every field, the status included |
| `ClientOrders.MissingKeyFails` | client/order.py:37-48 | a record missing any of the eight keys does not load |
| `ClientOrders.SaveLoadRoundTrip` | client/order.py:69-77 | loading what was saved restores the same ids with equal records |
| `ClientOrders.RekeyLastWins` | client/order.py:76-77 | re-keying keeps, for each id, the last record that carries it |
| `ClientOrders.RekeyStops` | client/order.py:76-79 | a record that does not decode makes the whole load fail |
| `ClientOrders.RekeyExtends` | client/order.py:76-79 | a failed load stays failed whatever records follow |
| `ClientOrders.LoadRecords` | client/order.py:76-77 | the comprehension builds one order per record, keyed by id, exactly when the re-keying succeeds |
| `ClientOrders.Order.constructor` | client/order.py:5-22 | status "PENDING" and every other field the constructor argument |
| `ClientOrders.Order.ToDict` | client/order.py:24-34 | the eight keys, from which `from_dict` rebuilds the order |
| `ClientOrders.Order.FromDict` | client/order.py:37-48 | a fresh order with the record's fields exactly when the record decodes |
| `ClientOrders.OrderManager.constructor` | client/order.py:54-57 | the store holds the file's orders when it loads, and nothing otherwise |
| `ClientOrders.OrderManager.AddOrder` | client/order.py:59-60 | inserts or overwrites under the order's own id; every other entry is unchanged |
| `ClientOrders.OrderManager.UpdateOrderStatus` | client/order.py:62-64 | nothing for an absent id; otherwise only that order's status changes, to any value |
| `ClientOrders.OrderManager.GetOrder` | client/order.py:66-67 | the stored object, or null (Python's None) for an absent id |
| `ClientOrders.OrderManager.SaveOrders` | client/order.py:69-71 | one record per stored order, in the dictionary's order |
| `ClientOrders.OrderManager.LoadOrders` | client/order.py:73-79 | a missing file empties the store; a good file replaces it with its re-keyed orders; a bad record fails the load |
| `ClientApp.Client.constructor` | client/client.py:7-11 | no socket and nothing sent |
| `ClientApp.Client.Connect` | client/client.py:13-16 | the socket is open |
| `ClientApp.Client.Disconnect` | client/client.py:18-22 | saves the store exactly when a socket was ever created, and the saved records reload to the same orders |
| `ClientApp.Client.Send` | client/client.py:24-29 | the line is written to the socket |
| `ClientApp.Client.AddOrder` | client/client.py:31-39 | `get_order` returns the passed object whatever the reply, and a new id's order keeps its status. Only an object already stored under the id turns ACKED on "ADD_ACK", and it is then replaced |
| `ClientApp.Client.CancelOrder` | client/client.py:41-45 | the stored order becomes CANCELED exactly when the reply holds "CANCEL_ACK"; otherwise the store is unchanged |
| `ClientApp.Client.CancelReplaceOrder` | client/client.py:47-51 | the stored order becomes REPLACED exactly when the reply holds "CANCEL_REPLACE_ACK"; its price and quantity never change |
| `ClientApp.Client.RequestSnapshot` | client/client.py:53-55 | the reply comes back unchanged and the store is not touched |
| `ClientApp.AddReplies` | src/Session.cpp:103-104 | the server's add acknowledgement holds "ADD_ACK" and its rejection does not |
| `ClientApp.CancelReplies` | src/Session.cpp:110-118 | only the cancel acknowledgement holds "CANCEL_ACK", not the cancel rejection and not either cancel-replace reply |
| `ClientApp.CancelReplaceReplies` | src/Session.cpp:117-118 | the cancel-replace acknowledgement holds "CANCEL_REPLACE_ACK" and its rejection does not |
| `ClientApp.NoTransitionGuard` | client/order.py:62-64 | no status guards a transition: the status before the reply never affects the status after it, so an acknowledged cancel-replace or add moves a CANCELED order to REPLACED or ACKED |

## Left out

**I/O, concurrency and memory**
- Sockets, the event loop, sessions, `main`, the client driver, the replay log and logging are not part of this model. The client's replies and the persistence file's contents are inputs.
- `Client.Send` and the request methods require an open socket. Python would raise on a socket that was never created, and that error path is not modelled. A refused connection is not modelled either.
- Locking and the atomic `nextSequence` are not modelled; every call runs on its own. `recordTradePrice` re-locking the book mutex is not modelled either.
- The memory pool and placement new are not modelled. A deallocated order is one removed from the lookup.
  - When an IOC, FOK or market order is filled completely, the engine reads its quantity after deallocation. That read is modelled as 0 (`Engine.Remaining`).
- `OrderIdGenerator` is not modelled.
- `Controller.EngineController.GetTopOfBook`: for a symbol without an engine the source throws `std::runtime_error`; the model returns `found == false` instead, since exceptions are not modelled.

**Floating point**
- Prices are whole ticks. These are not modelled:
  - the floor/epsilon test of `tickSizeValid`, which here holds whenever the symbol has a config;
  - the percentage test of `checkVolatilityHalt`, which is the `breach` input;
  - the VWAP of `getLastTradePrice`, and the controller's forwarder to it;
  - `std::stod` on prices with a fractional part;
  - Python float text with exponents.
- `Text.ParseTicks` accepts only an optional '-', digits, and '.' followed by zeros. `std::stod` also reads leading blanks, a '+', trailing text, exponents, hexadecimal, inf and nan, and fractional values; the model treats all of those as a parse failure, so a server line carrying such a price is modelled as throwing.
- `Text.ParseU64` accepts only plain digit strings below 2^64. `std::stoull` also accepts leading blanks, a sign and trailing text; those inputs are treated as a parse failure.

**Stop-order multimaps**
- A stop multimap is a sequence in insertion order, not ordered by trigger price. Which entries fire, which are kept and which orders are activated do not depend on that order.
- Stop triggering is dead code: nothing in `OrderBook.cpp` ever records a last trade. `Book.OrderBook.TriggerStopOrders` is proved for both cases, so the triggering path is modelled as it would run.

**Dead code and unused results**
- `refreshIceberg` has no effect on any path.
- `processSnapshotRequest` and `dispatchSnapshotRequest` build a response that is thrown away.

**Client-side simplifications**
- `ClientOrders.Order.FromDict`: a record is a map to `Value`. A field holding a value of another kind fails the load, where Python's `from_dict` would accept it untyped.
- `load_orders`: JSON encoding and decoding are not modelled; the file is a list of records.
- `load_orders` and `OrderManager.__init__`: a file that exists but cannot be read (`PermissionError`, `IsADirectoryError`, a `UnicodeDecodeError` from `file.read()`) raises out of both in Python. Those errors are not modelled; the file is either missing, not valid JSON, or a list of records.
- `ClientOrders.OrderManager.constructor`: a record with a missing key raises in Python, out of `__init__`. Here the store is left empty instead.
