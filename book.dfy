/** The order book of one symbol as the C++ `OrderBook` object
    (src/OrderBook.cpp): the fields are updated in place by each operation,
    and each operation is proved against the functions of BookSpec. Freeing
    an order's pool slot is its removal from `lookup`; the mutex is left out
    (everything runs sequentially here). */
module Book {
  import opened Messages
  import opened ServerOrder
  import opened BookSpec

  /** Scans a queue front to back, keeping every element other than `id`:
      the queue rebuild of removeOrderFromBook. */
  method RebuildQueue(q: seq<OrderId>, id: OrderId) returns (newQ: seq<OrderId>, removed: bool)
    ensures newQ == Without(q, id)
    ensures removed <==> id in q
  {
    newQ, removed := [], false;
    var i := 0;
    while i < |q|
      invariant 0 <= i <= |q|
      invariant newQ == Without(q[..i], id)
      invariant removed <==> id in q[..i]
    {
      var front := q[i];
      RebuildStep(q, id, i);
      if front == id {
        removed := true;
      } else {
        newQ := newQ + [front];
      }
      i := i + 1;
    }
    assert q[..i] == q;
  }

  /** One turn of RebuildQueue's loop: the visited prefix grows by the
      element under the cursor. */
  lemma RebuildStep(q: seq<OrderId>, id: OrderId, i: nat)
    requires i < |q|
    ensures Without(q[..i + 1], id) == Without(q[..i], id) + (if q[i] == id then [] else [q[i]])
    ensures id in q[..i + 1] <==> id in q[..i] || q[i] == id
  {
    assert q[..i + 1][..i] == q[..i];
    assert q[..i + 1] == q[..i] + [q[i]];
  }

  /** Walks a stop multimap, erasing in place every entry that fires and
      collecting its order id, as triggerStopOrders does for each side. */
  method EraseFiring(stops: seq<StopEntry>, side: Side, last: int) returns (kept: seq<StopEntry>, fired: seq<OrderId>)
    ensures kept == Kept(stops, side, last)
    ensures fired == Fired(stops, side, last)
  {
    kept, fired := stops, [];
    var i := 0;
    ghost var j := 0;
    while i < |kept|
      invariant 0 <= j <= |stops|
      invariant kept == Kept(stops[..j], side, last) + stops[j..]
      invariant i == |Kept(stops[..j], side, last)|
      invariant fired == Fired(stops[..j], side, last)
      decreases |kept| - i
    {
      EraseStep(stops, j, side, last);
      var fires := if side == Buy then kept[i].trigger <= last else kept[i].trigger >= last;
      if fires {
        fired := fired + [kept[i].id];
        kept := kept[..i] + kept[i + 1..];
      } else {
        i := i + 1;
      }
      j := j + 1;
    }
    assert stops[..j] == stops;
  }

  /** One turn of EraseFiring's loop: the entry under the cursor is the next
      unvisited one, and erasing it (when it fires) or stepping past it
      (when it does not) extends the visited prefix by that entry. */
  lemma EraseStep(stops: seq<StopEntry>, j: nat, side: Side, last: int)
    requires j < |stops|
    ensures var k := Kept(stops[..j], side, last);
      var kept := k + stops[j..];
      && kept[|k|] == stops[j]
      && (Fires(stops[j], side, last) ==>
            && kept[..|k|] + kept[|k| + 1..] == Kept(stops[..j + 1], side, last) + stops[j + 1..]
            && Fired(stops[..j], side, last) + [stops[j].id] == Fired(stops[..j + 1], side, last))
      && (!Fires(stops[j], side, last) ==>
            && kept == Kept(stops[..j + 1], side, last) + stops[j + 1..]
            && |k| + 1 == |Kept(stops[..j + 1], side, last)|
            && Fired(stops[..j], side, last) == Fired(stops[..j + 1], side, last))
  {
    var k := Kept(stops[..j], side, last);
    var kept := k + stops[j..];
    assert stops[..j + 1] == stops[..j] + [stops[j]];
    TriggerSnoc(stops[..j], stops[j], side, last);
    assert kept[..|k|] == k;
    assert kept[|k| + 1..] == stops[j + 1..];
    assert stops[j..] == [stops[j]] + stops[j + 1..];
  }

  class OrderBook {
    var bids: Levels
    var asks: Levels
    var lookup: Lookup
    var stopsBuy: seq<StopEntry>
    var stopsSell: seq<StopEntry>
    var lastTradePrice: int
    var haveLastTrade: bool
    var recentTrades: seq<TradePrint>

    ghost function State(): Sides
      reads this
    {
      Sides(bids, asks, lookup)
    }

    ghost predicate Valid()
      reads this
    {
      BookValid(State(), stopsBuy, stopsSell) && |recentTrades| <= MaxRecentTrades
    }

    constructor ()
      ensures Valid()
      ensures bids == map[] && asks == map[] && lookup == map[]
      ensures stopsBuy == [] && stopsSell == [] && recentTrades == []
      ensures lastTradePrice == 0 && !haveLastTrade
    {
      bids, asks, lookup := map[], map[], map[];
      stopsBuy, stopsSell := [], [];
      lastTradePrice, haveLastTrade := 0, false;
      recentTrades := [];
    }

    /** addOrder: refuses an id already in the lookup; otherwise a stop
        order goes into its side's multimap, a market order only into the
        lookup, and a limit or iceberg order to the back of the queue at its
        price. Every accepted order is put in the lookup. */
    method AddOrder(o: Order) returns (ok: bool)
      requires Valid()
      modifies this
      ensures Valid()
      ensures ok <==> o.orderId !in old(lookup)
      ensures !ok ==> unchanged(this)
      ensures ok ==> lookup == old(lookup)[o.orderId := o]
      ensures ok ==> bids == if Rests(o.orderType) && o.side == Buy then Enqueue(old(bids), o.price, o.orderId) else old(bids)
      ensures ok ==> asks == if Rests(o.orderType) && o.side == Sell then Enqueue(old(asks), o.price, o.orderId) else old(asks)
      ensures ok ==> stopsBuy == if o.orderType == StopLoss && o.side == Buy then old(stopsBuy) + [StopEntry(o.triggerPrice, o.orderId)] else old(stopsBuy)
      ensures ok ==> stopsSell == if o.orderType == StopLoss && o.side == Sell then old(stopsSell) + [StopEntry(o.triggerPrice, o.orderId)] else old(stopsSell)
      ensures State() == Admit(old(State()), o)
      ensures stopsBuy == AdmitStops(old(stopsBuy), Buy, old(lookup), o)
      ensures stopsSell == AdmitStops(old(stopsSell), Sell, old(lookup), o)
      ensures lastTradePrice == old(lastTradePrice) && haveLastTrade == old(haveLastTrade) && recentTrades == old(recentTrades)
    {
      if o.orderId in lookup {
        return false;
      }
      if o.orderType == StopLoss {
        AddStopValid(State(), stopsBuy, stopsSell, o);
        InsertStopOrder(o);
        lookup := lookup[o.orderId := o];
        return true;
      }
      if o.orderType == Market {
        AddMarketValid(State(), stopsBuy, stopsSell, o);
        lookup := lookup[o.orderId := o];
        return true;
      }
      EnqueueValid(State(), stopsBuy, stopsSell, o);
      if o.side == Buy {
        bids := Enqueue(bids, o.price, o.orderId);
      } else {
        asks := Enqueue(asks, o.price, o.orderId);
      }
      lookup := lookup[o.orderId := o];
      ok := true;
    }

    /** insertStopOrder: appends (trigger price, order) to its side's
        multimap. */
    method InsertStopOrder(o: Order)
      modifies this`stopsBuy, this`stopsSell
      ensures stopsBuy == if o.side == Buy then old(stopsBuy) + [StopEntry(o.triggerPrice, o.orderId)] else old(stopsBuy)
      ensures stopsSell == if o.side == Sell then old(stopsSell) + [StopEntry(o.triggerPrice, o.orderId)] else old(stopsSell)
    {
      if o.side == Buy {
        stopsBuy := stopsBuy + [StopEntry(o.triggerPrice, o.orderId)];
      } else {
        stopsSell := stopsSell + [StopEntry(o.triggerPrice, o.orderId)];
      }
    }

    /** The erase loop of cancelOrder over one side's multimap: erases the
        first entry for this order at its trigger price. */
    method EraseStop(side: Side, e: StopEntry) returns (found: bool)
      modifies this`stopsBuy, this`stopsSell
      ensures found <==> e in old(if side == Buy then stopsBuy else stopsSell)
      ensures stopsBuy == if side == Buy then RemoveFirst(old(stopsBuy), e) else old(stopsBuy)
      ensures stopsSell == if side == Sell then RemoveFirst(old(stopsSell), e) else old(stopsSell)
    {
      var stops := if side == Buy then stopsBuy else stopsSell;
      var i := 0;
      while i < |stops| && stops[i] != e
        invariant 0 <= i <= |stops|
        invariant forall j :: 0 <= j < i ==> stops[j] != e
      {
        i := i + 1;
      }
      found := i < |stops|;
      if found {
        RemoveFirstAt(stops, e, i);
        stops := stops[..i] + stops[i + 1..];
      } else {
        RemoveFirstAbsent(stops, e);
      }
      if side == Buy {
        stopsBuy := stops;
      } else {
        stopsSell := stops;
      }
    }

    /** cancelOrder: refuses an unknown id or another participant's order;
        otherwise a stop order leaves its multimap and the lookup, a market
        order leaves the lookup, and a resting order leaves its queue and
        the lookup. */
    method CancelOrder(orderId: OrderId, participantId: nat) returns (ok: bool)
      requires Valid()
      modifies this
      ensures Valid()
      ensures ok <==> orderId in old(lookup) && old(lookup)[orderId].participantId == participantId
      ensures !ok ==> unchanged(this)
      ensures ok ==> lookup == old(lookup) - {orderId}
      ensures ok ==> var o := old(lookup)[orderId];
        && bids == (if Rests(o.orderType) && o.side == Buy then Unqueue(old(bids), o.price, orderId) else old(bids))
        && asks == (if Rests(o.orderType) && o.side == Sell then Unqueue(old(asks), o.price, orderId) else old(asks))
        && stopsBuy == (if o.orderType == StopLoss && o.side == Buy then RemoveFirst(old(stopsBuy), StopEntry(o.triggerPrice, orderId)) else old(stopsBuy))
        && stopsSell == (if o.orderType == StopLoss && o.side == Sell then RemoveFirst(old(stopsSell), StopEntry(o.triggerPrice, orderId)) else old(stopsSell))
      ensures State() == Withdraw(old(State()), orderId, participantId)
      ensures stopsBuy == WithdrawStops(old(stopsBuy), Buy, old(lookup), orderId, participantId)
      ensures stopsSell == WithdrawStops(old(stopsSell), Sell, old(lookup), orderId, participantId)
      ensures lastTradePrice == old(lastTradePrice) && haveLastTrade == old(haveLastTrade) && recentTrades == old(recentTrades)
    {
      if orderId !in lookup {
        return false;
      }
      var o := lookup[orderId];
      if o.participantId != participantId {
        return false;
      }
      if o.orderType == StopLoss {
        CancelStop(orderId);
      } else if o.orderType == Market {
        CancelMarketValid(State(), stopsBuy, stopsSell, orderId);
        lookup := lookup - {orderId};
      } else {
        CancelResting(orderId);
      }
      return true;
    }

    /** The stop-order branch of cancelOrder. */
    method CancelStop(orderId: OrderId)
      requires Valid() && orderId in lookup && lookup[orderId].orderType == StopLoss
      modifies this
      ensures Valid()
      ensures lookup == old(lookup) - {orderId} && bids == old(bids) && asks == old(asks)
      ensures var o := old(lookup)[orderId];
        && stopsBuy == (if o.side == Buy then RemoveFirst(old(stopsBuy), StopEntry(o.triggerPrice, orderId)) else old(stopsBuy))
        && stopsSell == (if o.side == Sell then RemoveFirst(old(stopsSell), StopEntry(o.triggerPrice, orderId)) else old(stopsSell))
      ensures lastTradePrice == old(lastTradePrice) && haveLastTrade == old(haveLastTrade) && recentTrades == old(recentTrades)
    {
      var o := lookup[orderId];
      CancelStopValid(State(), stopsBuy, stopsSell, orderId);
      var found := EraseStop(o.side, StopEntry(o.triggerPrice, orderId));
      lookup := lookup - {orderId};
    }

    /** The resting-order branch of cancelOrder: a resting order of a
        consistent book is always found in its queue. */
    method CancelResting(orderId: OrderId)
      requires Valid() && orderId in lookup && Rests(lookup[orderId].orderType)
      modifies this
      ensures Valid()
      ensures lookup == old(lookup) - {orderId}
      ensures var o := old(lookup)[orderId];
        && bids == (if o.side == Buy then Unqueue(old(bids), o.price, orderId) else old(bids))
        && asks == (if o.side == Sell then Unqueue(old(asks), o.price, orderId) else old(asks))
      ensures stopsBuy == old(stopsBuy) && stopsSell == old(stopsSell)
      ensures lastTradePrice == old(lastTradePrice) && haveLastTrade == old(haveLastTrade) && recentTrades == old(recentTrades)
    {
      UnqueueValid(State(), stopsBuy, stopsSell, orderId);
      var removed := RemoveOrderFromBook(orderId);
    }

    /** removeOrderFromBook: rebuilds the queue at the order's price without
        it, erases the level if that leaves it empty, and erases the order
        from the lookup only when it was found in the queue. */
    method RemoveOrderFromBook(id: OrderId) returns (removed: bool)
      requires id in lookup
      modifies this`bids, this`asks, this`lookup
      ensures var o := old(lookup)[id];
        var levels := if o.side == Buy then old(bids) else old(asks);
        removed <==> o.price in levels && id in levels[o.price]
      ensures var o := old(lookup)[id];
        && bids == (if o.side == Buy then Unqueue(old(bids), o.price, id) else old(bids))
        && asks == (if o.side == Sell then Unqueue(old(asks), o.price, id) else old(asks))
      ensures lookup == if removed then old(lookup) - {id} else old(lookup)
    {
      var o := lookup[id];
      var levels := if o.side == Buy then bids else asks;
      if o.price !in levels {
        return false;
      }
      var newQ;
      newQ, removed := RebuildQueue(levels[o.price], id);
      levels := SetLevel(levels, o.price, newQ);
      if o.side == Buy {
        bids := levels;
      } else {
        asks := levels;
      }
      if removed {
        lookup := lookup - {id};
      }
    }

    /** modifyOrder: refuses an unknown id, another participant's order, or
        an order that does not rest in a level; otherwise takes the order out
        of its queue, gives it the new price and quantity, and queues it at
        the back of the level at the new price. */
    method ModifyOrder(orderId: OrderId, newPrice: int, newQty: nat, participantId: nat) returns (ok: bool)
      requires Valid()
      modifies this
      ensures Valid()
      ensures ok <==> orderId in old(lookup) && old(lookup)[orderId].participantId == participantId
                      && Rests(old(lookup)[orderId].orderType)
      ensures !ok ==> unchanged(this)
      ensures ok ==> var o := old(lookup)[orderId];
        && lookup == old(lookup)[orderId := Modified(o, newPrice, newQty)]
        && bids == (if o.side == Buy then Enqueue(Unqueue(old(bids), o.price, orderId), newPrice, orderId) else old(bids))
        && asks == (if o.side == Sell then Enqueue(Unqueue(old(asks), o.price, orderId), newPrice, orderId) else old(asks))
      ensures State() == Remodel(old(State()), orderId, newPrice, newQty, participantId)
      ensures stopsBuy == old(stopsBuy) && stopsSell == old(stopsSell)
      ensures lastTradePrice == old(lastTradePrice) && haveLastTrade == old(haveLastTrade) && recentTrades == old(recentTrades)
    {
      if orderId !in lookup {
        return false;
      }
      var o := lookup[orderId];
      if o.participantId != participantId {
        return false;
      }
      if o.orderType != Limit && o.orderType != Iceberg {
        return false;
      }
      ModifyResting(orderId, newPrice, newQty);
      ok := true;
    }

    /** The update half of modifyOrder for a resting order: out of its
        queue, new price and quantity, back in at the end of the queue at
        the new price. */
    method ModifyResting(orderId: OrderId, newPrice: int, newQty: nat)
      requires Valid() && orderId in lookup && Rests(lookup[orderId].orderType)
      modifies this
      ensures Valid()
      ensures var o := old(lookup)[orderId];
        && lookup == old(lookup)[orderId := Modified(o, newPrice, newQty)]
        && bids == (if o.side == Buy then Enqueue(Unqueue(old(bids), o.price, orderId), newPrice, orderId) else old(bids))
        && asks == (if o.side == Sell then Enqueue(Unqueue(old(asks), o.price, orderId), newPrice, orderId) else old(asks))
      ensures stopsBuy == old(stopsBuy) && stopsSell == old(stopsSell)
      ensures lastTradePrice == old(lastTradePrice) && haveLastTrade == old(haveLastTrade) && recentTrades == old(recentTrades)
    {
      var o := lookup[orderId];
      ghost var st0 := State();
      assert o.side == Buy ==> o.price in bids && orderId in bids[o.price];
      assert o.side == Sell ==> o.price in asks && orderId in asks[o.price];
      var removed := RemoveOrderFromBook(orderId);
      assert removed;
      Requeue(Modified(o, newPrice, newQty));
      ModifyValid(st0, stopsBuy, stopsSell, orderId, newPrice, newQty, State());
    }

    /** The second half of modifyOrder: the changed order joins the back of
        the queue at its price and is stored under its id again. */
    method Requeue(o: Order)
      requires o.orderId !in lookup
      modifies this`bids, this`asks, this`lookup
      ensures bids == (if o.side == Buy then Enqueue(old(bids), o.price, o.orderId) else old(bids))
      ensures asks == (if o.side == Sell then Enqueue(old(asks), o.price, o.orderId) else old(asks))
      ensures lookup == old(lookup)[o.orderId := o]
    {
      if o.side == Buy {
        bids := Enqueue(bids, o.price, o.orderId);
      } else {
        asks := Enqueue(asks, o.price, o.orderId);
      }
      lookup := lookup[o.orderId := o];
    }

    /** getTopOfBook: the highest bid and the lowest ask, 0 for an empty
        side. */
    method GetTopOfBook() returns (bestBid: int, bestAsk: int)
      ensures bids == map[] ==> bestBid == 0
      ensures bids != map[] ==> bestBid in bids && forall p :: p in bids ==> p <= bestBid
      ensures asks == map[] ==> bestAsk == 0
      ensures asks != map[] ==> bestAsk in asks && forall p :: p in asks ==> bestAsk <= p
    {
      bestBid := if bids == map[] then 0 else MaxKey(bids.Keys);
      bestAsk := if asks == map[] then 0 else MinKey(asks.Keys);
    }

    /** recordTradePrice: appends to the recent-trade deque and drops the
        oldest entry when there are more than MaxRecentTrades. */
    method RecordTradePrice(price: int, quantity: nat)
      requires |recentTrades| <= MaxRecentTrades
      modifies this`recentTrades
      ensures recentTrades == Window(old(recentTrades) + [TradePrint(price, quantity)])
    {
      recentTrades := recentTrades + [TradePrint(price, quantity)];
      if |recentTrades| > MaxRecentTrades {
        recentTrades := recentTrades[1..];
      }
    }

    /** matchBook: trades the front of the best bid level against the front
        of the best ask level while both sides are non-empty, the best bid
        is at or above the best ask, and the two orders belong to different
        participants; the result is the run of trades MatchAll describes. */
    method MatchBook(seqBase: nat, timestamp: nat) returns (trades: seq<ExecutionMessage>)
      requires Valid()
      modifies this
      ensures Valid()
      ensures (State(), trades) == MatchAll(old(State()), seqBase, timestamp)
      ensures recentTrades == Window(old(recentTrades) + Prints(trades))
      ensures stopsBuy == old(stopsBuy) && stopsSell == old(stopsSell)
      ensures lastTradePrice == old(lastTradePrice) && haveLastTrade == old(haveLastTrade)
    {
      trades := [];
      var sequence := seqBase;
      ghost var st0 := State();
      ghost var rt0 := recentTrades;
      ghost var target := MatchAll(st0, seqBase, timestamp);
      NilAppend(trades, target.1);
      WindowStart(rt0, trades);
      var traded := true;
      while traded
        invariant Progress(target, rt0, trades, sequence, timestamp)
        invariant !traded ==> !Continues(State())
        modifies this`bids, this`asks, this`lookup, this`recentTrades
        decreases |lookup| + (if traded then 1 else 0)
      {
        traded, trades, sequence := MatchTurn(target, rt0, trades, sequence, timestamp);
      }
      MatchDone(target, State(), sequence, timestamp, trades);
    }

    /** The matchBook loop invariant: the book is consistent, the whole run
        `target` is the trades `done` so far followed by the run from the
        current book, and the recent-trade deque has recorded `done`. */
    ghost predicate Progress(target: (Sides, seq<ExecutionMessage>), rt0: seq<TradePrint>,
                             done: seq<ExecutionMessage>, sequence: nat, timestamp: nat)
      reads this
    {
      && Valid()
      && target == (MatchAll(State(), sequence, timestamp).0, done + MatchAll(State(), sequence, timestamp).1)
      && recentTrades == Window(rt0 + Prints(done))
    }

    /** One turn of the matchBook loop with its bookkeeping: the trade is
        appended to `done` and the sequence number advances. */
    method MatchTurn(ghost target: (Sides, seq<ExecutionMessage>), ghost rt0: seq<TradePrint>,
                     done: seq<ExecutionMessage>, sequence: nat, timestamp: nat)
      returns (traded: bool, done': seq<ExecutionMessage>, sequence': nat)
      requires Progress(target, rt0, done, sequence, timestamp)
      modifies this`bids, this`asks, this`lookup, this`recentTrades
      ensures Progress(target, rt0, done', sequence', timestamp)
      ensures traded ==> |lookup| < |old(lookup)|
      ensures !traded ==> !Continues(State()) && lookup == old(lookup)
    {
      ghost var cur := State();
      var exec;
      traded, exec := MatchOnce(sequence, timestamp);
      done', sequence' := done, sequence;
      if traded {
        RunAdvance(target, MatchAll(cur, sequence, timestamp), MatchAll(State(), sequence + 1, timestamp), done, exec);
        WindowPrints(rt0, done, exec);
        done', sequence' := done + [exec], sequence + 1;
      }
    }

    /** One turn of the matchBook loop: stops (traded false, nothing
        changed) when a side is empty, the best prices do not cross or the
        two front orders share a participant; otherwise trades the fronts. */
    method MatchOnce(sequence: nat, timestamp: nat) returns (traded: bool, exec: ExecutionMessage)
      requires Valid()
      modifies this`bids, this`asks, this`lookup, this`recentTrades
      ensures Valid()
      ensures traded <==> Continues(old(State()))
      ensures traded ==> |lookup| < |old(lookup)|
      ensures traded ==>
        MatchAll(old(State()), sequence, timestamp) ==
        (MatchAll(State(), sequence + 1, timestamp).0, [exec] + MatchAll(State(), sequence + 1, timestamp).1)
      ensures traded ==> recentTrades == Window(old(recentTrades) + [TradePrint(exec.price, exec.quantity)])
      ensures !traded ==> State() == old(State()) && recentTrades == old(recentTrades)
    {
      exec := ExecutionMessage(MessageHeader(Execution, sequence, timestamp), 0, 0, [], 0, 0, 0, 0);
      if bids == map[] || asks == map[] {
        return false, exec;
      }
      var bestBid := MaxKey(bids.Keys);
      var bestAsk := MinKey(asks.Keys);
      if bestBid < bestAsk {
        return false, exec;
      }
      var bidOrder := bids[bestBid][0];
      var askOrder := asks[bestAsk][0];
      assert QueuedAt(bidOrder, bestBid, lookup, Buy) && QueuedAt(askOrder, bestAsk, lookup, Sell);
      if lookup[bidOrder].participantId == lookup[askOrder].participantId {
        return false, exec;
      }
      traded := true;
      ghost var before := lookup;
      StepValid(State(), sequence, timestamp);
      MatchUnfold(State(), sequence, timestamp);
      exec := TradeFronts(bestBid, bestAsk, sequence, timestamp);
      ShrinksKeepsStops(before, lookup, stopsBuy, Buy);
      ShrinksKeepsStops(before, lookup, stopsSell, Sell);
    }

    /** One pass of the matchBook loop body: the trade between the fronts of
        the best levels, the quantity updates, the removal of filled orders
        and emptied levels, and the recorded trade price. */
    method TradeFronts(bestBid: int, bestAsk: int, sequence: nat, timestamp: nat) returns (exec: ExecutionMessage)
      requires SidesValid(State()) && Continues(State()) && |recentTrades| <= MaxRecentTrades
      requires bestBid == MaxKey(bids.Keys) && bestAsk == MinKey(asks.Keys)
      modifies this`bids, this`asks, this`lookup, this`recentTrades
      ensures (State(), exec) == Step(old(State()), sequence, timestamp)
      ensures recentTrades == Window(old(recentTrades) + [TradePrint(exec.price, exec.quantity)])
    {
      var bidOrder := bids[bestBid][0];
      var askOrder := asks[bestAsk][0];
      assert QueuedAt(bidOrder, bestBid, lookup, Buy) && QueuedAt(askOrder, bestAsk, lookup, Sell);
      var bo := lookup[bidOrder];
      var ao := lookup[askOrder];
      var tradeQty := Min(bo.quantity, ao.quantity);
      exec := ExecutionMessage(
        MessageHeader(Execution, sequence, timestamp),
        if bo.side == Buy then bo.orderId else ao.orderId,
        if ao.side == Sell then ao.orderId else bo.orderId,
        bo.symbol, ao.price, tradeQty, bo.participantId, ao.participantId);
      lookup := Debit(Debit(lookup, bidOrder, tradeQty), askOrder, tradeQty);
      RecordTradePrice(ao.price, tradeQty);
      bids := SetLevel(bids, bestBid, AfterFill(bids[bestBid], bo.quantity - tradeQty));
      asks := SetLevel(asks, bestAsk, AfterFill(asks[bestAsk], ao.quantity - tradeQty));
    }

    /** activateStopOrder: the order becomes a market order (it was in the
        lookup already). */
    method ActivateStopOrder(id: OrderId)
      requires id in lookup
      modifies this`lookup
      ensures lookup == old(lookup)[id := old(lookup)[id].(orderType := Market)]
    {
      lookup := lookup[id := lookup[id].(orderType := Market)];
    }

    /** triggerStopOrders: nothing without a last trade price; otherwise the
        buy stops at or below it and the sell stops at or above it leave
        their multimaps and become market orders. */
    method TriggerStopOrders(timestamp: nat, seqBase: nat)
      requires Valid()
      modifies this
      ensures Valid()
      ensures !old(haveLastTrade) ==> unchanged(this)
      ensures old(haveLastTrade) ==>
        && stopsBuy == Kept(old(stopsBuy), Buy, lastTradePrice)
        && stopsSell == Kept(old(stopsSell), Sell, lastTradePrice)
        && lookup == Activated(old(lookup), IdSet(Fired(old(stopsBuy), Buy, lastTradePrice) + Fired(old(stopsSell), Sell, lastTradePrice)))
      ensures bids == old(bids) && asks == old(asks)
      ensures lastTradePrice == old(lastTradePrice) && haveLastTrade == old(haveLastTrade) && recentTrades == old(recentTrades)
    {
      if !haveLastTrade {
        return;
      }
      ghost var st0, sb0, ss0 := State(), stopsBuy, stopsSell;
      FiredAreStops(stopsBuy, lookup, Buy, lastTradePrice);
      FiredAreStops(stopsSell, lookup, Sell, lastTradePrice);
      Fire(lastTradePrice);
      TriggerValid(st0, sb0, ss0, lastTradePrice, State(), stopsBuy, stopsSell);
    }

    /** The body of triggerStopOrders once a last trade price exists: the
        firing entries leave both multimaps and their orders are
        activated. */
    method Fire(last: int)
      requires forall x :: x in Fired(stopsBuy, Buy, last) ==> x in lookup
      requires forall x :: x in Fired(stopsSell, Sell, last) ==> x in lookup
      modifies this`stopsBuy, this`stopsSell, this`lookup
      ensures stopsBuy == Kept(old(stopsBuy), Buy, last) && stopsSell == Kept(old(stopsSell), Sell, last)
      ensures lookup == Activated(old(lookup), IdSet(Fired(old(stopsBuy), Buy, last) + Fired(old(stopsSell), Sell, last)))
    {
      var firedBuy, firedSell;
      stopsBuy, firedBuy := EraseFiring(stopsBuy, Buy, last);
      stopsSell, firedSell := EraseFiring(stopsSell, Sell, last);
      ActivateAll(firedBuy + firedSell);
    }

    /** The activation loop of triggerStopOrders: activateStopOrder on each
        collected order in turn. */
    method ActivateAll(toActivate: seq<OrderId>)
      requires forall x :: x in toActivate ==> x in lookup
      modifies this`lookup
      ensures lookup == Activated(old(lookup), IdSet(toActivate))
    {
      var k := 0;
      while k < |toActivate|
        invariant 0 <= k <= |toActivate|
        invariant lookup == Activated(old(lookup), IdSet(toActivate[..k]))
      {
        ActivateOne(old(lookup), toActivate, k);
        ActivateStopOrder(toActivate[k]);
        k := k + 1;
      }
      assert toActivate[..k] == toActivate;
    }

    /** match: stop triggering, then matchBook. */
    method Match(seqBase: nat, timestamp: nat) returns (trades: seq<ExecutionMessage>)
      requires Valid()
      modifies this
      ensures Valid()
      ensures !old(haveLastTrade) ==> (State(), trades) == MatchAll(old(State()), seqBase, timestamp)
      ensures old(haveLastTrade) ==>
        && SidesValid(Triggered(old(State()), old(stopsBuy), old(stopsSell), old(lastTradePrice)))
        && (State(), trades) == MatchAll(Triggered(old(State()), old(stopsBuy), old(stopsSell), old(lastTradePrice)), seqBase, timestamp)
      ensures haveLastTrade == old(haveLastTrade) && lastTradePrice == old(lastTradePrice)
    {
      TriggerStopOrders(timestamp, seqBase);
      trades := MatchBook(seqBase, timestamp);
    }
  }
}
