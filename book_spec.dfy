/** The state of one symbol's order book as values, the invariant that ties
    its parts together, and the price-time matching rule as a function
    (src/OrderBook.h:38-64, src/OrderBook.cpp:163-229).

    An `Order*` of the source is an order id here: `lookup` maps each id to
    the order record it points to, each price level is the FIFO queue of
    ids resting at that price, and prices are whole numbers of ticks. */
module BookSpec {
  import opened Messages
  import opened ServerOrder

  type Levels = map<int, seq<OrderId>>
  type Lookup = map<OrderId, Order>

  /** One element of a stop-order multimap: trigger price and order. */
  datatype StopEntry = StopEntry(trigger: int, id: OrderId)

  /** The bid side, the ask side and the order lookup. */
  datatype Sides = Sides(bids: Levels, asks: Levels, lookup: Lookup)

  /** Order types that rest in a price level. */
  predicate Rests(t: OrderType) { t == Limit || t == Iceberg }

  predicate NoDup<T(==)>(s: seq<T>) { forall i, j :: 0 <= i < j < |s| ==> s[i] != s[j] }

  /** `id` names a resting order of `side` priced `p` in the lookup. */
  ghost predicate QueuedAt(id: OrderId, p: int, lookup: Lookup, side: Side)
  {
    id in lookup && lookup[id].side == side && lookup[id].price == p && Rests(lookup[id].orderType)
  }

  /** Levels are non-empty queues of distinct ids, each naming a resting
      order of this side at the level's price. */
  ghost predicate LevelsValid(levels: Levels, lookup: Lookup, side: Side)
  {
    forall p :: p in levels ==>
      levels[p] != [] && NoDup(levels[p]) &&
      forall i :: 0 <= i < |levels[p]| ==> QueuedAt(levels[p][i], p, lookup, side)
  }

  /** Every resting order of this side in the lookup is queued at its price. */
  ghost predicate RestingQueued(levels: Levels, lookup: Lookup, side: Side)
  {
    forall id :: id in lookup && lookup[id].side == side && Rests(lookup[id].orderType) ==>
      lookup[id].price in levels && id in levels[lookup[id].price]
  }

  /** The lookup is keyed by each record's own order id. */
  ghost predicate KeyedById(lookup: Lookup)
  {
    forall id :: id in lookup ==> lookup[id].orderId == id
  }

  /** Lookup/book consistency for the two sides. */
  ghost predicate SidesValid(st: Sides)
  {
    && KeyedById(st.lookup)
    && LevelsValid(st.bids, st.lookup, Buy) && LevelsValid(st.asks, st.lookup, Sell)
    && RestingQueued(st.bids, st.lookup, Buy) && RestingQueued(st.asks, st.lookup, Sell)
  }

  /** A stop multimap holds distinct stop orders of one side, each keyed by
      its trigger price, and every such stop order in the lookup is in it. */
  ghost predicate StopsValid(stops: seq<StopEntry>, lookup: Lookup, side: Side)
  {
    && (forall i, j :: 0 <= i < j < |stops| ==> stops[i].id != stops[j].id)
    && (forall i :: 0 <= i < |stops| ==>
          stops[i].id in lookup && lookup[stops[i].id].orderType == StopLoss &&
          lookup[stops[i].id].side == side && lookup[stops[i].id].triggerPrice == stops[i].trigger)
    && (forall id :: id in lookup && lookup[id].side == side && lookup[id].orderType == StopLoss ==>
          StopEntry(lookup[id].triggerPrice, id) in stops)
  }

  /** The whole order book invariant. */
  ghost predicate BookValid(st: Sides, stopsBuy: seq<StopEntry>, stopsSell: seq<StopEntry>)
  {
    SidesValid(st) && StopsValid(stopsBuy, st.lookup, Buy) && StopsValid(stopsSell, st.lookup, Sell)
  }

  // ---------------------------------------------------------------------
  // Best prices

  lemma HasElement(s: set<int>)
    requires s != {}
    ensures exists y :: y in s
  {
    if forall y :: y !in s { assert false; }
  }

  lemma HasOrder(m: Lookup)
    requires |m| != 0
    ensures exists y :: y in m
  {
    if forall y :: y !in m { assert false; }
  }

  lemma {:induction false} MaxExists(keys: set<int>)
    requires keys != {}
    ensures exists m :: m in keys && forall k :: k in keys ==> k <= m
    decreases |keys|
  {
    HasElement(keys);
    var x :| x in keys;
    if keys != {x} {
      MaxExists(keys - {x});
      var m :| m in keys - {x} && forall k :: k in keys - {x} ==> k <= m;
      var best := if x <= m then m else x;
      forall k | k in keys ensures k <= best {
        if k != x { assert k in keys - {x}; }
      }
      assert best in keys;
    } else {
      assert forall k :: k in keys ==> k <= x;
    }
  }

  lemma {:induction false} MinExists(keys: set<int>)
    requires keys != {}
    ensures exists m :: m in keys && forall k :: k in keys ==> m <= k
    decreases |keys|
  {
    HasElement(keys);
    var x :| x in keys;
    if keys != {x} {
      MinExists(keys - {x});
      var m :| m in keys - {x} && forall k :: k in keys - {x} ==> m <= k;
      var best := if m <= x then m else x;
      forall k | k in keys ensures best <= k {
        if k != x { assert k in keys - {x}; }
      }
      assert best in keys;
    } else {
      assert forall k :: k in keys ==> x <= k;
    }
  }

  /** The highest price (std::map::rbegin). */
  function MaxKey(keys: set<int>): (m: int)
    requires keys != {}
    ensures m in keys && forall k :: k in keys ==> k <= m
  {
    MaxExists(keys);
    var m :| m in keys && forall k :: k in keys ==> k <= m; m
  }

  /** The lowest price (std::map::begin). */
  function MinKey(keys: set<int>): (m: int)
    requires keys != {}
    ensures m in keys && forall k :: k in keys ==> m <= k
  {
    MinExists(keys);
    var m :| m in keys && forall k :: k in keys ==> m <= k; m
  }

  // ---------------------------------------------------------------------
  // Quantities

  function Contribution(o: Order, side: Side): nat
  {
    if o.side == side then o.quantity else 0
  }

  /** Some order id of a non-empty lookup. */
  ghost function Pick(m: Lookup): (k: OrderId)
    requires |m| != 0
    ensures k in m
  {
    HasOrder(m);
    var k :| k in m; k
  }

  /** Total remaining quantity of the orders of one side in the lookup. */
  ghost function SideQty(m: Lookup, side: Side): nat
    decreases |m|
  {
    if |m| == 0 then 0
    else
      var k := Pick(m);
      Contribution(m[k], side) + SideQty(m - {k}, side)
  }

  lemma {:induction false} SideQtyRemove(m: Lookup, k: OrderId, side: Side)
    requires k in m
    ensures SideQty(m, side) == Contribution(m[k], side) + SideQty(m - {k}, side)
    decreases |m|
  {
    var j := Pick(m);
    if j != k {
      var mj := m - {j};
      var mk := m - {k};
      assert k in mj && j in mk;
      SideQtyRemove(mj, k, side);
      SideQtyRemove(mk, j, side);
      assert mj - {k} == mk - {j};
    }
  }

  /** Changing one order's record changes the side total by the difference
      of its contributions. */
  lemma SideQtyUpdate(m: Lookup, k: OrderId, o: Order, side: Side)
    requires k in m
    ensures SideQty(m[k := o], side) + Contribution(m[k], side) == SideQty(m, side) + Contribution(o, side)
  {
    SideQtyRemove(m, k, side);
    SideQtyRemove(m[k := o], k, side);
    assert m[k := o] - {k} == m - {k};
  }

  /** Sum of the quantities of a list of executions. */
  function Traded(es: seq<ExecutionMessage>): nat
  {
    if es == [] then 0 else es[0].quantity + Traded(es[1..])
  }

  // ---------------------------------------------------------------------
  // One round of the match loop

  /** The loop of matchBook goes on: both sides non-empty, the best bid at
      or above the best ask, and the two front orders from different
      participants. */
  ghost predicate Continues(st: Sides)
    requires SidesValid(st)
  {
    st.bids != map[] && st.asks != map[] &&
    MaxKey(st.bids.Keys) >= MinKey(st.asks.Keys) &&
    st.lookup[st.bids[MaxKey(st.bids.Keys)][0]].participantId !=
    st.lookup[st.asks[MinKey(st.asks.Keys)][0]].participantId
  }

  /** A level queue after its front order traded: the front leaves the
      queue once nothing of it remains. */
  function AfterFill(q: seq<OrderId>, left: nat): seq<OrderId>
    requires q != []
  {
    if left == 0 then q[1..] else q
  }

  /** The levels after the queue at `p` became `q`; an empty queue erases
      the level. */
  function SetLevel(levels: Levels, p: int, q: seq<OrderId>): Levels
  {
    if q == [] then levels - {p} else levels[p := q]
  }

  /** One trade: the front of the best (highest) bid level against the
      front of the best (lowest) ask level, for the smaller of the two
      remaining quantities, at the ask order's price. */
  ghost function Step(st: Sides, sequence: nat, timestamp: nat): (r: (Sides, ExecutionMessage))
    requires SidesValid(st) && Continues(st)
    ensures r.1.header == MessageHeader(Execution, sequence, timestamp)
  {
    var bp := MaxKey(st.bids.Keys);
    var ap := MinKey(st.asks.Keys);
    var b := st.bids[bp][0];
    var a := st.asks[ap][0];
    var bo := st.lookup[b];
    var ao := st.lookup[a];
    var q := Min(bo.quantity, ao.quantity);
    var exec := ExecutionMessage(
      MessageHeader(Execution, sequence, timestamp),
      if bo.side == Buy then bo.orderId else ao.orderId,
      if ao.side == Sell then ao.orderId else bo.orderId,
      bo.symbol, ao.price, q, bo.participantId, ao.participantId);
    var bids' := SetLevel(st.bids, bp, AfterFill(st.bids[bp], bo.quantity - q));
    var asks' := SetLevel(st.asks, ap, AfterFill(st.asks[ap], ao.quantity - q));
    (Sides(bids', asks', AfterTrade(st.lookup, b, a, q)), exec)
  }

  /** The lookup after order `id` traded `q`: it loses `q` and is erased
      once nothing of it is left. */
  function Debit(lookup: Lookup, id: OrderId, q: nat): Lookup
    requires id in lookup && q <= lookup[id].quantity
  {
    var o := lookup[id].(quantity := lookup[id].quantity - q);
    if o.quantity == 0 then lookup - {id} else lookup[id := o]
  }

  /** The lookup after `b` and `a` each traded `q`. */
  function AfterTrade(lookup: Lookup, b: OrderId, a: OrderId, q: nat): Lookup
    requires b in lookup && a in lookup && b != a
    requires q <= lookup[b].quantity && q <= lookup[a].quantity
  {
    Debit(Debit(lookup, b, q), a, q)
  }

  /** How the lookup may change under matching: entries only disappear or
      lose quantity, a changed quantity stays positive, and orders that do
      not rest in a level are untouched. */
  ghost predicate Shrinks(before: Lookup, after: Lookup)
  {
    && after.Keys <= before.Keys
    && (forall id :: id in after ==>
          after[id] == before[id].(quantity := after[id].quantity) &&
          after[id].quantity <= before[id].quantity &&
          (after[id].quantity == before[id].quantity || after[id].quantity > 0))
    && (forall id :: id in before && !Rests(before[id].orderType) ==> id in after && after[id] == before[id])
  }

  /** The lookup after one trade agrees with the one before on every order
      of `side` other than `f`, the front order of that side's best level,
      which keeps `left` of its quantity and leaves once nothing is left. */
  ghost predicate FrontFilled(before: Lookup, after: Lookup, side: Side, f: OrderId, left: nat)
  {
    && (forall x :: x in before && x != f && before[x].side == side ==> x in after && after[x] == before[x])
    && (forall x :: x in after && x != f && after[x].side == side ==> x in before && after[x] == before[x])
    && (f in after <==> left > 0)
    && (f in after ==> f in before && after[f] == before[f].(quantity := left))
  }

  /** A trade between a buy and a sell order, as seen from the buy side:
      only the buy order changes. */
  lemma AfterTradeBuySide(lookup: Lookup, b: OrderId, a: OrderId, q: nat)
    requires b in lookup && a in lookup
    requires lookup[b].side == Buy && lookup[a].side == Sell
    requires Rests(lookup[b].orderType) && Rests(lookup[a].orderType)
    requires q == Min(lookup[b].quantity, lookup[a].quantity)
    ensures FrontFilled(lookup, AfterTrade(lookup, b, a, q), Buy, b, lookup[b].quantity - q)
  {
  }

  /** The same trade as seen from the sell side: only the sell order changes. */
  lemma AfterTradeSellSide(lookup: Lookup, b: OrderId, a: OrderId, q: nat)
    requires b in lookup && a in lookup
    requires lookup[b].side == Buy && lookup[a].side == Sell
    requires Rests(lookup[b].orderType) && Rests(lookup[a].orderType)
    requires q == Min(lookup[b].quantity, lookup[a].quantity)
    ensures FrontFilled(lookup, AfterTrade(lookup, b, a, q), Sell, a, lookup[a].quantity - q)
  {
  }

  /** A trade only shrinks the lookup, and removes at least one of the two
      orders from it. */
  lemma AfterTradeShrinks(lookup: Lookup, b: OrderId, a: OrderId, q: nat)
    requires b in lookup && a in lookup
    requires lookup[b].side == Buy && lookup[a].side == Sell
    requires Rests(lookup[b].orderType) && Rests(lookup[a].orderType)
    requires q == Min(lookup[b].quantity, lookup[a].quantity)
    ensures Shrinks(lookup, AfterTrade(lookup, b, a, q))
    ensures |AfterTrade(lookup, b, a, q)| < |lookup|
  {
    var lk1 := lookup[b := lookup[b].(quantity := lookup[b].quantity - q)][a := lookup[a].(quantity := lookup[a].quantity - q)];
    assert |lk1| == |lookup|;
  }

  /** Filling the front order of one level keeps that side's levels and the
      lookup consistent. */
  lemma FillFrontValid(levels: Levels, before: Lookup, after: Lookup, side: Side, p: int, left: nat)
    requires p in levels
    requires LevelsValid(levels, before, side) && RestingQueued(levels, before, side)
    requires FrontFilled(before, after, side, levels[p][0], left)
    ensures LevelsValid(SetLevel(levels, p, AfterFill(levels[p], left)), after, side)
    ensures RestingQueued(SetLevel(levels, p, AfterFill(levels[p], left)), after, side)
  {
    var q := levels[p];
    var f := q[0];
    var q' := AfterFill(q, left);
    var levels' := SetLevel(levels, p, q');
    forall r | r in levels'
      ensures levels'[r] != [] && NoDup(levels'[r])
      ensures forall i :: 0 <= i < |levels'[r]| ==> QueuedAt(levels'[r][i], r, after, side)
    {
      if r == p {
        assert levels'[r] == q';
        forall i | 0 <= i < |q'| ensures QueuedAt(q'[i], r, after, side) {
          if left == 0 {
            assert q'[i] == q[i + 1] && q[i + 1] != q[0];
          }
        }
      } else {
        assert levels'[r] == levels[r];
        forall i | 0 <= i < |levels[r]| ensures QueuedAt(levels[r][i], r, after, side) {
          assert QueuedAt(levels[r][i], r, before, side);
        }
      }
    }
    forall id | id in after && after[id].side == side && Rests(after[id].orderType)
      ensures after[id].price in levels' && id in levels'[after[id].price]
    {
      assert id in before;
      var r := before[id].price;
      assert r in levels && id in levels[r];
      if id == f {
        assert left > 0 && q' == q;
      } else if r == p {
        var i :| 0 <= i < |q| && q[i] == id;
        assert i > 0;
        if left == 0 { assert q'[i - 1] == id; }
      }
    }
  }

  /** One trade keeps the book consistent, only shrinks the lookup, and
      removes at least one order from it. */
  lemma StepValid(st: Sides, sequence: nat, timestamp: nat)
    requires SidesValid(st) && Continues(st)
    ensures SidesValid(Step(st, sequence, timestamp).0)
    ensures Shrinks(st.lookup, Step(st, sequence, timestamp).0.lookup)
    ensures |Step(st, sequence, timestamp).0.lookup| < |st.lookup|
  {
    var bp := MaxKey(st.bids.Keys);
    var ap := MinKey(st.asks.Keys);
    var b := st.bids[bp][0];
    var a := st.asks[ap][0];
    assert QueuedAt(b, bp, st.lookup, Buy) && QueuedAt(a, ap, st.lookup, Sell);
    var q := Min(st.lookup[b].quantity, st.lookup[a].quantity);
    AfterTradeBuySide(st.lookup, b, a, q);
    AfterTradeSellSide(st.lookup, b, a, q);
    AfterTradeShrinks(st.lookup, b, a, q);
    var lk := AfterTrade(st.lookup, b, a, q);
    FillFrontValid(st.bids, st.lookup, lk, Buy, bp, st.lookup[b].quantity - q);
    FillFrontValid(st.asks, st.lookup, lk, Sell, ap, st.lookup[a].quantity - q);
  }

  /** The executions of one run of matchBook, numbered from `sequence`, and
      the book it leaves: trades happen while the loop condition holds. */
  ghost function MatchAll(st: Sides, sequence: nat, timestamp: nat): (Sides, seq<ExecutionMessage>)
    requires SidesValid(st)
    decreases |st.lookup|
  {
    if !Continues(st) then (st, [])
    else
      StepValid(st, sequence, timestamp);
      var next := Step(st, sequence, timestamp);
      var rest := MatchAll(next.0, sequence + 1, timestamp);
      (rest.0, [next.1] + rest.1)
  }

  /** matchBook leaves a consistent book in which the loop condition no
      longer holds, and only ever reduces or removes orders. */
  lemma {:induction false} MatchSettles(st: Sides, sequence: nat, timestamp: nat)
    requires SidesValid(st)
    ensures SidesValid(MatchAll(st, sequence, timestamp).0) && !Continues(MatchAll(st, sequence, timestamp).0)
    ensures Shrinks(st.lookup, MatchAll(st, sequence, timestamp).0.lookup)
    decreases |st.lookup|
  {
    if Continues(st) {
      StepValid(st, sequence, timestamp);
      var next := Step(st, sequence, timestamp);
      MatchSettles(next.0, sequence + 1, timestamp);
      ShrinksTransitive(st.lookup, next.0.lookup, MatchAll(next.0, sequence + 1, timestamp).0.lookup);
    } else {
      assert Shrinks(st.lookup, st.lookup);
    }
  }

  /** matchBook numbers its executions consecutively from seqBase and
      stamps them all with the same time. */
  lemma {:induction false} MatchSequences(st: Sides, sequence: nat, timestamp: nat)
    requires SidesValid(st)
    ensures Numbered(MatchAll(st, sequence, timestamp).1, sequence, timestamp)
    decreases |st.lookup|
  {
    if Continues(st) {
      StepValid(st, sequence, timestamp);
      var next := Step(st, sequence, timestamp);
      MatchSequences(next.0, sequence + 1, timestamp);
      var rest := MatchAll(next.0, sequence + 1, timestamp).1;
      assert MatchAll(st, sequence, timestamp).1 == [next.1] + rest;
      NumberedCons(next.1, rest, sequence, timestamp);
    }
  }

  /** The matchBook loop invariant carried over one trade: the whole run
      `target` is the trades so far followed by the run from the current
      book, which is one execution followed by the run from the next book. */
  lemma RunAdvance(target: (Sides, seq<ExecutionMessage>), run: (Sides, seq<ExecutionMessage>),
                   rest: (Sides, seq<ExecutionMessage>), done: seq<ExecutionMessage>, exec: ExecutionMessage)
    requires target == (run.0, done + run.1)
    requires run == (rest.0, [exec] + rest.1)
    ensures target == (rest.0, (done + [exec]) + rest.1)
  {
    ConsAppend(done, exec, rest.1);
  }

  lemma ConsAppend(done: seq<ExecutionMessage>, exec: ExecutionMessage, rest: seq<ExecutionMessage>)
    ensures done + ([exec] + rest) == (done + [exec]) + rest
  {
  }

  /** The matchBook loop invariant once the loop stops: the whole run
      `target` ends in the current book, after the trades so far. */
  lemma MatchDone(target: (Sides, seq<ExecutionMessage>), st: Sides, sequence: nat, timestamp: nat,
                  done: seq<ExecutionMessage>)
    requires SidesValid(st) && !Continues(st)
    requires target == (MatchAll(st, sequence, timestamp).0, done + MatchAll(st, sequence, timestamp).1)
    ensures target == (st, done)
  {
    assert MatchAll(st, sequence, timestamp) == (st, []);
    assert done + [] == done;
  }

  /** MatchAll on a book where the loop goes on: one trade, then the rest. */
  lemma MatchUnfold(st: Sides, sequence: nat, timestamp: nat)
    requires SidesValid(st) && Continues(st)
    ensures SidesValid(Step(st, sequence, timestamp).0)
    ensures var next := Step(st, sequence, timestamp);
      MatchAll(st, sequence, timestamp) ==
        (MatchAll(next.0, sequence + 1, timestamp).0, [next.1] + MatchAll(next.0, sequence + 1, timestamp).1)
  {
    StepValid(st, sequence, timestamp);
  }

  /** Executions numbered consecutively from `sequence`. */
  ghost predicate Numbered(es: seq<ExecutionMessage>, sequence: nat, timestamp: nat)
  {
    forall i :: 0 <= i < |es| ==> es[i].header == MessageHeader(Execution, sequence + i, timestamp)
  }

  lemma NumberedCons(e: ExecutionMessage, rest: seq<ExecutionMessage>, sequence: nat, timestamp: nat)
    requires e.header == MessageHeader(Execution, sequence, timestamp)
    requires Numbered(rest, sequence + 1, timestamp)
    ensures Numbered([e] + rest, sequence, timestamp)
  {
    assert forall i :: 1 <= i <= |rest| ==> ([e] + rest)[i] == rest[i - 1];
  }

  /** Debiting an order takes exactly the debited quantity from the total
      of its side and nothing from the other side. */
  lemma DebitQty(lookup: Lookup, id: OrderId, q: nat, side: Side)
    requires id in lookup && q <= lookup[id].quantity
    ensures SideQty(Debit(lookup, id, q), side) + (if lookup[id].side == side then q else 0) == SideQty(lookup, side)
  {
    var o := lookup[id].(quantity := lookup[id].quantity - q);
    if o.quantity == 0 {
      SideQtyRemove(lookup, id, side);
    } else {
      SideQtyUpdate(lookup, id, o, side);
    }
  }

  /** A trade takes exactly its quantity from each side's total. */
  lemma AfterTradeQty(lookup: Lookup, b: OrderId, a: OrderId, q: nat, side: Side)
    requires b in lookup && a in lookup
    requires lookup[b].side == Buy && lookup[a].side == Sell
    requires q == Min(lookup[b].quantity, lookup[a].quantity)
    ensures SideQty(AfterTrade(lookup, b, a, q), side) + q == SideQty(lookup, side)
  {
    DebitQty(lookup, b, q, side);
    DebitQty(Debit(lookup, b, q), a, q, side);
  }

  /** One trade takes its quantity from the total of each side. */
  lemma StepConserves(st: Sides, sequence: nat, timestamp: nat, side: Side)
    requires SidesValid(st) && Continues(st)
    ensures SideQty(Step(st, sequence, timestamp).0.lookup, side) + Step(st, sequence, timestamp).1.quantity
         == SideQty(st.lookup, side)
  {
    var b := st.bids[MaxKey(st.bids.Keys)][0];
    var a := st.asks[MinKey(st.asks.Keys)][0];
    assert QueuedAt(b, MaxKey(st.bids.Keys), st.lookup, Buy);
    assert QueuedAt(a, MinKey(st.asks.Keys), st.lookup, Sell);
    AfterTradeQty(st.lookup, b, a, Min(st.lookup[b].quantity, st.lookup[a].quantity), side);
  }

  /** Quantity conservation in matchBook: each side's total falls by the sum
      of the traded quantities. */
  lemma {:induction false} MatchConserves(st: Sides, sequence: nat, timestamp: nat, side: Side)
    requires SidesValid(st)
    ensures SideQty(MatchAll(st, sequence, timestamp).0.lookup, side) + Traded(MatchAll(st, sequence, timestamp).1)
         == SideQty(st.lookup, side)
    decreases |st.lookup|
  {
    if Continues(st) {
      StepValid(st, sequence, timestamp);
      StepConserves(st, sequence, timestamp, side);
      var next := Step(st, sequence, timestamp);
      MatchConserves(next.0, sequence + 1, timestamp, side);
      var rest := MatchAll(next.0, sequence + 1, timestamp);
      assert MatchAll(st, sequence, timestamp).1 == [next.1] + rest.1;
      assert ([next.1] + rest.1)[1..] == rest.1;
    }
  }

  lemma ShrinksTransitive(a: Lookup, b: Lookup, c: Lookup)
    requires Shrinks(a, b) && Shrinks(b, c)
    ensures Shrinks(a, c)
  {
    forall id | id in c
      ensures c[id] == a[id].(quantity := c[id].quantity)
      ensures c[id].quantity == a[id].quantity || c[id].quantity > 0
    {
      assert id in b;
    }
  }

  lemma ShrinksKeepsStops(before: Lookup, after: Lookup, stops: seq<StopEntry>, side: Side)
    requires Shrinks(before, after) && StopsValid(stops, before, side)
    ensures StopsValid(stops, after, side)
  {
    forall id | id in after && after[id].side == side && after[id].orderType == StopLoss
      ensures StopEntry(after[id].triggerPrice, id) in stops
    {
      assert id in before;
    }
  }

  // ---------------------------------------------------------------------
  // Queues

  /** std::queue::push on the level at `p`, which is created when absent. */
  function Enqueue(levels: Levels, p: int, id: OrderId): Levels
  {
    levels[p := (if p in levels then levels[p] else []) + [id]]
  }

  /** The queue rebuilt without `id`: every other element, in order. */
  function Without(q: seq<OrderId>, id: OrderId): seq<OrderId>
  {
    if q == [] then []
    else Without(q[..|q| - 1], id) + (if q[|q| - 1] == id then [] else [q[|q| - 1]])
  }

  /** The elements of the rebuilt queue are those of the old one other than
      `id`, still without duplicates. */
  lemma {:induction false} WithoutElements(q: seq<OrderId>, id: OrderId)
    ensures forall x :: x in Without(q, id) <==> x in q && x != id
    ensures NoDup(q) ==> NoDup(Without(q, id))
  {
    if q != [] {
      var init := q[..|q| - 1];
      WithoutElements(init, id);
      assert q == init + [q[|q| - 1]];
      if NoDup(q) {
        assert NoDup(init);
        assert q[|q| - 1] !in init;
      }
    }
  }

  /** Removal from a queue of distinct ids cuts out exactly the one position
      holding `id` and keeps the relative order of all others. */
  lemma {:induction false} WithoutSplice(q: seq<OrderId>, id: OrderId, i: nat)
    requires NoDup(q) && i < |q| && q[i] == id
    ensures Without(q, id) == q[..i] + q[i + 1..]
  {
    var n := |q| - 1;
    var init := q[..n];
    if i == n {
      WithoutAbsent(init, id);
      assert q[..i] == init;
    } else {
      WithoutSplice(init, id, i);
      assert q[n] != id;
      assert init[..i] == q[..i];
      assert init[i + 1..] + [q[n]] == q[i + 1..];
    }
  }

  /** A queue without `id` is rebuilt unchanged. */
  lemma {:induction false} WithoutAbsent(q: seq<OrderId>, id: OrderId)
    requires id !in q
    ensures Without(q, id) == q
  {
    if q != [] {
      WithoutAbsent(q[..|q| - 1], id);
      assert q == q[..|q| - 1] + [q[|q| - 1]];
    }
  }

  /** removeOrderFromBook on one side: the queue at `p` rebuilt without `id`,
      the level erased when that leaves it empty; no level at `p`, no change. */
  function Unqueue(levels: Levels, p: int, id: OrderId): Levels
  {
    if p in levels then SetLevel(levels, p, Without(levels[p], id)) else levels
  }

  // ---------------------------------------------------------------------
  // Stop orders

  /** The multimap after erasing the first entry equal to `e`. */
  function RemoveFirst(stops: seq<StopEntry>, e: StopEntry): seq<StopEntry>
  {
    if stops == [] then []
    else if stops[0] == e then stops[1..]
    else [stops[0]] + RemoveFirst(stops[1..], e)
  }

  /** Erasing an entry whose order id occurs once drops exactly the entries
      of that order and keeps every other entry. */
  lemma {:induction false} RemoveFirstElements(stops: seq<StopEntry>, e: StopEntry)
    requires forall i, j :: 0 <= i < j < |stops| ==> stops[i].id != stops[j].id
    ensures forall x :: x in RemoveFirst(stops, e) <==> x in stops && x != e
    ensures forall i, j :: 0 <= i < j < |RemoveFirst(stops, e)| ==>
              RemoveFirst(stops, e)[i].id != RemoveFirst(stops, e)[j].id
  {
    if stops != [] {
      RemoveFirstElements(stops[1..], e);
      if stops[0] == e {
        assert e !in stops[1..];
      } else {
        var r := RemoveFirst(stops, e);
        assert r == [stops[0]] + RemoveFirst(stops[1..], e);
        forall j | 0 < j < |r| ensures r[0].id != r[j].id {
          assert r[j] in stops[1..];
        }
      }
    }
  }

  /** Erasing the first match found by a scan that passed `i` entries. */
  lemma {:induction false} RemoveFirstAt(stops: seq<StopEntry>, e: StopEntry, i: nat)
    requires i < |stops| && stops[i] == e && forall j :: 0 <= j < i ==> stops[j] != e
    ensures RemoveFirst(stops, e) == stops[..i] + stops[i + 1..]
  {
    if i > 0 {
      RemoveFirstAt(stops[1..], e, i - 1);
      assert stops[..i] == [stops[0]] + stops[1..][..i - 1];
    }
  }

  /** Erasing an entry that is not there changes nothing. */
  lemma {:induction false} RemoveFirstAbsent(stops: seq<StopEntry>, e: StopEntry)
    requires e !in stops
    ensures RemoveFirst(stops, e) == stops
  {
    if stops != [] {
      RemoveFirstAbsent(stops[1..], e);
    }
  }

  /** A stop entry fires: a buy stop at or below the last trade price, a sell
      stop at or above it. */
  predicate Fires(e: StopEntry, side: Side, last: int)
  {
    if side == Buy then e.trigger <= last else e.trigger >= last
  }

  /** The entries of a stop multimap that do not fire, in order. */
  function Kept(stops: seq<StopEntry>, side: Side, last: int): seq<StopEntry>
  {
    if stops == [] then []
    else Kept(stops[..|stops| - 1], side, last) +
         (if Fires(stops[|stops| - 1], side, last) then [] else [stops[|stops| - 1]])
  }

  /** The order ids of the entries that fire, in order. */
  function Fired(stops: seq<StopEntry>, side: Side, last: int): seq<OrderId>
  {
    if stops == [] then []
    else Fired(stops[..|stops| - 1], side, last) +
         (if Fires(stops[|stops| - 1], side, last) then [stops[|stops| - 1].id] else [])
  }

  /** Kept and Fired grow by one entry at a time. */
  lemma TriggerSnoc(stops: seq<StopEntry>, e: StopEntry, side: Side, last: int)
    ensures Kept(stops + [e], side, last) == Kept(stops, side, last) + (if Fires(e, side, last) then [] else [e])
    ensures Fired(stops + [e], side, last) == Fired(stops, side, last) + (if Fires(e, side, last) then [e.id] else [])
  {
    assert (stops + [e])[..|stops|] == stops;
  }

  /** Triggering partitions a stop multimap: the kept entries are exactly the
      ones that do not fire, and the fired ids are exactly the ids of the
      ones that do. */
  lemma {:induction false} TriggerPartition(stops: seq<StopEntry>, side: Side, last: int)
    ensures forall e :: e in Kept(stops, side, last) <==> e in stops && !Fires(e, side, last)
    ensures forall i :: 0 <= i < |stops| && Fires(stops[i], side, last) ==> stops[i].id in Fired(stops, side, last)
    ensures forall x :: x in Fired(stops, side, last) ==> exists i :: 0 <= i < |stops| && Fires(stops[i], side, last) && stops[i].id == x
  {
    if stops != [] {
      var n := |stops| - 1;
      var init := stops[..n];
      TriggerPartition(init, side, last);
      assert stops == init + [stops[n]];
      forall x | x in Fired(stops, side, last)
        ensures exists i :: 0 <= i < |stops| && Fires(stops[i], side, last) && stops[i].id == x
      {
        if x in Fired(init, side, last) {
          var i :| 0 <= i < |init| && Fires(init[i], side, last) && init[i].id == x;
          assert stops[i] == init[i];
        } else {
          assert Fires(stops[n], side, last) && stops[n].id == x;
        }
      }
      forall i | 0 <= i < |stops| && Fires(stops[i], side, last) ensures stops[i].id in Fired(stops, side, last) {
        if i < n { assert init[i] == stops[i]; }
      }
    }
  }

  /** The lookup after activateStopOrder on every id in `ids`: each becomes
      a MARKET order; the rest is unchanged. */
  function Activated(lookup: Lookup, ids: set<OrderId>): Lookup
  {
    map id | id in lookup :: if id in ids then lookup[id].(orderType := Market) else lookup[id]
  }

  /** modifyOrder's update of a resting order: new price, the new quantity
      as both remaining and total quantity, and an iceberg's visible
      quantity clamped to the new quantity. */
  function Modified(o: Order, newPrice: int, newQty: nat): (r: Order)
    ensures r.price == newPrice && r.quantity == newQty && r.totalQuantity == newQty
    ensures r.visibleQuantity == if o.orderType == Iceberg then Min(o.visibleQuantity, newQty) else o.visibleQuantity
    ensures r.orderId == o.orderId && r.side == o.side && r.orderType == o.orderType
    ensures r.participantId == o.participantId && r.symbol == o.symbol && r.timestamp == o.timestamp
    ensures r.tif == o.tif && r.triggerPrice == o.triggerPrice
  {
    o.(price := newPrice, quantity := newQty, totalQuantity := newQty,
       visibleQuantity := if o.orderType == Iceberg && o.visibleQuantity > newQty then newQty else o.visibleQuantity)
  }

  // ---------------------------------------------------------------------
  // The invariant under addOrder, cancelOrder, modifyOrder, triggering

  /** The resting orders of `side` are the same records in both lookups. */
  ghost predicate SameResting(before: Lookup, after: Lookup, side: Side)
  {
    && (forall x :: x in before && before[x].side == side && Rests(before[x].orderType) ==> x in after && after[x] == before[x])
    && (forall x :: x in after && after[x].side == side && Rests(after[x].orderType) ==> x in before && after[x] == before[x])
  }

  /** The stop orders of `side` are the same records in both lookups. */
  ghost predicate SameStops(before: Lookup, after: Lookup, side: Side)
  {
    && (forall x :: x in before && before[x].side == side && before[x].orderType == StopLoss ==> x in after && after[x] == before[x])
    && (forall x :: x in after && after[x].side == side && after[x].orderType == StopLoss ==> x in before && after[x] == before[x])
  }

  /** A side's levels stay consistent with a lookup whose resting orders of
      that side did not change. */
  lemma LevelsFramed(levels: Levels, before: Lookup, after: Lookup, side: Side)
    requires LevelsValid(levels, before, side) && RestingQueued(levels, before, side)
    requires SameResting(before, after, side)
    ensures LevelsValid(levels, after, side) && RestingQueued(levels, after, side)
  {
    forall p | p in levels ensures forall i :: 0 <= i < |levels[p]| ==> QueuedAt(levels[p][i], p, after, side) {
      assert forall i :: 0 <= i < |levels[p]| ==> QueuedAt(levels[p][i], p, before, side);
    }
  }

  /** A side's stop multimap stays consistent with a lookup whose stop
      orders of that side did not change. */
  lemma StopsFramed(stops: seq<StopEntry>, before: Lookup, after: Lookup, side: Side)
    requires StopsValid(stops, before, side) && SameStops(before, after, side)
    ensures StopsValid(stops, after, side)
  {
  }

  /** Queuing a new resting order at the back of its level keeps that
      side's levels consistent. */
  lemma EnqueueSide(levels: Levels, lookup: Lookup, o: Order)
    requires LevelsValid(levels, lookup, o.side) && RestingQueued(levels, lookup, o.side)
    requires o.orderId !in lookup && Rests(o.orderType)
    ensures LevelsValid(Enqueue(levels, o.price, o.orderId), lookup[o.orderId := o], o.side)
    ensures RestingQueued(Enqueue(levels, o.price, o.orderId), lookup[o.orderId := o], o.side)
  {
    var lk := lookup[o.orderId := o];
    var levels' := Enqueue(levels, o.price, o.orderId);
    forall p | p in levels'
      ensures levels'[p] != [] && NoDup(levels'[p])
      ensures forall i :: 0 <= i < |levels'[p]| ==> QueuedAt(levels'[p][i], p, lk, o.side)
    {
      if p == o.price {
        var q := if p in levels then levels[p] else [];
        assert levels'[p] == q + [o.orderId];
        assert forall i :: 0 <= i < |q| ==> QueuedAt(q[i], p, lookup, o.side);
      } else {
        assert forall i :: 0 <= i < |levels[p]| ==> QueuedAt(levels[p][i], p, lookup, o.side);
      }
    }
  }

  /** Taking a resting order out of its queue and the lookup keeps that
      side's levels consistent. */
  lemma UnqueueSide(levels: Levels, lookup: Lookup, id: OrderId)
    requires id in lookup && Rests(lookup[id].orderType)
    requires LevelsValid(levels, lookup, lookup[id].side) && RestingQueued(levels, lookup, lookup[id].side)
    ensures LevelsValid(Unqueue(levels, lookup[id].price, id), lookup - {id}, lookup[id].side)
    ensures RestingQueued(Unqueue(levels, lookup[id].price, id), lookup - {id}, lookup[id].side)
  {
    var o := lookup[id];
    var side := o.side;
    var lk := lookup - {id};
    var levels' := Unqueue(levels, o.price, id);
    forall p | p in levels'
      ensures levels'[p] != [] && NoDup(levels'[p])
      ensures forall i :: 0 <= i < |levels'[p]| ==> QueuedAt(levels'[p][i], p, lk, side)
    {
      if p == o.price {
        WithoutElements(levels[p], id);
        assert levels'[p] == Without(levels[p], id);
        forall i | 0 <= i < |levels'[p]| ensures QueuedAt(levels'[p][i], p, lk, side) {
          var x := levels'[p][i];
          assert x in levels[p];
          var j :| 0 <= j < |levels[p]| && levels[p][j] == x;
          assert QueuedAt(levels[p][j], p, lookup, side);
        }
      } else {
        assert levels'[p] == levels[p];
        forall i | 0 <= i < |levels[p]| ensures QueuedAt(levels[p][i], p, lk, side) {
          assert QueuedAt(levels[p][i], p, lookup, side);
        }
      }
    }
    forall x | x in lk && lk[x].side == side && Rests(lk[x].orderType)
      ensures lk[x].price in levels' && x in levels'[lk[x].price]
    {
      var p := lk[x].price;
      assert p in levels && x in levels[p];
      if p == o.price {
        WithoutElements(levels[p], id);
      }
    }
  }

  /** Queuing a new resting order at the back of its price level keeps the
      book consistent. */
  lemma EnqueueValid(st: Sides, sb: seq<StopEntry>, ss: seq<StopEntry>, o: Order)
    requires BookValid(st, sb, ss) && o.orderId !in st.lookup && Rests(o.orderType)
    ensures BookValid(Sides(if o.side == Buy then Enqueue(st.bids, o.price, o.orderId) else st.bids,
                            if o.side == Sell then Enqueue(st.asks, o.price, o.orderId) else st.asks,
                            st.lookup[o.orderId := o]), sb, ss)
  {
    var lk := st.lookup[o.orderId := o];
    if o.side == Buy {
      EnqueueSide(st.bids, st.lookup, o);
      LevelsFramed(st.asks, st.lookup, lk, Sell);
    } else {
      EnqueueSide(st.asks, st.lookup, o);
      LevelsFramed(st.bids, st.lookup, lk, Buy);
    }
    StopsFramed(sb, st.lookup, lk, Buy);
    StopsFramed(ss, st.lookup, lk, Sell);
  }

  /** Recording a new stop order in its side's multimap keeps the book
      consistent. */
  lemma AddStopValid(st: Sides, sb: seq<StopEntry>, ss: seq<StopEntry>, o: Order)
    requires BookValid(st, sb, ss) && o.orderId !in st.lookup && o.orderType == StopLoss
    ensures BookValid(Sides(st.bids, st.asks, st.lookup[o.orderId := o]),
                      if o.side == Buy then sb + [StopEntry(o.triggerPrice, o.orderId)] else sb,
                      if o.side == Sell then ss + [StopEntry(o.triggerPrice, o.orderId)] else ss)
  {
    var lk := st.lookup[o.orderId := o];
    LevelsFramed(st.bids, st.lookup, lk, Buy);
    LevelsFramed(st.asks, st.lookup, lk, Sell);
    if o.side == Buy {
      StopsGrow(sb, st.lookup, o);
      StopsFramed(ss, st.lookup, lk, Sell);
    } else {
      StopsGrow(ss, st.lookup, o);
      StopsFramed(sb, st.lookup, lk, Buy);
    }
  }

  /** The multimap of the new stop order's side, with its entry appended. */
  lemma StopsGrow(stops: seq<StopEntry>, lookup: Lookup, o: Order)
    requires StopsValid(stops, lookup, o.side) && o.orderId !in lookup && o.orderType == StopLoss
    ensures StopsValid(stops + [StopEntry(o.triggerPrice, o.orderId)], lookup[o.orderId := o], o.side)
  {
    var grown := stops + [StopEntry(o.triggerPrice, o.orderId)];
    assert forall i :: 0 <= i < |stops| ==> grown[i] == stops[i];
  }

  /** Putting a market order in the lookup alone keeps the book consistent. */
  lemma AddMarketValid(st: Sides, sb: seq<StopEntry>, ss: seq<StopEntry>, o: Order)
    requires BookValid(st, sb, ss) && o.orderId !in st.lookup && o.orderType == Market
    ensures BookValid(Sides(st.bids, st.asks, st.lookup[o.orderId := o]), sb, ss)
  {
    var lk := st.lookup[o.orderId := o];
    LevelsFramed(st.bids, st.lookup, lk, Buy);
    LevelsFramed(st.asks, st.lookup, lk, Sell);
    StopsFramed(sb, st.lookup, lk, Buy);
    StopsFramed(ss, st.lookup, lk, Sell);
  }

  /** Taking a resting order out of its queue and out of the lookup keeps
      the book consistent. */
  lemma UnqueueValid(st: Sides, sb: seq<StopEntry>, ss: seq<StopEntry>, id: OrderId)
    requires BookValid(st, sb, ss) && id in st.lookup && Rests(st.lookup[id].orderType)
    ensures var o := st.lookup[id];
      BookValid(Sides(if o.side == Buy then Unqueue(st.bids, o.price, id) else st.bids,
                      if o.side == Sell then Unqueue(st.asks, o.price, id) else st.asks,
                      st.lookup - {id}), sb, ss)
  {
    var lk := st.lookup - {id};
    if st.lookup[id].side == Buy {
      UnqueueSide(st.bids, st.lookup, id);
      LevelsFramed(st.asks, st.lookup, lk, Sell);
    } else {
      UnqueueSide(st.asks, st.lookup, id);
      LevelsFramed(st.bids, st.lookup, lk, Buy);
    }
    StopsFramed(sb, st.lookup, lk, Buy);
    StopsFramed(ss, st.lookup, lk, Sell);
  }

  /** modifyOrder keeps the invariant: the order leaves its queue and joins
      the back of the queue at its new price with its new quantity. */
  lemma ModifyValid(st: Sides, sb: seq<StopEntry>, ss: seq<StopEntry>, id: OrderId, newPrice: int, newQty: nat, post: Sides)
    requires BookValid(st, sb, ss) && id in st.lookup && Rests(st.lookup[id].orderType)
    requires var o := st.lookup[id];
      post == Sides(if o.side == Buy then Enqueue(Unqueue(st.bids, o.price, id), newPrice, id) else st.bids,
                    if o.side == Sell then Enqueue(Unqueue(st.asks, o.price, id), newPrice, id) else st.asks,
                    st.lookup[id := Modified(o, newPrice, newQty)])
    ensures BookValid(post, sb, ss)
  {
    var o := st.lookup[id];
    UnqueueValid(st, sb, ss, id);
    var mid := Sides(if o.side == Buy then Unqueue(st.bids, o.price, id) else st.bids,
                     if o.side == Sell then Unqueue(st.asks, o.price, id) else st.asks,
                     st.lookup - {id});
    EnqueueValid(mid, sb, ss, Modified(o, newPrice, newQty));
    assert (st.lookup - {id})[id := Modified(o, newPrice, newQty)] == st.lookup[id := Modified(o, newPrice, newQty)];
  }

  /** Erasing a stop order's entry from a consistent multimap. */
  lemma RemoveStopSide(stops: seq<StopEntry>, lookup: Lookup, id: OrderId)
    requires id in lookup && lookup[id].orderType == StopLoss
    requires StopsValid(stops, lookup, lookup[id].side)
    ensures StopsValid(RemoveFirst(stops, StopEntry(lookup[id].triggerPrice, id)), lookup - {id}, lookup[id].side)
  {
    var e := StopEntry(lookup[id].triggerPrice, id);
    var stops' := RemoveFirst(stops, e);
    RemoveFirstElements(stops, e);
    var side := lookup[id].side;
    forall i | 0 <= i < |stops'|
      ensures stops'[i].id in lookup - {id} && lookup[stops'[i].id].orderType == StopLoss
      ensures lookup[stops'[i].id].side == side && lookup[stops'[i].id].triggerPrice == stops'[i].trigger
    {
      assert stops'[i] in stops;
      var j :| 0 <= j < |stops| && stops[j] == stops'[i];
    }
  }

  /** Dropping a stop order from the lookup and its entry from the multimap
      keeps the book consistent. */
  lemma CancelStopValid(st: Sides, sb: seq<StopEntry>, ss: seq<StopEntry>, id: OrderId)
    requires BookValid(st, sb, ss) && id in st.lookup && st.lookup[id].orderType == StopLoss
    ensures var o := st.lookup[id];
      var e := StopEntry(o.triggerPrice, id);
      BookValid(Sides(st.bids, st.asks, st.lookup - {id}),
                if o.side == Buy then RemoveFirst(sb, e) else sb,
                if o.side == Sell then RemoveFirst(ss, e) else ss)
  {
    var lk := st.lookup - {id};
    LevelsFramed(st.bids, st.lookup, lk, Buy);
    LevelsFramed(st.asks, st.lookup, lk, Sell);
    if st.lookup[id].side == Buy {
      RemoveStopSide(sb, st.lookup, id);
      StopsFramed(ss, st.lookup, lk, Sell);
    } else {
      RemoveStopSide(ss, st.lookup, id);
      StopsFramed(sb, st.lookup, lk, Buy);
    }
  }

  /** Dropping a market order from the lookup keeps the book consistent. */
  lemma CancelMarketValid(st: Sides, sb: seq<StopEntry>, ss: seq<StopEntry>, id: OrderId)
    requires BookValid(st, sb, ss) && id in st.lookup && st.lookup[id].orderType == Market
    ensures BookValid(Sides(st.bids, st.asks, st.lookup - {id}), sb, ss)
  {
    var lk := st.lookup - {id};
    LevelsFramed(st.bids, st.lookup, lk, Buy);
    LevelsFramed(st.asks, st.lookup, lk, Sell);
    StopsFramed(sb, st.lookup, lk, Buy);
    StopsFramed(ss, st.lookup, lk, Sell);
  }

  /** The multimap of one side after triggering stays consistent with the
      lookup in which every fired order became a market order. */
  lemma TriggerSide(stops: seq<StopEntry>, lookup: Lookup, side: Side, last: int, ids: set<OrderId>)
    requires StopsValid(stops, lookup, side)
    requires forall i :: 0 <= i < |stops| && Fires(stops[i], side, last) ==> stops[i].id in ids
    requires forall i :: 0 <= i < |stops| && !Fires(stops[i], side, last) ==> stops[i].id !in ids
    ensures StopsValid(Kept(stops, side, last), Activated(lookup, ids), side)
  {
    var lk := Activated(lookup, ids);
    var kept := Kept(stops, side, last);
    TriggerPartition(stops, side, last);
    forall i, j | 0 <= i < j < |kept| ensures kept[i].id != kept[j].id {
      KeptOrder(stops, side, last, i, j);
    }
    forall i | 0 <= i < |kept|
      ensures kept[i].id in lk && lk[kept[i].id].orderType == StopLoss
      ensures lk[kept[i].id].side == side && lk[kept[i].id].triggerPrice == kept[i].trigger
    {
      assert kept[i] in stops;
      var j :| 0 <= j < |stops| && stops[j] == kept[i];
    }
    forall x | x in lk && lk[x].side == side && lk[x].orderType == StopLoss
      ensures StopEntry(lk[x].triggerPrice, x) in kept
    {
      assert x !in ids;
      var e := StopEntry(lk[x].triggerPrice, x);
      assert e in stops;
      var j :| 0 <= j < |stops| && stops[j] == e;
    }
  }

  /** The ids fired from one side belong to that side's stop orders. */
  lemma FiredAreStops(stops: seq<StopEntry>, lookup: Lookup, side: Side, last: int)
    requires StopsValid(stops, lookup, side)
    ensures forall x :: x in Fired(stops, side, last) ==>
      x in lookup && lookup[x].orderType == StopLoss && lookup[x].side == side
  {
    TriggerPartition(stops, side, last);
    forall x | x in Fired(stops, side, last)
      ensures x in lookup && lookup[x].orderType == StopLoss && lookup[x].side == side
    {
      var i :| 0 <= i < |stops| && Fires(stops[i], side, last) && stops[i].id == x;
    }
  }

  /** An entry that does not fire is not among the activated ids, when
      those are this side's fired ids and orders of the other side. */
  lemma NotFiredStay(stops: seq<StopEntry>, lookup: Lookup, side: Side, last: int, ids: set<OrderId>)
    requires StopsValid(stops, lookup, side)
    requires forall x :: x in ids ==> x in Fired(stops, side, last) || (x in lookup && lookup[x].side != side)
    requires forall x :: x in Fired(stops, side, last) ==> x in ids
    ensures forall i :: 0 <= i < |stops| && Fires(stops[i], side, last) ==> stops[i].id in ids
    ensures forall i :: 0 <= i < |stops| && !Fires(stops[i], side, last) ==> stops[i].id !in ids
  {
    TriggerPartition(stops, side, last);
  }

  /** Firing the stops of both multimaps keeps the book consistent: the fired
      orders become market orders and leave their multimap. */
  lemma TriggerValid(st: Sides, sb: seq<StopEntry>, ss: seq<StopEntry>, last: int,
                     post: Sides, keptBuy: seq<StopEntry>, keptSell: seq<StopEntry>)
    requires BookValid(st, sb, ss)
    requires post == Sides(st.bids, st.asks, Activated(st.lookup, IdSet(Fired(sb, Buy, last) + Fired(ss, Sell, last))))
    requires keptBuy == Kept(sb, Buy, last) && keptSell == Kept(ss, Sell, last)
    ensures BookValid(post, keptBuy, keptSell)
  {
    var ids := IdSet(Fired(sb, Buy, last) + Fired(ss, Sell, last));
    var lk := Activated(st.lookup, ids);
    FiredAreStops(sb, st.lookup, Buy, last);
    FiredAreStops(ss, st.lookup, Sell, last);
    IdSetConcat(Fired(sb, Buy, last), Fired(ss, Sell, last));
    ActivatedSides(st, ids);
    IdSetConcat(Fired(sb, Buy, last), Fired(ss, Sell, last));
    KeptValid(sb, ss, st.lookup, Buy, Sell, last, ids);
    KeptValid(ss, sb, st.lookup, Sell, Buy, last, ids);
  }

  /** Turning stop orders into market orders leaves the levels alone. */
  lemma ActivatedSides(st: Sides, ids: set<OrderId>)
    requires SidesValid(st)
    requires forall x :: x in ids && x in st.lookup ==> st.lookup[x].orderType == StopLoss
    ensures SidesValid(Sides(st.bids, st.asks, Activated(st.lookup, ids)))
  {
    var lk := Activated(st.lookup, ids);
    LevelsFramed(st.bids, st.lookup, lk, Buy);
    LevelsFramed(st.asks, st.lookup, lk, Sell);
  }

  /** One multimap after both have fired, the activated ids being the
      fired ids of the two. */
  lemma KeptValid(mine: seq<StopEntry>, other: seq<StopEntry>, lookup: Lookup, side: Side, otherSide: Side,
                  last: int, ids: set<OrderId>)
    requires StopsValid(mine, lookup, side) && StopsValid(other, lookup, otherSide) && side != otherSide
    requires forall x :: x in ids <==> x in Fired(mine, side, last) || x in Fired(other, otherSide, last)
    ensures StopsValid(Kept(mine, side, last), Activated(lookup, ids), side)
  {
    FiredAreStops(other, lookup, otherSide, last);
    KeptStops(mine, lookup, side, last, ids);
  }

  lemma IdSetConcat(a: seq<OrderId>, b: seq<OrderId>)
    ensures forall x :: x in IdSet(a + b) <==> x in a || x in b
  {
  }

  /** One multimap after triggering, when the activated ids are its own
      fired ids and orders of the other side. */
  lemma KeptStops(stops: seq<StopEntry>, lookup: Lookup, side: Side, last: int, ids: set<OrderId>)
    requires StopsValid(stops, lookup, side)
    requires forall x :: x in ids ==> x in Fired(stops, side, last) || (x in lookup && lookup[x].side != side)
    requires forall x :: x in Fired(stops, side, last) ==> x in ids
    ensures StopsValid(Kept(stops, side, last), Activated(lookup, ids), side)
  {
    NotFiredStay(stops, lookup, side, last, ids);
    TriggerSide(stops, lookup, side, last, ids);
  }


  /** Kept entries appear in their original order, so distinct positions of
      the kept list come from distinct positions of the multimap. */
  lemma {:induction false} KeptOrder(stops: seq<StopEntry>, side: Side, last: int, i: nat, j: nat)
    requires forall a, b :: 0 <= a < b < |stops| ==> stops[a].id != stops[b].id
    requires i < j < |Kept(stops, side, last)|
    ensures Kept(stops, side, last)[i].id != Kept(stops, side, last)[j].id
  {
    var n := |stops| - 1;
    var init := stops[..n];
    TriggerPartition(init, side, last);
    var k := Kept(init, side, last);
    if j < |k| {
      KeptOrder(init, side, last, i, j);
    } else {
      assert Kept(stops, side, last)[j] == stops[n];
      assert Kept(stops, side, last)[i] == k[i];
      assert k[i] in init;
    }
  }

  /** The ids of a list, as a set. */
  function IdSet(ids: seq<OrderId>): set<OrderId>
  {
    set x | x in ids
  }

  /** Activating one more id of a list. */
  lemma ActivateOne(lookup: Lookup, ids: seq<OrderId>, k: nat)
    requires k < |ids| && ids[k] in lookup
    ensures var before := Activated(lookup, IdSet(ids[..k]));
      Activated(lookup, IdSet(ids[..k + 1])) == before[ids[k] := before[ids[k]].(orderType := Market)]
  {
    var s0 := IdSet(ids[..k]);
    var s1 := IdSet(ids[..k + 1]);
    assert ids[..k + 1] == ids[..k] + [ids[k]];
    assert s1 == s0 + {ids[k]};
    var before := Activated(lookup, s0);
    assert before[ids[k]] == lookup[ids[k]] || before[ids[k]] == lookup[ids[k]].(orderType := Market);
  }

  // ---------------------------------------------------------------------
  // Whole book operations on the levels and the lookup

  /** addOrder on the levels and the lookup: a known id changes nothing;
      otherwise the order is stored under its id, and a limit or iceberg
      order joins the back of the level at its price. */
  function Admit(st: Sides, o: Order): Sides
  {
    if o.orderId in st.lookup then st
    else Sides(if Rests(o.orderType) && o.side == Buy then Enqueue(st.bids, o.price, o.orderId) else st.bids,
               if Rests(o.orderType) && o.side == Sell then Enqueue(st.asks, o.price, o.orderId) else st.asks,
               st.lookup[o.orderId := o])
  }

  /** addOrder on one side's stop multimap: a new stop order of that side
      adds its entry at the end. */
  function AdmitStops(stops: seq<StopEntry>, side: Side, lookup: Lookup, o: Order): seq<StopEntry>
  {
    if o.orderId !in lookup && o.orderType == StopLoss && o.side == side
    then stops + [StopEntry(o.triggerPrice, o.orderId)] else stops
  }

  /** cancelOrder on the levels and the lookup: an unknown id or another
      participant's order changes nothing; otherwise the order leaves the
      lookup and, when it rests, its queue. */
  function Withdraw(st: Sides, id: OrderId, participantId: nat): Sides
  {
    if id in st.lookup && st.lookup[id].participantId == participantId then
      var o := st.lookup[id];
      Sides(if Rests(o.orderType) && o.side == Buy then Unqueue(st.bids, o.price, id) else st.bids,
            if Rests(o.orderType) && o.side == Sell then Unqueue(st.asks, o.price, id) else st.asks,
            st.lookup - {id})
    else st
  }

  /** cancelOrder on one side's stop multimap: the entry of a cancelled stop
      order of that side is erased. */
  function WithdrawStops(stops: seq<StopEntry>, side: Side, lookup: Lookup, id: OrderId, participantId: nat): seq<StopEntry>
  {
    if id in lookup && lookup[id].participantId == participantId
       && lookup[id].orderType == StopLoss && lookup[id].side == side
    then RemoveFirst(stops, StopEntry(lookup[id].triggerPrice, id)) else stops
  }

  /** modifyOrder on the levels and the lookup: only an owned resting order
      changes; it leaves its queue and joins the back of the level at the
      new price with the new quantity. */
  function Remodel(st: Sides, id: OrderId, newPrice: int, newQty: nat, participantId: nat): Sides
  {
    if id in st.lookup && st.lookup[id].participantId == participantId && Rests(st.lookup[id].orderType) then
      var o := st.lookup[id];
      Sides(if o.side == Buy then Enqueue(Unqueue(st.bids, o.price, id), newPrice, id) else st.bids,
            if o.side == Sell then Enqueue(Unqueue(st.asks, o.price, id), newPrice, id) else st.asks,
            st.lookup[id := Modified(o, newPrice, newQty)])
    else st
  }

  /** triggerStopOrders with a last trade price: the firing stop orders of
      both sides become market orders. */
  function Triggered(st: Sides, sb: seq<StopEntry>, ss: seq<StopEntry>, last: int): Sides
  {
    Sides(st.bids, st.asks, Activated(st.lookup, IdSet(Fired(sb, Buy, last) + Fired(ss, Sell, last))))
  }

  /** matchBook keeps the book consistent, stop multimaps included. */
  lemma MatchValid(st: Sides, sb: seq<StopEntry>, ss: seq<StopEntry>, sequence: nat, timestamp: nat)
    requires BookValid(st, sb, ss)
    ensures BookValid(MatchAll(st, sequence, timestamp).0, sb, ss)
  {
    MatchSettles(st, sequence, timestamp);
    var m := MatchAll(st, sequence, timestamp).0;
    ShrinksKeepsStops(st.lookup, m.lookup, sb, Buy);
    ShrinksKeepsStops(st.lookup, m.lookup, ss, Sell);
  }

  /** addOrder keeps the book consistent. */
  lemma AdmitValid(st: Sides, sb: seq<StopEntry>, ss: seq<StopEntry>, o: Order)
    requires BookValid(st, sb, ss)
    ensures BookValid(Admit(st, o), AdmitStops(sb, Buy, st.lookup, o), AdmitStops(ss, Sell, st.lookup, o))
  {
    if o.orderId !in st.lookup {
      if o.orderType == StopLoss {
        AddStopValid(st, sb, ss, o);
      } else if o.orderType == Market {
        AddMarketValid(st, sb, ss, o);
      } else {
        EnqueueValid(st, sb, ss, o);
      }
    }
  }

  /** cancelOrder keeps the book consistent. */
  lemma WithdrawValid(st: Sides, sb: seq<StopEntry>, ss: seq<StopEntry>, id: OrderId, participantId: nat)
    requires BookValid(st, sb, ss)
    ensures BookValid(Withdraw(st, id, participantId),
                      WithdrawStops(sb, Buy, st.lookup, id, participantId),
                      WithdrawStops(ss, Sell, st.lookup, id, participantId))
  {
    if id in st.lookup && st.lookup[id].participantId == participantId {
      var t := st.lookup[id].orderType;
      if t == StopLoss {
        CancelStopValid(st, sb, ss, id);
      } else if t == Market {
        CancelMarketValid(st, sb, ss, id);
      } else {
        UnqueueValid(st, sb, ss, id);
      }
    }
  }

  /** modifyOrder keeps the book consistent. */
  lemma RemodelValid(st: Sides, sb: seq<StopEntry>, ss: seq<StopEntry>, id: OrderId, newPrice: int, newQty: nat,
                     participantId: nat)
    requires BookValid(st, sb, ss)
    ensures BookValid(Remodel(st, id, newPrice, newQty, participantId), sb, ss)
  {
    if id in st.lookup && st.lookup[id].participantId == participantId && Rests(st.lookup[id].orderType) {
      ModifyValid(st, sb, ss, id, newPrice, newQty, Remodel(st, id, newPrice, newQty, participantId));
    }
  }

  // ---------------------------------------------------------------------
  // Recent trades

  /** recordTradePrice keeps at most this many trades. */
  const MaxRecentTrades: nat := 100

  datatype TradePrint = TradePrint(price: int, quantity: nat)

  /** The last MaxRecentTrades entries of a trade history. */
  function Window(s: seq<TradePrint>): (r: seq<TradePrint>)
    ensures |r| <= MaxRecentTrades
    ensures |s| <= MaxRecentTrades ==> r == s
  {
    if |s| <= MaxRecentTrades then s else s[|s| - MaxRecentTrades..]
  }

  /** The window is the newest part of the history: its last
      MaxRecentTrades entries, or all of it when shorter. */
  lemma WindowSuffix(s: seq<TradePrint>)
    ensures |Window(s)| == if |s| <= MaxRecentTrades then |s| else MaxRecentTrades
    ensures Window(s) == s[|s| - |Window(s)|..]
  {
  }

  /** Appending to the window and trimming it gives the window of the whole
      history: the deque always holds the most recent trades. */
  lemma WindowAppend(s: seq<TradePrint>, t: TradePrint)
    ensures Window(Window(s) + [t]) == Window(s + [t])
    ensures |Window(s)| <= MaxRecentTrades
  {
    if |s| > MaxRecentTrades {
      assert (Window(s) + [t])[1..] == (s + [t])[|s| + 1 - MaxRecentTrades..];
    }
  }

  /** The (price, quantity) pairs recorded for a list of executions. */
  function Prints(es: seq<ExecutionMessage>): (r: seq<TradePrint>)
    ensures |r| == |es|
    ensures forall i :: 0 <= i < |es| ==> r[i] == TradePrint(es[i].price, es[i].quantity)
  {
    if es == [] then [] else [TradePrint(es[0].price, es[0].quantity)] + Prints(es[1..])
  }

  /** The window before any trade of a matchBook run. */
  lemma WindowStart(rt: seq<TradePrint>, none: seq<ExecutionMessage>)
    requires |rt| <= MaxRecentTrades && none == []
    ensures Window(rt + Prints(none)) == rt
  {
    assert rt + Prints(none) == rt;
  }

  /** recordTradePrice extends the window of a matchBook run by one trade. */
  lemma WindowPrints(rt0: seq<TradePrint>, done: seq<ExecutionMessage>, exec: ExecutionMessage)
    ensures Window(Window(rt0 + Prints(done)) + [TradePrint(exec.price, exec.quantity)]) == Window(rt0 + Prints(done + [exec]))
  {
    WindowAppend(rt0 + Prints(done), TradePrint(exec.price, exec.quantity));
    assert Prints(done + [exec]) == Prints(done) + [TradePrint(exec.price, exec.quantity)];
    assert rt0 + Prints(done) + [TradePrint(exec.price, exec.quantity)] == rt0 + Prints(done + [exec]);
  }

  lemma NilAppend(none: seq<ExecutionMessage>, s: seq<ExecutionMessage>)
    requires none == []
    ensures none + s == s
  {
  }
}
