/** One symbol's matching engine (src/MatchingEngine.cpp): the validation
    gates in front of the order book, the routing of an accepted add to the
    GTC, IOC/FOK or market path, and the numbering of the executions it
    publishes.

    Prices are whole numbers of ticks. The floating-point parts of the
    gates are inputs: `breach` says whether the volatility percentage test
    of checkVolatilityHalt fires, and the tick-size test holds whenever the
    symbol has a config. The clock reading is the `now` parameter. */
module Engine {
  import opened Messages
  import opened ServerOrder
  import opened SymbolConfigs
  import opened BookSpec
  import opened Book

  // ---------------------------------------------------------------------
  // The gates, as predicates over the config table

  /** quantityValid: the symbol has a config and the quantity reaches its
      minimum. */
  predicate QuantityValid(cm: ConfigMap, symbol: string, qty: nat)
  {
    symbol in cm && qty >= cm[symbol].minQuantity
  }

  /** priceValidForSymbol: the symbol has a config and the price lies in
      its [minPrice, maxPrice] band. */
  predicate PriceValidForSymbol(cm: ConfigMap, symbol: string, price: int)
  {
    symbol in cm && cm[symbol].minPrice <= price <= cm[symbol].maxPrice
  }

  /** tickSizeValid on whole ticks: only the config lookup can fail. */
  predicate TickSizeValid(cm: ConfigMap, symbol: string, price: int)
  {
    symbol in cm
  }

  /** The checks of validateAdd before the volatility gate. */
  predicate AddWellFormed(cm: ConfigMap, msg: AddMessage)
  {
    && |msg.symbol| <= 7 && msg.quantity != 0
    && QuantityValid(cm, msg.symbol, msg.quantity)
    && (Rests(msg.orderType) ==>
          msg.price > 0 && TickSizeValid(cm, msg.symbol, msg.price) && PriceValidForSymbol(cm, msg.symbol, msg.price))
    && (msg.orderType == StopLoss ==> msg.triggerPrice > 0)
  }

  /** checkVolatilityHalt's answer: the symbol is halted already, or a
      limit or iceberg price breaches the volatility band. */
  predicate HaltsAdd(cm: ConfigMap, msg: AddMessage, breach: bool)
  {
    msg.symbol in cm && (cm[msg.symbol].tradingHalted || (Rests(msg.orderType) && breach))
  }

  /** validateAdd's verdict. */
  predicate AddAccepted(cm: ConfigMap, msg: AddMessage, breach: bool)
  {
    AddWellFormed(cm, msg) && !HaltsAdd(cm, msg, breach)
  }

  /** The config table after validateAdd: the symbol is halted exactly when
      the volatility gate was reached and fired. */
  function ConfigsAfterAdd(cm: ConfigMap, msg: AddMessage, breach: bool): (r: ConfigMap)
    ensures r.Keys == cm.Keys
    ensures forall s :: s in cm && s != msg.symbol ==> r[s] == cm[s]
    ensures msg.symbol in cm && AddWellFormed(cm, msg) && HaltsAdd(cm, msg, breach) ==> r[msg.symbol].tradingHalted
  {
    if AddWellFormed(cm, msg) && HaltsAdd(cm, msg, breach) then WithHalted(cm, msg.symbol, true) else cm
  }

  /** validateCancel: only order id 0 is refused. */
  predicate ValidateCancel(msg: CancelMessage)
  {
    msg.orderId != 0
  }

  /** validateCancelReplace, against the engine's own symbol. */
  predicate ValidateCancelReplace(cm: ConfigMap, symbol: string, msg: CancelReplaceMessage)
  {
    && msg.orderId != 0 && msg.newPrice > 0 && msg.newQuantity != 0
    && TickSizeValid(cm, symbol, msg.newPrice)
    && QuantityValid(cm, symbol, msg.newQuantity)
    && PriceValidForSymbol(cm, symbol, msg.newPrice)
  }

  /** An accepted add has a config that is not halted, so the second config
      lookup and halt test of processAdd never refuse it. */
  lemma AcceptedHasLiveConfig(cm: ConfigMap, msg: AddMessage, breach: bool)
    requires AddAccepted(cm, msg, breach)
    ensures msg.symbol in cm && !cm[msg.symbol].tradingHalted
    ensures msg.quantity >= cm[msg.symbol].minQuantity && msg.quantity > 0
    ensures ConfigsAfterAdd(cm, msg, breach) == cm
  {
  }

  /** Market and stop orders pass the gates whatever their limit price and
      whatever the volatility test says. */
  lemma UnpricedIgnoresPrice(cm: ConfigMap, msg: AddMessage, price: int, breach: bool, breach': bool)
    requires !Rests(msg.orderType)
    ensures AddAccepted(cm, msg, breach) == AddAccepted(cm, msg.(price := price), breach')
  {
  }

  /** A limit or iceberg order passes only with a positive price inside
      the symbol's band and no volatility breach. */
  lemma PricedNeedsBand(cm: ConfigMap, msg: AddMessage, breach: bool)
    requires Rests(msg.orderType) && AddAccepted(cm, msg, breach)
    ensures 0 < msg.price && cm[msg.symbol].minPrice <= msg.price <= cm[msg.symbol].maxPrice
    ensures !breach
  {
  }

  /** An accepted symbol fits the order's 8-character buffer whole. */
  lemma AcceptedSymbolFits(cm: ConfigMap, msg: AddMessage, breach: bool)
    requires AddAccepted(cm, msg, breach)
    ensures KeptLength(msg.symbol) == |msg.symbol|
  {
  }

  /** Executions numbered from `sequence` end at sequence + |es| - 1. */
  lemma NumberedLast(es: seq<ExecutionMessage>, sequence: nat, timestamp: nat)
    requires Numbered(es, sequence, timestamp) && es != []
    ensures es[|es| - 1].header.sequence + 1 == sequence + |es|
  {
  }

  /** What the engine reads as the order's quantity after matching: the
      live record when the order went in and is still there, 0 when it
      went in and was filled (its pool slot keeps the decremented
      count), and its own quantity when addOrder refused it. */
  function Remaining(o: Order, added: bool, lookup: Lookup): nat
  {
    if added && o.orderId in lookup then lookup[o.orderId].quantity
    else if added then 0
    else o.quantity
  }

  /** The order processAdd builds from a message: every field copied, the
      clock reading as its timestamp, and the symbol kept up to the
      buffer's size and terminated. */
  predicate Carries(o: Order, msg: AddMessage, now: nat)
  {
    && o.orderId == msg.orderId && o.side == msg.side && o.price == msg.price
    && o.quantity == msg.quantity && o.totalQuantity == msg.quantity && o.timestamp == now
    && o.participantId == msg.participantId && o.tif == msg.tif && o.orderType == msg.orderType
    && o.triggerPrice == msg.triggerPrice && o.visibleQuantity == msg.visibleQuantity
    && |o.symbol| == SymbolCapacity
    && o.symbol[..KeptLength(msg.symbol)] == msg.symbol[..KeptLength(msg.symbol)]
    && o.symbol[KeptLength(msg.symbol)] == '\0'
  }

  /** The end of the market and IOC/FOK paths on the levels and the lookup:
      when the engine reads quantity left on the order, cancelOrder runs
      under the order's id and participant. */
  function Leftover(st: Sides, o: Order, added: bool): Sides
  {
    if Remaining(o, added, st.lookup) > 0 then Withdraw(st, o.orderId, o.participantId) else st
  }

  /** The same cancellation on one side's stop multimap. */
  function LeftoverStops(stops: seq<StopEntry>, side: Side, st: Sides, o: Order, added: bool): seq<StopEntry>
  {
    if Remaining(o, added, st.lookup) > 0 then WithdrawStops(stops, side, st.lookup, o.orderId, o.participantId) else stops
  }

  /** processAdd's three paths for a validated order, on the levels and the
      lookup, with the run of executions published from `sequence`. A
      market or IOC/FOK order enters, the book is matched and what is left
      of the order is cancelled; a GTC order with a known id changes
      nothing; a GTC limit or iceberg order rests and the book is matched;
      a GTC stop order only enters. */
  ghost function Routed(st: Sides, o: Order, sequence: nat, now: nat): (Sides, seq<ExecutionMessage>)
    requires SidesValid(Admit(st, o))
  {
    var m := MatchAll(Admit(st, o), sequence, now);
    if o.orderType == Market || o.tif != GTC then (Leftover(m.0, o, o.orderId !in st.lookup), m.1)
    else if o.orderId in st.lookup then (st, [])
    else if Rests(o.orderType) then m
    else (Admit(st, o), [])
  }

  /** One side's stop multimap after processAdd's paths; matching leaves
      it alone. */
  ghost function RoutedStops(stops: seq<StopEntry>, side: Side, st: Sides, o: Order, sequence: nat, now: nat): seq<StopEntry>
    requires SidesValid(Admit(st, o))
  {
    var admitted := AdmitStops(stops, side, st.lookup, o);
    if o.orderType == Market || o.tif != GTC
    then LeftoverStops(admitted, side, MatchAll(Admit(st, o), sequence, now).0, o, o.orderId !in st.lookup)
    else admitted
  }

  /** processAdd's paths keep the book consistent, stop multimaps
      included. */
  lemma RoutedValid(st: Sides, sb: seq<StopEntry>, ss: seq<StopEntry>, o: Order, sequence: nat, now: nat)
    requires BookValid(st, sb, ss)
    ensures SidesValid(Admit(st, o))
    ensures BookValid(Routed(st, o, sequence, now).0,
                      RoutedStops(sb, Buy, st, o, sequence, now), RoutedStops(ss, Sell, st, o, sequence, now))
  {
    AdmitValid(st, sb, ss, o);
    var a := Admit(st, o);
    var ab, aa := AdmitStops(sb, Buy, st.lookup, o), AdmitStops(ss, Sell, st.lookup, o);
    var unpriced := o.orderType == Market || o.tif != GTC;
    if unpriced || (o.orderId !in st.lookup && Rests(o.orderType)) {
      MatchValid(a, ab, aa, sequence, now);
      if unpriced {
        WithdrawValid(MatchAll(a, sequence, now).0, ab, aa, o.orderId, o.participantId);
      }
    }
  }

  /** A new market or IOC/FOK order never stays in the book: matching
      either removes it or leaves it with quantity, and then it is
      cancelled. */
  lemma UnpricedNeverRests(st: Sides, o: Order, sequence: nat, now: nat)
    requires SidesValid(Admit(st, o))
    requires o.orderId !in st.lookup && o.quantity > 0 && (o.orderType == Market || o.tif != GTC)
    ensures o.orderId !in Routed(st, o, sequence, now).0.lookup
  {
    var a := Admit(st, o);
    MatchSettles(a, sequence, now);
    var m := MatchAll(a, sequence, now).0;
    if o.orderId in m.lookup {
      assert m.lookup[o.orderId] == a.lookup[o.orderId].(quantity := m.lookup[o.orderId].quantity);
      assert Remaining(o, true, m.lookup) > 0;
    }
  }

  /** After a new GTC limit or iceberg order the book is no longer
      crossed between different participants. */
  lemma RestingSettles(st: Sides, o: Order, sequence: nat, now: nat)
    requires SidesValid(Admit(st, o))
    requires o.orderId !in st.lookup && o.tif == GTC && Rests(o.orderType)
    ensures SidesValid(Routed(st, o, sequence, now).0) && !Continues(Routed(st, o, sequence, now).0)
  {
    MatchSettles(Admit(st, o), sequence, now);
  }

  /** `after` is `before` followed by executions numbered from `s0`, and
      the next sequence number `s1` comes right after them. */
  ghost predicate Published(before: seq<ExecutionMessage>, after: seq<ExecutionMessage>, s0: nat, s1: nat, timestamp: nat)
  {
    && |before| <= |after| && after[..|before|] == before
    && Numbered(after[|before|..], s0, timestamp)
    && s1 == s0 + (|after| - |before|)
  }

  lemma PublishedNone(sent: seq<ExecutionMessage>, s: nat, timestamp: nat)
    ensures Published(sent, sent, s, s, timestamp)
  {
  }

  lemma NumberedConcat(x: seq<ExecutionMessage>, y: seq<ExecutionMessage>, sequence: nat, timestamp: nat)
    requires Numbered(x, sequence, timestamp) && Numbered(y, sequence + |x|, timestamp)
    ensures Numbered(x + y, sequence, timestamp)
  {
    assert forall i :: |x| <= i < |x| + |y| ==> (x + y)[i] == y[i - |x|];
  }

  /** Two publications in a row are one publication. */
  lemma PublishedChain(a: seq<ExecutionMessage>, b: seq<ExecutionMessage>, c: seq<ExecutionMessage>,
                       s0: nat, s1: nat, s2: nat, timestamp: nat)
    requires Published(a, b, s0, s1, timestamp) && Published(b, c, s1, s2, timestamp)
    ensures Published(a, c, s0, s2, timestamp)
  {
    assert c[|a|..] == b[|a|..] + c[|b|..];
    NumberedConcat(b[|a|..], c[|b|..], s0, timestamp);
  }

  /** processAdd's outcome on engine `e` for an accepted message: the
      order it built, and the levels, lookup, stop multimaps and published
      executions its path gives. */
  twostate predicate AddedBy(e: MatchingEngine, msg: AddMessage, now: nat, entered: Order)
    reads e, e.book
  {
    && Carries(entered, msg, now)
    && SidesValid(Admit(old(e.book.State()), entered))
    && Published(old(e.sent), e.sent, old(e.nextSequence), e.nextSequence, now)
    && (e.book.State(), e.sent[|old(e.sent)|..]) == Routed(old(e.book.State()), entered, old(e.nextSequence), now)
    && e.book.stopsBuy == RoutedStops(old(e.book.stopsBuy), Buy, old(e.book.State()), entered, old(e.nextSequence), now)
    && e.book.stopsSell == RoutedStops(old(e.book.stopsSell), Sell, old(e.book.State()), entered, old(e.nextSequence), now)
  }

  /** processCancelReplace's outcome on engine `e`: refused, nothing
      changes; accepted, the levels, lookup and published executions are
      those of matching the book after modifyOrder. The stop multimaps
      are never touched. */
  twostate predicate ReplacedBy(e: MatchingEngine, msg: CancelReplaceMessage, now: nat, ok: bool)
    reads e, e.book
  {
    && Published(old(e.sent), e.sent, old(e.nextSequence), e.nextSequence, now)
    && e.book.stopsBuy == old(e.book.stopsBuy) && e.book.stopsSell == old(e.book.stopsSell)
    && (!ok ==> unchanged(e.book) && e.sent == old(e.sent) && e.nextSequence == old(e.nextSequence))
    && (ok ==> var modified := Remodel(old(e.book.State()), msg.orderId, msg.newPrice, msg.newQuantity, msg.participantId);
          && SidesValid(modified)
          && (e.book.State(), e.sent[|old(e.sent)|..]) == MatchAll(modified, old(e.nextSequence), now))
  }

  class MatchingEngine {
    const symbol: string
    const book: OrderBook
    const configs: SymbolConfigManager
    /** The sequence number the next execution gets. */
    var nextSequence: nat
    /** Every execution handed to sendExecution, in order. */
    var sent: seq<ExecutionMessage>

    ghost predicate Valid()
      reads this, book
    {
      book.Valid()
    }

    constructor (symbol: string, configs: SymbolConfigManager)
      ensures Valid() && fresh(book)
      ensures this.symbol == symbol && this.configs == configs
      ensures nextSequence == 1 && sent == []
      ensures book.bids == map[] && book.asks == map[] && book.lookup == map[]
    {
      this.symbol := symbol;
      this.configs := configs;
      book := new OrderBook();
      nextSequence := 1;
      sent := [];
    }

    /** checkVolatilityHalt: halts the symbol when an in-band limit or
        iceberg price breaches the volatility threshold. */
    method CheckVolatilityHalt(msg: AddMessage, breach: bool) returns (halted: bool)
      modifies configs
      ensures halted <==> HaltsAdd(old(configs.configs), msg, breach)
      ensures configs.configs == if halted then WithHalted(old(configs.configs), msg.symbol, true) else old(configs.configs)
    {
      var found, cfg := configs.GetConfig(msg.symbol, SymbolConfig(0, 0, 0, 0, 0, 0, false));
      if !found {
        return false;
      }
      if cfg.tradingHalted {
        assert WithHalted(configs.configs, msg.symbol, true) == configs.configs;
        return true;
      }
      if Rests(msg.orderType) && breach {
        configs.HaltTrading(msg.symbol);
        return true;
      }
      return false;
    }

    /** validateAdd: the basic, quantity and price checks, then the
        volatility gate, which may halt the symbol. */
    method ValidateAdd(msg: AddMessage, breach: bool) returns (ok: bool)
      modifies configs
      ensures ok <==> AddAccepted(old(configs.configs), msg, breach)
      ensures configs.configs == ConfigsAfterAdd(old(configs.configs), msg, breach)
    {
      if |msg.symbol| > 7 || msg.quantity == 0 {
        return false;
      }
      if !QuantityValid(configs.configs, msg.symbol, msg.quantity) {
        return false;
      }
      if msg.orderType == Limit || msg.orderType == Iceberg {
        if msg.price <= 0 {
          return false;
        }
        if !TickSizeValid(configs.configs, msg.symbol, msg.price) {
          return false;
        }
        if !PriceValidForSymbol(configs.configs, msg.symbol, msg.price) {
          return false;
        }
      }
      if msg.orderType == StopLoss {
        if msg.triggerPrice <= 0 {
          return false;
        }
      }
      var halted := CheckVolatilityHalt(msg, breach);
      ok := !halted;
    }

    /** sendExecution: hands one execution to the replay log. */
    method SendExecution(e: ExecutionMessage)
      modifies this`sent
      ensures sent == old(sent) + [e]
    {
      sent := sent + [e];
    }

    /** The publishing loop: each execution moves nextSequence past its own
        sequence number and is sent. */
    method Publish(trades: seq<ExecutionMessage>)
      modifies this`nextSequence, this`sent
      ensures sent == old(sent) + trades
      ensures nextSequence == if trades == [] then old(nextSequence) else trades[|trades| - 1].header.sequence + 1
    {
      var i := 0;
      while i < |trades|
        invariant 0 <= i <= |trades|
        invariant sent == old(sent) + trades[..i]
        invariant nextSequence == if i == 0 then old(nextSequence) else trades[i - 1].header.sequence + 1
      {
        nextSequence := trades[i].header.sequence + 1;
        SendExecution(trades[i]);
        assert trades[..i + 1] == trades[..i] + [trades[i]];
        i := i + 1;
      }
      assert trades[..i] == trades;
    }

    /** checkTimeInForce: an IOC or FOK order with quantity left
        (`remaining`, the order record's quantity as read after matching)
        is cancelled; the answer says whether the order goes on (GTC). */
    method CheckTimeInForce(o: Order, remaining: nat) returns (continues: bool)
      requires Valid()
      modifies book
      ensures Valid()
      ensures continues <==> o.tif == GTC
      ensures (o.tif == GTC || remaining == 0) ==> unchanged(book)
      ensures o.tif != GTC && remaining > 0 ==>
        if o.orderId in old(book.lookup) && old(book.lookup)[o.orderId].participantId == o.participantId
        then book.lookup == old(book.lookup) - {o.orderId}
        else unchanged(book)
      ensures var cancels := o.tif != GTC && remaining > 0;
        && book.State() == (if cancels then Withdraw(old(book.State()), o.orderId, o.participantId) else old(book.State()))
        && book.stopsBuy == (if cancels then WithdrawStops(old(book.stopsBuy), Buy, old(book.lookup), o.orderId, o.participantId) else old(book.stopsBuy))
        && book.stopsSell == (if cancels then WithdrawStops(old(book.stopsSell), Sell, old(book.lookup), o.orderId, o.participantId) else old(book.stopsSell))
    {
      if o.tif == FOK {
        if remaining > 0 {
          var _ := book.CancelOrder(o.orderId, o.participantId);
        }
        return false;
      } else if o.tif == IOC {
        if remaining > 0 {
          var _ := book.CancelOrder(o.orderId, o.participantId);
        }
        return false;
      }
      return true;
    }

    /** handleMarketOrder: the order enters the lookup only, the book is
        matched, and whatever quantity is left is cancelled. */
    method HandleMarketOrder(o: Order, now: nat) returns (trades: seq<ExecutionMessage>)
      requires Valid() && o.orderType == Market && o.quantity > 0
      modifies book
      ensures Valid()
      ensures Numbered(trades, nextSequence, now)
      ensures o.orderId !in old(book.lookup) ==> o.orderId !in book.lookup
      ensures o.orderId in book.lookup ==> book.lookup[o.orderId].participantId != o.participantId
      ensures SidesValid(Admit(old(book.State()), o))
      ensures var m := MatchAll(Admit(old(book.State()), o), nextSequence, now);
        var added := o.orderId !in old(book.lookup);
        && trades == m.1
        && book.State() == Leftover(m.0, o, added)
        && book.stopsBuy == LeftoverStops(AdmitStops(old(book.stopsBuy), Buy, old(book.lookup), o), Buy, m.0, o, added)
        && book.stopsSell == LeftoverStops(AdmitStops(old(book.stopsSell), Sell, old(book.lookup), o), Sell, m.0, o, added)
    {
      var remaining;
      trades, remaining := EnterAndMatch(o, now);
      if remaining > 0 {
        var _ := book.CancelOrder(o.orderId, o.participantId);
      }
    }

    /** handleIocFok: the order enters the book, the book is matched, and
        checkTimeInForce cancels what is left of it. */
    method HandleIocFok(o: Order, now: nat) returns (trades: seq<ExecutionMessage>)
      requires Valid() && o.tif != GTC && o.quantity > 0
      modifies book
      ensures Valid()
      ensures Numbered(trades, nextSequence, now)
      ensures o.orderId !in old(book.lookup) ==> o.orderId !in book.lookup
      ensures SidesValid(Admit(old(book.State()), o))
      ensures var m := MatchAll(Admit(old(book.State()), o), nextSequence, now);
        var added := o.orderId !in old(book.lookup);
        && trades == m.1
        && book.State() == Leftover(m.0, o, added)
        && book.stopsBuy == LeftoverStops(AdmitStops(old(book.stopsBuy), Buy, old(book.lookup), o), Buy, m.0, o, added)
        && book.stopsSell == LeftoverStops(AdmitStops(old(book.stopsSell), Sell, old(book.lookup), o), Sell, m.0, o, added)
    {
      var remaining;
      trades, remaining := EnterAndMatch(o, now);
      var _ := CheckTimeInForce(o, remaining);
    }

    /** The common start of handleMarketOrder and handleIocFok: addOrder,
        then matchBook, then the order's quantity as the engine reads it. A
        new order still in the lookup keeps its owner and has quantity left;
        a refused one reads its own quantity. */
    method EnterAndMatch(o: Order, now: nat) returns (trades: seq<ExecutionMessage>, remaining: nat)
      requires Valid() && o.quantity > 0
      modifies book
      ensures Valid()
      ensures Numbered(trades, nextSequence, now)
      ensures o.orderId in old(book.lookup) ==> remaining == o.quantity
      ensures o.orderId !in old(book.lookup) && o.orderId in book.lookup ==>
        book.lookup[o.orderId].participantId == o.participantId && remaining == book.lookup[o.orderId].quantity > 0
      ensures SidesValid(Admit(old(book.State()), o))
      ensures (book.State(), trades) == MatchAll(Admit(old(book.State()), o), nextSequence, now)
      ensures remaining == Remaining(o, o.orderId !in old(book.lookup), book.lookup)
      ensures book.stopsBuy == AdmitStops(old(book.stopsBuy), Buy, old(book.lookup), o)
      ensures book.stopsSell == AdmitStops(old(book.stopsSell), Sell, old(book.lookup), o)
    {
      var added := book.AddOrder(o);
      ghost var st := book.State();
      trades := book.MatchBook(nextSequence, now);
      MatchSequences(st, nextSequence, now);
      MatchSettles(st, nextSequence, now);
      remaining := Remaining(o, added, book.lookup);
    }

    /** processAdd: validation, then the market, IOC/FOK or GTC path;
        every execution is published with consecutive sequence numbers. */
    method ProcessAdd(msg: AddMessage, now: nat, breach: bool) returns (ok: bool, ghost entered: Order)
      requires Valid()
      modifies this`nextSequence, this`sent, book, configs
      ensures Valid()
      ensures configs.configs == ConfigsAfterAdd(old(configs.configs), msg, breach)
      ensures !AddAccepted(old(configs.configs), msg, breach) ==>
        !ok && unchanged(book) && sent == old(sent) && nextSequence == old(nextSequence)
      ensures AddAccepted(old(configs.configs), msg, breach) ==>
        (ok <==> msg.orderType == Market || msg.tif != GTC || msg.orderId !in old(book.lookup))
      ensures AddAccepted(old(configs.configs), msg, breach) && msg.orderId !in old(book.lookup) ==>
        (msg.orderType == Market || msg.tif != GTC ==> msg.orderId !in book.lookup)
      ensures ok && msg.orderType == StopLoss && msg.tif == GTC ==>
        msg.orderId in book.lookup && StopEntry(msg.triggerPrice, msg.orderId) in (if msg.side == Buy then book.stopsBuy else book.stopsSell)
      ensures Published(old(sent), sent, old(nextSequence), nextSequence, now)
      ensures AddAccepted(old(configs.configs), msg, breach) ==> AddedBy(this, msg, now, entered)
    {
      entered := Order(msg.orderId, msg.side, msg.symbol, msg.price, msg.quantity, now, msg.participantId,
                       msg.tif, msg.orderType, msg.triggerPrice, msg.visibleQuantity, msg.quantity);
      ok := ValidateAdd(msg, breach);
      if !ok {
        PublishedNone(sent, nextSequence, now);
        return;
      }
      AcceptedHasLiveConfig(old(configs.configs), msg, breach);
      var found, cfg := configs.GetConfig(msg.symbol, SymbolConfig(0, 0, 0, 0, 0, 0, false));
      if !found || cfg.tradingHalted {
        assert false;
        return;
      }
      var o := NewOrder(msg.orderId, msg.side, msg.symbol, msg.price, msg.quantity, now,
                        msg.participantId, msg.tif, msg.orderType, msg.triggerPrice, msg.visibleQuantity);
      entered := o;
      ok := Route(o, now);
    }

    /** The three paths of processAdd for a validated order. */
    method Route(o: Order, now: nat) returns (ok: bool)
      requires Valid() && o.quantity > 0
      modifies this`nextSequence, this`sent, book
      ensures Valid()
      ensures ok <==> o.orderType == Market || o.tif != GTC || o.orderId !in old(book.lookup)
      ensures o.orderId !in old(book.lookup) && (o.orderType == Market || o.tif != GTC) ==> o.orderId !in book.lookup
      ensures ok && o.orderType == StopLoss && o.tif == GTC ==>
        o.orderId in book.lookup && StopEntry(o.triggerPrice, o.orderId) in (if o.side == Buy then book.stopsBuy else book.stopsSell)
      ensures Published(old(sent), sent, old(nextSequence), nextSequence, now)
      ensures SidesValid(Admit(old(book.State()), o))
      ensures (book.State(), sent[|old(sent)|..]) == Routed(old(book.State()), o, old(nextSequence), now)
      ensures book.stopsBuy == RoutedStops(old(book.stopsBuy), Buy, old(book.State()), o, old(nextSequence), now)
      ensures book.stopsSell == RoutedStops(old(book.stopsSell), Sell, old(book.State()), o, old(nextSequence), now)
      ensures o.orderType != Market && o.tif == GTC && o.orderId in old(book.lookup) ==> unchanged(book)
    {
      if o.orderType == Market || o.tif != GTC {
        var trades;
        if o.orderType == Market {
          trades := HandleMarketOrder(o, now);
        } else {
          trades := HandleIocFok(o, now);
        }
        PublishNumbered(trades, now);
        ok := true;
      } else {
        ok := RestAndMatch(o, now);
      }
    }

    /** The GTC path of processAdd: addOrder, and for a limit or iceberg
        order a matching run, published. A known id changes nothing. */
    method RestAndMatch(o: Order, now: nat) returns (ok: bool)
      requires Valid() && o.orderType != Market && o.tif == GTC
      modifies this`nextSequence, this`sent, book
      ensures Valid()
      ensures ok <==> o.orderId !in old(book.lookup)
      ensures ok && o.orderType == StopLoss ==>
        o.orderId in book.lookup && StopEntry(o.triggerPrice, o.orderId) in (if o.side == Buy then book.stopsBuy else book.stopsSell)
      ensures Published(old(sent), sent, old(nextSequence), nextSequence, now)
      ensures SidesValid(Admit(old(book.State()), o))
      ensures (book.State(), sent[|old(sent)|..]) ==
        if !ok then (old(book.State()), [])
        else if Rests(o.orderType) then MatchAll(Admit(old(book.State()), o), old(nextSequence), now)
        else (Admit(old(book.State()), o), [])
      ensures book.stopsBuy == AdmitStops(old(book.stopsBuy), Buy, old(book.lookup), o)
      ensures book.stopsSell == AdmitStops(old(book.stopsSell), Sell, old(book.lookup), o)
      ensures !ok ==> unchanged(book)
    {
      var added := book.AddOrder(o);
      if !added {
        PublishedNone(sent, nextSequence, now);
        assert sent[|sent|..] == [];
        return false;
      }
      ok := true;
      if o.orderType == Limit || o.orderType == Iceberg {
        MatchAndPublish(now);
      } else {
        PublishedNone(sent, nextSequence, now);
        assert sent[|sent|..] == [];
      }
    }

    /** Publish, with the numbering of the run it publishes carried over to
        the log of sent executions. */
    method PublishNumbered(trades: seq<ExecutionMessage>, now: nat)
      requires Numbered(trades, nextSequence, now)
      modifies this`nextSequence, this`sent
      ensures sent == old(sent) + trades
      ensures Published(old(sent), sent, old(nextSequence), nextSequence, now)
    {
      Publish(trades);
      if trades != [] {
        NumberedLast(trades, old(nextSequence), now);
      }
      assert sent[|old(sent)|..] == trades;
    }

    /** processCancel: a cancel with order id 0 is refused; otherwise the
        book cancels it when the participant owns the order. */
    method ProcessCancel(msg: CancelMessage) returns (ok: bool)
      requires Valid()
      modifies book
      ensures Valid()
      ensures ok <==> ValidateCancel(msg) && msg.orderId in old(book.lookup)
                      && old(book.lookup)[msg.orderId].participantId == msg.participantId
      ensures !ok ==> unchanged(book)
      ensures ok ==> book.lookup == old(book.lookup) - {msg.orderId}
      ensures ValidateCancel(msg) ==>
        && book.State() == Withdraw(old(book.State()), msg.orderId, msg.participantId)
        && book.stopsBuy == WithdrawStops(old(book.stopsBuy), Buy, old(book.lookup), msg.orderId, msg.participantId)
        && book.stopsSell == WithdrawStops(old(book.stopsSell), Sell, old(book.lookup), msg.orderId, msg.participantId)
    {
      if !ValidateCancel(msg) {
        return false;
      }
      ok := book.CancelOrder(msg.orderId, msg.participantId);
    }

    /** processCancelReplace: validation against the engine's symbol, the
        book's modifyOrder, and a matching run only when that succeeded. */
    method ProcessCancelReplace(msg: CancelReplaceMessage, now: nat) returns (ok: bool)
      requires Valid()
      modifies this`nextSequence, this`sent, book
      ensures Valid()
      ensures ok <==> ValidateCancelReplace(configs.configs, symbol, msg) && msg.orderId in old(book.lookup)
                      && old(book.lookup)[msg.orderId].participantId == msg.participantId
                      && Rests(old(book.lookup)[msg.orderId].orderType)
      ensures !ok ==> unchanged(book) && sent == old(sent) && nextSequence == old(nextSequence)
      ensures Published(old(sent), sent, old(nextSequence), nextSequence, now)
      ensures ok ==> var modified := Remodel(old(book.State()), msg.orderId, msg.newPrice, msg.newQuantity, msg.participantId);
        && SidesValid(modified)
        && (book.State(), sent[|old(sent)|..]) == MatchAll(modified, old(nextSequence), now)
      ensures book.stopsBuy == old(book.stopsBuy) && book.stopsSell == old(book.stopsSell)
    {
      if !ValidateCancelReplace(configs.configs, symbol, msg) {
        return false;
      }
      ok := book.ModifyOrder(msg.orderId, msg.newPrice, msg.newQuantity, msg.participantId);
      if ok {
        MatchAndPublish(now);
      } else {
        PublishedNone(sent, nextSequence, now);
      }
    }

    /** matchBook from the next sequence number, then every execution
        published in order. */
    method MatchAndPublish(now: nat)
      requires Valid()
      modifies this`nextSequence, this`sent, book
      ensures Valid()
      ensures Published(old(sent), sent, old(nextSequence), nextSequence, now)
      ensures (book.State(), sent[|old(sent)|..]) == MatchAll(old(book.State()), old(nextSequence), now)
      ensures book.stopsBuy == old(book.stopsBuy) && book.stopsSell == old(book.stopsSell)
    {
      ghost var st := book.State();
      var trades := book.MatchBook(nextSequence, now);
      MatchSequences(st, nextSequence, now);
      PublishNumbered(trades, now);
    }
  }
}
