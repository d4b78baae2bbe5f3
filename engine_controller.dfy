/** The per-symbol router (src/EngineController.cpp): one matching engine
    per symbol, a shared config table, and the order-id-to-symbol map that
    sends cancels and cancel-replaces to the engine that accepted the
    order. Locking is left out; every call runs on its own. */
module Controller {
  import opened Messages
  import opened ServerOrder
  import opened SymbolConfigs
  import opened BookSpec
  import opened Book
  import opened Engine

  class EngineController {
    const configs: SymbolConfigManager
    var engines: map<string, MatchingEngine>
    /** Symbol of every order an engine accepted; entries are never
        erased. */
    var orderSymbols: map<OrderId, string>
    /** The engines and their books. */
    ghost var Repr: set<object>

    ghost predicate Valid()
      reads this, Repr
    {
      && (forall s :: s in engines ==> engines[s] in Repr && engines[s].book in Repr)
      && (forall s :: s in engines ==>
            engines[s].symbol == s && engines[s].configs == configs && engines[s].Valid())
      && (forall s, t :: s in engines && t in engines && s != t ==>
            engines[s] != engines[t] && engines[s].book != engines[t].book)
    }

    constructor (configs: SymbolConfigManager)
      ensures Valid()
      ensures this.configs == configs && engines == map[] && orderSymbols == map[]
    {
      this.configs := configs;
      engines := map[];
      orderSymbols := map[];
      Repr := {};
    }

    /** addEngineForSymbol: a symbol seen before is left alone; a new one
        gets a running config with the given values and a fresh engine. */
    method AddEngineForSymbol(symbol: string, tickSize: int, minQty: nat, minP: int, maxP: int,
                              volThreshold: int, refPrice: int)
      requires Valid()
      modifies this, configs
      ensures Valid()
      ensures orderSymbols == old(orderSymbols)
      ensures symbol in old(engines) ==> engines == old(engines) && configs.configs == old(configs.configs)
      ensures symbol !in old(engines) ==>
        && configs.configs == old(configs.configs)[symbol := SymbolConfig(tickSize, minQty, minP, maxP, volThreshold, refPrice, false)]
        && engines.Keys == old(engines.Keys) + {symbol}
        && (forall s :: s in old(engines) ==> engines[s] == old(engines[s]))
        && fresh(engines[symbol]) && fresh(engines[symbol].book)
        && engines[symbol].book.lookup == map[] && engines[symbol].nextSequence == 1
    {
      if symbol in engines {
        return;
      }
      configs.SetConfig(symbol, SymbolConfig(tickSize, minQty, minP, maxP, volThreshold, refPrice, false));
      var engine := new MatchingEngine(symbol, configs);
      Register(symbol, engine);
    }

    /** engines[symbol] = engine, for an engine built on the shared
        configs and sharing no object with the engines already held. */
    method Register(symbol: string, engine: MatchingEngine)
      requires Valid() && symbol !in engines
      requires engine.symbol == symbol && engine.configs == configs && engine.Valid()
      requires engine !in Repr && engine.book !in Repr
      modifies this`engines, this`Repr
      ensures Valid()
      ensures engines == old(engines)[symbol := engine]
    {
      engines := engines[symbol := engine];
      Repr := Repr + {engine, engine.book};
    }

    /** recordOrderSymbol: insert or overwrite one entry. */
    method RecordOrderSymbol(orderId: OrderId, symbol: string)
      modifies this`orderSymbols
      ensures orderSymbols == old(orderSymbols)[orderId := symbol]
    {
      orderSymbols := orderSymbols[orderId := symbol];
    }

    /** findOrderSymbol: true with the stored symbol exactly when the id
        was recorded; `previous` stands for the caller's out-variable,
        which a miss leaves as it was. */
    method FindOrderSymbol(orderId: OrderId, previous: string) returns (found: bool, symbol: string)
      ensures found <==> orderId in orderSymbols
      ensures found ==> symbol == orderSymbols[orderId]
      ensures !found ==> symbol == previous
    {
      if orderId !in orderSymbols {
        return false, previous;
      }
      return true, orderSymbols[orderId];
    }

    /** dispatchAdd: the engine for the message's symbol processes the add
        (`now` and `breach` are its clock and its volatility verdict), and
        the order's symbol is recorded when it accepts. */
    method DispatchAdd(msg: AddMessage, now: nat, breach: bool) returns (ok: bool, ghost entered: Order)
      requires Valid()
      modifies this`orderSymbols, configs
      modifies if msg.symbol in engines then {engines[msg.symbol], engines[msg.symbol].book} else {}
      ensures Valid()
      ensures msg.symbol !in engines ==> !ok && configs.configs == old(configs.configs)
      ensures msg.symbol in engines ==> configs.configs == ConfigsAfterAdd(old(configs.configs), msg, breach)
      ensures msg.symbol in engines ==>
        (ok <==> AddAccepted(old(configs.configs), msg, breach)
                 && (msg.orderType == Market || msg.tif != GTC || msg.orderId !in old(engines[msg.symbol].book.lookup)))
      ensures orderSymbols == if ok then old(orderSymbols)[msg.orderId := msg.symbol] else old(orderSymbols)
      ensures msg.symbol in engines && AddAccepted(old(configs.configs), msg, breach) ==>
        AddedBy(old(engines[msg.symbol]), msg, now, entered)
    {
      if msg.symbol !in engines {
        return false, Order(msg.orderId, msg.side, msg.symbol, msg.price, msg.quantity, now, msg.participantId,
                            msg.tif, msg.orderType, msg.triggerPrice, msg.visibleQuantity, msg.quantity);
      }
      ok, entered := ForwardAdd(msg, now, breach);
      if ok {
        RecordOrderSymbol(msg.orderId, msg.symbol);
      }
    }

    /** The engine of the message's symbol processes the add. */
    method ForwardAdd(msg: AddMessage, now: nat, breach: bool) returns (ok: bool, ghost entered: Order)
      requires Valid() && msg.symbol in engines
      modifies configs, engines[msg.symbol], engines[msg.symbol].book
      ensures Valid()
      ensures configs.configs == ConfigsAfterAdd(old(configs.configs), msg, breach)
      ensures ok <==> AddAccepted(old(configs.configs), msg, breach)
                      && (msg.orderType == Market || msg.tif != GTC || msg.orderId !in old(engines[msg.symbol].book.lookup))
      ensures AddAccepted(old(configs.configs), msg, breach) ==> AddedBy(engines[msg.symbol], msg, now, entered)
    {
      ok, entered := engines[msg.symbol].ProcessAdd(msg, now, breach);
    }

    /** dispatchCancel: an id that no engine accepted is refused without
        calling any engine; otherwise the engine of its recorded symbol
        processes the cancel. */
    method DispatchCancel(msg: CancelMessage) returns (ok: bool)
      requires Valid()
      modifies if msg.orderId in orderSymbols && orderSymbols[msg.orderId] in engines
               then {engines[orderSymbols[msg.orderId]].book} else {}
      ensures Valid()
      ensures msg.orderId !in orderSymbols ==> !ok
      ensures ok <==> msg.orderId in orderSymbols && orderSymbols[msg.orderId] in engines
                      && ValidateCancel(msg)
                      && msg.orderId in old(engines[orderSymbols[msg.orderId]].book.lookup)
                      && old(engines[orderSymbols[msg.orderId]].book.lookup)[msg.orderId].participantId == msg.participantId
      ensures ok ==> var book := engines[orderSymbols[msg.orderId]].book;
        book.lookup == old(book.lookup) - {msg.orderId}
      ensures msg.orderId in orderSymbols && orderSymbols[msg.orderId] in engines && ValidateCancel(msg) ==>
        var book := engines[orderSymbols[msg.orderId]].book;
        && book.State() == Withdraw(old(book.State()), msg.orderId, msg.participantId)
        && book.stopsBuy == WithdrawStops(old(book.stopsBuy), Buy, old(book.lookup), msg.orderId, msg.participantId)
        && book.stopsSell == WithdrawStops(old(book.stopsSell), Sell, old(book.lookup), msg.orderId, msg.participantId)
    {
      var found, sym := FindOrderSymbol(msg.orderId, "");
      if !found {
        return false;
      }
      if sym !in engines {
        return false;
      }
      ok := engines[sym].ProcessCancel(msg);
    }

    /** dispatchCancelReplace: routed like a cancel, processed by the
        engine of the order's recorded symbol. */
    method DispatchCancelReplace(msg: CancelReplaceMessage, now: nat) returns (ok: bool)
      requires Valid()
      modifies if msg.orderId in orderSymbols && orderSymbols[msg.orderId] in engines
               then {engines[orderSymbols[msg.orderId]], engines[orderSymbols[msg.orderId]].book} else {}
      ensures Valid()
      ensures msg.orderId !in orderSymbols ==> !ok
      ensures ok <==> msg.orderId in orderSymbols && orderSymbols[msg.orderId] in engines
                      && ValidateCancelReplace(configs.configs, orderSymbols[msg.orderId], msg)
                      && msg.orderId in old(engines[orderSymbols[msg.orderId]].book.lookup)
                      && old(engines[orderSymbols[msg.orderId]].book.lookup)[msg.orderId].participantId == msg.participantId
                      && Rests(old(engines[orderSymbols[msg.orderId]].book.lookup)[msg.orderId].orderType)
      ensures msg.orderId in orderSymbols && orderSymbols[msg.orderId] in engines ==>
        ReplacedBy(old(engines[orderSymbols[msg.orderId]]), msg, now, ok)
    {
      var found, sym := FindOrderSymbol(msg.orderId, "");
      if !found {
        return false;
      }
      if sym !in engines {
        return false;
      }
      ok := engines[sym].ProcessCancelReplace(msg, now);
    }

    /** getTopOfBook: the best bid and ask of the symbol's engine, or
        `found == false` where the source throws for an unknown symbol. */
    method GetTopOfBook(symbol: string) returns (found: bool, bestBid: int, bestAsk: int)
      requires Valid()
      ensures found <==> symbol in engines
      ensures found ==> var book := engines[symbol].book;
        && (book.bids == map[] ==> bestBid == 0)
        && (book.bids != map[] ==> bestBid in book.bids && forall p :: p in book.bids ==> p <= bestBid)
        && (book.asks == map[] ==> bestAsk == 0)
        && (book.asks != map[] ==> bestAsk in book.asks && forall p :: p in book.asks ==> bestAsk <= p)
    {
      if symbol !in engines {
        return false, 0, 0;
      }
      found := true;
      bestBid, bestAsk := engines[symbol].book.GetTopOfBook();
    }
  }
}
