/** The client session (client/client.py). Each request writes one line,
    built by the client/util.py builders, to the socket, and then acts on
    the server's reply by looking for an acknowledgement token in it. The
    socket is the `socket` state and the `sent` list of written lines; the
    reply read back and the clock reading are parameters. */
module ClientApp {
  import opened Text
  import opened ClientUtil
  import opened ClientOrders

  /** `self.sock`: never created, open, or closed. `close()` does not
      reset the attribute, so a closed socket still counts as present. */
  datatype SocketState = NoSocket | Open | Closed

  /** The status a reply moves an order to: `target` when the reply holds
      the acknowledgement token, otherwise the status it had. */
  function AfterReply(status: string, reply: string, token: string, target: string): string
  {
    if Contains(reply, token) then target else status
  }

  class Client {
    const manager: OrderManager
    var socket: SocketState
    /** The lines written to the socket, oldest first. */
    var sent: seq<string>

    constructor (manager: OrderManager)
      ensures this.manager == manager && socket == NoSocket && sent == []
    {
      this.manager := manager;
      socket := NoSocket;
      sent := [];
    }

    /** connect: a new socket, connected. A refused connection raises in
        Python and is not modelled. */
    method Connect()
      modifies this`socket
      ensures socket == Open
    {
      socket := Open;
    }

    /** disconnect: when a socket was ever created, closes it and saves the
        store; the saved records reload to the same orders. Without a
        socket nothing happens. */
    method Disconnect() returns (saved: Option<seq<Record>>)
      requires manager.Valid()
      modifies this`socket
      ensures socket == if old(socket) == NoSocket then NoSocket else Closed
      ensures saved.Some? <==> old(socket) != NoSocket
      ensures saved.Some? ==> Lists(saved.value, manager.ids, manager.Snapshot())
      ensures saved.Some? ==> Rekey(saved.value) == Some(manager.Snapshot())
    {
      if socket == NoSocket {
        return None;
      }
      socket := Closed;
      var records := manager.SaveOrders();
      SaveLoadRoundTrip(records, manager.ids, manager.Snapshot());
      return Some(records);
    }

    /** send_and_receive: the line is written; `reply` is what the server
        answers. */
    method Send(line: string)
      requires socket == Open
      modifies this`sent
      ensures sent == old(sent) + [line]
    {
      sent := sent + [line];
    }

    /** add_order: sends the ADD line, then marks the order already stored
        under that id ACKED when the reply holds "ADD_ACK", and only then
        stores the new order. A first-time order therefore stays as it was
        whatever the reply, and the object stored before, if another, is
        replaced after being marked. */
    method AddOrder(o: Order, reply: string, timestamp: int)
      requires socket == Open && manager.Valid()
      modifies this`sent, manager
      modifies if o.orderId in manager.orders then {manager.orders[o.orderId]} else {}
      ensures sent == old(sent) + [BuildAddOrderMessage(o.orderId, o.symbol, o.price, o.quantity,
                                                        o.side, o.orderType, o.tif, timestamp)]
      ensures manager.Valid()
      ensures manager.orders == old(manager.orders)[o.orderId := o]
      ensures manager.GetOrder(o.orderId) == o
      ensures o.orderId !in old(manager.orders) ==> o.status == old(o.status)
      ensures o.orderId in old(manager.orders) ==>
        old(manager.orders[o.orderId]).status == AfterReply(old(manager.orders[o.orderId].status), reply, "ADD_ACK", "ACKED")
      ensures o.orderId in old(manager.orders) && old(manager.orders[o.orderId]) != o ==> o.status == old(o.status)
      ensures manager.Snapshot() == old(manager.Snapshot())[o.orderId := o.Data()]
    {
      Send(BuildAddOrderMessage(o.orderId, o.symbol, o.price, o.quantity, o.side, o.orderType, o.tif, timestamp));
      if Contains(reply, "ADD_ACK") {
        manager.UpdateOrderStatus(o.orderId, "ACKED");
      }
      manager.AddOrder(o);
    }

    /** cancel_order: sends the CANCEL line and marks the stored order
        CANCELED exactly when the reply holds "CANCEL_ACK", whatever its
        status was. */
    method CancelOrder(orderId: int, participantId: int, reply: string, timestamp: int)
      requires socket == Open && manager.Valid()
      modifies this`sent
      modifies if orderId in manager.orders then {manager.orders[orderId]} else {}
      ensures sent == old(sent) + [BuildCancelOrderMessage(orderId, participantId, timestamp)]
      ensures manager.Valid() && manager.orders == old(manager.orders)
      ensures manager.Snapshot() ==
        if orderId in manager.orders
        then old(manager.Snapshot())[orderId := old(manager.Snapshot())[orderId].(
               status := AfterReply(old(manager.Snapshot())[orderId].status, reply, "CANCEL_ACK", "CANCELED"))]
        else old(manager.Snapshot())
    {
      Send(BuildCancelOrderMessage(orderId, participantId, timestamp));
      if Contains(reply, "CANCEL_ACK") {
        manager.UpdateOrderStatus(orderId, "CANCELED");
      }
    }

    /** cancel_replace_order: sends the CANCEL_REPLACE line and marks the
        stored order REPLACED exactly when the reply holds
        "CANCEL_REPLACE_ACK", whatever its status was; its price and
        quantity stay those it was created with. */
    method CancelReplaceOrder(orderId: int, newPrice: int, newQuantity: int, participantId: int,
                              reply: string, timestamp: int)
      requires socket == Open && manager.Valid()
      modifies this`sent
      modifies if orderId in manager.orders then {manager.orders[orderId]} else {}
      ensures sent == old(sent) + [BuildCancelReplaceMessage(orderId, newPrice, newQuantity, participantId, timestamp)]
      ensures manager.Valid() && manager.orders == old(manager.orders)
      ensures manager.Snapshot() ==
        if orderId in manager.orders
        then old(manager.Snapshot())[orderId := old(manager.Snapshot())[orderId].(
               status := AfterReply(old(manager.Snapshot())[orderId].status, reply, "CANCEL_REPLACE_ACK", "REPLACED"))]
        else old(manager.Snapshot())
    {
      Send(BuildCancelReplaceMessage(orderId, newPrice, newQuantity, participantId, timestamp));
      if Contains(reply, "CANCEL_REPLACE_ACK") {
        manager.UpdateOrderStatus(orderId, "REPLACED");
      }
    }

    /** request_snapshot: sends the SNAPSHOT_REQUEST line and hands back
        the reply; the store is not touched. */
    method RequestSnapshot(sequence: int, symbol: string, reply: string, timestamp: int) returns (r: string)
      requires socket == Open
      modifies this`sent
      ensures sent == old(sent) + [BuildSnapshotRequestMessage(sequence, symbol, timestamp)]
      ensures r == reply
    {
      Send(BuildSnapshotRequestMessage(sequence, symbol, timestamp));
      r := reply;
    }
  }

  /** The server's replies to an add (src/Session.cpp): the
      acknowledgement holds "ADD_ACK", the rejection does not. */
  lemma AddReplies()
    ensures Contains("ADD_ACK\n", "ADD_ACK") && !Contains("ADD_NACK\n", "ADD_ACK")
  {
    Present("ADD_ACK\n", "ADD_ACK");
    var a := "ADD_NACK\n";
    forall i | 0 <= i <= |a| - 7 ensures !OccursAt(a, "ADD_ACK", i) {
      assert a[i..i + 7][4] != 'A' || a[i..i + 7][0] != 'A';
    }
    Absent(a, "ADD_ACK");
  }

  /** The replies to a cancel and a cancel-replace as seen by
      cancel_order: only the cancel acknowledgement holds "CANCEL_ACK". */
  lemma CancelReplies()
    ensures Contains("CANCEL_ACK\n", "CANCEL_ACK") && !Contains("CANCEL_NACK\n", "CANCEL_ACK")
    ensures !Contains("CANCEL_REPLACE_ACK\n", "CANCEL_ACK") && !Contains("CANCEL_REPLACE_NACK\n", "CANCEL_ACK")
  {
    Present("CANCEL_ACK\n", "CANCEL_ACK");
    var c := "CANCEL_NACK\n";
    forall i | 0 <= i <= |c| - 10 ensures !OccursAt(c, "CANCEL_ACK", i) {
      assert c[i..i + 10][7] != 'A' || c[i..i + 10][0] != 'C';
    }
    Absent(c, "CANCEL_ACK");
    ReplaceRepliesLackCancelToken("CANCEL_REPLACE_ACK\n");
    ReplaceRepliesLackCancelToken("CANCEL_REPLACE_NACK\n");
  }

  lemma ReplaceRepliesLackCancelToken(r: string)
    requires r == "CANCEL_REPLACE_ACK\n" || r == "CANCEL_REPLACE_NACK\n"
    ensures !Contains(r, "CANCEL_ACK")
  {
    var t := "CANCEL_ACK";
    forall i | 0 <= i <= |r| - 10 ensures !OccursAt(r, t, i) {
      if i == 0 { Mismatch(r, t, 0, 7); }
      else if i == 1 { Mismatch(r, t, 1, 0); }
      else if i == 2 { Mismatch(r, t, 2, 0); }
      else if i == 3 { Mismatch(r, t, 3, 6); }
      else if i == 4 { Mismatch(r, t, 4, 0); }
      else if i == 5 { Mismatch(r, t, 5, 0); }
      else if i == 6 { Mismatch(r, t, 6, 0); }
      else if i == 7 { Mismatch(r, t, 7, 0); }
      else if i == 8 { Mismatch(r, t, 8, 0); }
      else if i == 9 { Mismatch(r, t, 9, 0); }
      else { Mismatch(r, t, 10, 0); }
    }
    Absent(r, t);
  }

  /** A window whose k-th character differs from the token's is not the
      token. */
  lemma Mismatch(text: string, token: string, i: nat, k: nat)
    requires i + |token| <= |text| && k < |token| && text[i + k] != token[k]
    ensures !OccursAt(text, token, i)
  {
    assert text[i..i + |token|][k] == text[i + k];
  }

  /** The replies to a cancel-replace: the acknowledgement holds
      "CANCEL_REPLACE_ACK", the rejection does not. */
  lemma CancelReplaceReplies()
    ensures Contains("CANCEL_REPLACE_ACK\n", "CANCEL_REPLACE_ACK")
    ensures !Contains("CANCEL_REPLACE_NACK\n", "CANCEL_REPLACE_ACK")
  {
    Present("CANCEL_REPLACE_ACK\n", "CANCEL_REPLACE_ACK");
    var n := "CANCEL_REPLACE_NACK\n";
    forall i | 0 <= i <= |n| - 18 ensures !OccursAt(n, "CANCEL_REPLACE_ACK", i) {
      assert n[i..i + 18][15] != 'A' || n[i..i + 18][0] != 'C';
    }
    Absent(n, "CANCEL_REPLACE_ACK");
  }

  /** The token at the start of a reply is found. */
  lemma Present(reply: string, token: string)
    requires StartsWith(reply, token)
    ensures Contains(reply, token)
  {
    ContainsIff(reply, token);
    assert OccursAt(reply, token, 0);
  }

  /** No status guards a transition: an acknowledged reply moves every
      order to the same target, whatever status it had, so a CANCELED
      order is revived by a late add or cancel-replace acknowledgement. */
  lemma NoTransitionGuard(s1: string, s2: string, reply: string, token: string, target: string)
    requires Contains(reply, token)
    ensures AfterReply(s1, reply, token, target) == AfterReply(s2, reply, token, target)
    ensures AfterReply("CANCELED", "CANCEL_REPLACE_ACK\n", "CANCEL_REPLACE_ACK", "REPLACED") == "REPLACED"
    ensures AfterReply("CANCELED", "ADD_ACK\n", "ADD_ACK", "ACKED") == "ACKED"
  {
    Present("CANCEL_REPLACE_ACK\n", "CANCEL_REPLACE_ACK");
    Present("ADD_ACK\n", "ADD_ACK");
  }
}
