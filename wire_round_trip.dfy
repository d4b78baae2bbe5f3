/** What the server's parser reads back from the lines the client builds
    (client/util.py against src/MessageParser.cpp), for ids, quantities
    and timestamps that fit in 64 bits and text fields free of '|' and
    '\n'. */
module WireRoundTrip {
  import opened Text
  import opened Messages
  import opened MessageParsing
  import opened ClientUtil

  predicate Plain(s: string) { '|' !in s && '\n' !in s }

  lemma U64Field(n: int)
    requires 0 <= n < U64Limit
    ensures ParseU64(IntToDecimal(n)) == Some(n)
  {
    ParseU64RoundTrip(n);
  }

  /** The line of a builder, followed by anything, is read back as that
      line, leaving what followed. */
  lemma LineReadBack(parts: seq<string>, rest: string)
    requires |parts| >= 1 && Free(parts, '\n') && NoSeparator(parts)
    ensures var b := Join(parts) + "\n" + rest;
      HasLine(b) && Split(FirstLine(b)) == parts && AfterLine(b) == rest
  {
    JoinFree(parts, '\n');
    LineOfPrefix(Join(parts), rest);
    JoinSplit(parts);
  }

  /** An ADD line decodes to the order it was built from: sequence number,
      order id and participant are all the order id, the trigger is 0,
      the visible quantity is the quantity. */
  lemma AddRoundTrip(orderId: int, symbol: string, price: int, quantity: int, side: string,
                     orderType: string, tif: string, timestamp: int, rest: string)
    requires 0 <= orderId < U64Limit && 0 <= quantity < U64Limit && 0 <= timestamp < U64Limit
    requires Plain(symbol) && Plain(side) && Plain(orderType) && Plain(tif)
    ensures var b := BuildAddOrderMessage(orderId, symbol, price, quantity, side, orderType, tif, timestamp) + rest;
      && HasLine(b) && AfterLine(b) == rest
      && DecodeHeader(FirstLine(b)) == Parsed(MessageHeader(Add, orderId, timestamp))
      && AddFromLine(FirstLine(b)) == Parsed(AddMessage(
           MessageHeader(Add, orderId, timestamp), orderId, symbol, price, quantity,
           if side == "BUY" then Buy else Sell, TifOf(tif, GTC), OrderTypeOf(orderType, Limit),
           orderId, 0, quantity))
  {
    AddLineRead(orderId, symbol, price, quantity, side, orderType, tif, timestamp, rest);
    AddFieldsDecode(orderId, symbol, price, quantity, side, orderType, tif, timestamp);
    AddHeaderDecode(orderId, symbol, price, quantity, side, orderType, tif, timestamp, rest);
  }

  /** The ADD line is read back as its fields, leaving what followed. */
  lemma AddLineRead(orderId: int, symbol: string, price: int, quantity: int, side: string,
                    orderType: string, tif: string, timestamp: int, rest: string)
    requires Plain(symbol) && Plain(side) && Plain(orderType) && Plain(tif)
    ensures var b := BuildAddOrderMessage(orderId, symbol, price, quantity, side, orderType, tif, timestamp) + rest;
      && HasLine(b) && AfterLine(b) == rest
      && Split(FirstLine(b)) == AddFields(orderId, symbol, price, quantity, side, orderType, tif, timestamp)
  {
    var parts := AddFields(orderId, symbol, price, quantity, side, orderType, tif, timestamp);
    AddFieldsPlain(orderId, symbol, price, quantity, side, orderType, tif, timestamp);
    LineReadBack(parts, rest);
  }

  /** The header of the ADD line carries the order id as sequence number
      and the timestamp. */
  lemma AddHeaderDecode(orderId: int, symbol: string, price: int, quantity: int, side: string,
                        orderType: string, tif: string, timestamp: int, rest: string)
    requires 0 <= orderId < U64Limit && 0 <= timestamp < U64Limit
    requires var b := BuildAddOrderMessage(orderId, symbol, price, quantity, side, orderType, tif, timestamp) + rest;
      HasLine(b) && Split(FirstLine(b)) == AddFields(orderId, symbol, price, quantity, side, orderType, tif, timestamp)
    ensures var b := BuildAddOrderMessage(orderId, symbol, price, quantity, side, orderType, tif, timestamp) + rest;
      DecodeHeader(FirstLine(b)) == Parsed(MessageHeader(Add, orderId, timestamp))
  {
    U64Field(orderId);
    U64Field(timestamp);
  }

  lemma AddFieldsDecode(orderId: int, symbol: string, price: int, quantity: int, side: string,
                        orderType: string, tif: string, timestamp: int)
    requires 0 <= orderId < U64Limit && 0 <= quantity < U64Limit && 0 <= timestamp < U64Limit
    ensures DecodeAdd(AddFields(orderId, symbol, price, quantity, side, orderType, tif, timestamp))
      == Parsed(AddMessage(
           MessageHeader(Add, orderId, timestamp), orderId, symbol, price, quantity,
           if side == "BUY" then Buy else Sell, TifOf(tif, GTC), OrderTypeOf(orderType, Limit),
           orderId, 0, quantity))
  {
    var parts := AddFields(orderId, symbol, price, quantity, side, orderType, tif, timestamp);
    AddFieldsAt(orderId, symbol, price, quantity, side, orderType, tif, timestamp);
    U64Field(orderId);
    U64Field(quantity);
    U64Field(timestamp);
    TicksRoundTrip(price);
    TicksRoundTrip(0);
    ZeroText();
    DecodeFullAdd(parts, orderId, timestamp, price, quantity);
  }

  /** The trigger field the client always sends is the text of 0 ticks. */
  lemma ZeroText()
    ensures TicksToText(0) == "0.0"
  {
    assert NatToDecimal(0) == "0";
  }

  /** DecodeAdd on 13 fields whose numbers all parse. */
  lemma DecodeFullAdd(parts: seq<string>, id: nat, ts: nat, price: int, qty: nat)
    requires |parts| == 13
    requires ParseU64(parts[1]) == ParseU64(parts[3]) == ParseU64(parts[10]) == Some(id)
    requires ParseU64(parts[2]) == Some(ts)
    requires ParseU64(parts[6]) == ParseU64(parts[12]) == Some(qty)
    requires ParseTicks(parts[5]) == Some(price) && ParseTicks(parts[11]) == Some(0)
    ensures DecodeAdd(parts) == Parsed(AddMessage(
      MessageHeader(Add, id, ts), id, parts[4], price, qty, if parts[7] == "BUY" then Buy else Sell,
      TifOf(parts[8], GTC), OrderTypeOf(parts[9], Limit), id, 0, qty))
  {
  }

  /** A CANCEL line decodes to the order id and participant it was built
      from, with the order id as sequence number. */
  lemma CancelRoundTrip(orderId: int, participantId: int, timestamp: int, rest: string)
    requires 0 <= orderId < U64Limit && 0 <= participantId < U64Limit && 0 <= timestamp < U64Limit
    ensures var b := BuildCancelOrderMessage(orderId, participantId, timestamp) + rest;
      && HasLine(b) && AfterLine(b) == rest
      && DecodeHeader(FirstLine(b)) == Parsed(MessageHeader(Cancel, orderId, timestamp))
      && CancelFromLine(FirstLine(b)) == Parsed(CancelMessage(MessageHeader(Cancel, orderId, timestamp), orderId, participantId))
  {
    var parts := CancelFields(orderId, participantId, timestamp);
    assert BuildCancelOrderMessage(orderId, participantId, timestamp) + rest == Join(parts) + "\n" + rest;
    LineReadBack(parts, rest);
    U64Field(orderId);
    U64Field(participantId);
    U64Field(timestamp);
  }

  /** A CANCEL_REPLACE line decodes to the new price, new quantity and
      participant it was built from. */
  lemma CancelReplaceRoundTrip(orderId: int, newPrice: int, newQuantity: int, participantId: int,
                               timestamp: int, rest: string)
    requires 0 <= orderId < U64Limit && 0 <= newQuantity < U64Limit && 0 <= participantId < U64Limit
    requires 0 <= timestamp < U64Limit
    ensures var b := BuildCancelReplaceMessage(orderId, newPrice, newQuantity, participantId, timestamp) + rest;
      && HasLine(b) && AfterLine(b) == rest
      && DecodeHeader(FirstLine(b)) == Parsed(MessageHeader(CancelReplace, orderId, timestamp))
      && CancelReplaceFromLine(FirstLine(b)) == Parsed(CancelReplaceMessage(
           MessageHeader(CancelReplace, orderId, timestamp), orderId, newPrice, newQuantity, participantId))
  {
    var parts := CancelReplaceFields(orderId, newPrice, newQuantity, participantId, timestamp);
    assert BuildCancelReplaceMessage(orderId, newPrice, newQuantity, participantId, timestamp) + rest
        == Join(parts) + "\n" + rest;
    CancelReplacePlain(orderId, newPrice, newQuantity, participantId, timestamp);
    LineReadBack(parts, rest);
    U64Field(orderId);
    U64Field(newQuantity);
    U64Field(participantId);
    U64Field(timestamp);
    TicksRoundTrip(newPrice);
  }

  /** A SNAPSHOT_REQUEST line decodes to its sequence number and symbol. */
  lemma SnapshotRoundTrip(sequence: int, symbol: string, timestamp: int, rest: string)
    requires 0 <= sequence < U64Limit && 0 <= timestamp < U64Limit && Plain(symbol)
    ensures var b := BuildSnapshotRequestMessage(sequence, symbol, timestamp) + rest;
      && HasLine(b) && AfterLine(b) == rest
      && DecodeHeader(FirstLine(b)) == Parsed(MessageHeader(MessageType.SnapshotRequest, sequence, timestamp))
      && SnapshotFromLine(FirstLine(b)) == Parsed(SnapshotRequest.SnapshotRequest(
           MessageHeader(MessageType.SnapshotRequest, sequence, timestamp), symbol))
  {
    var parts := SnapshotFields(sequence, symbol, timestamp);
    assert BuildSnapshotRequestMessage(sequence, symbol, timestamp) + rest == Join(parts) + "\n" + rest;
    LineReadBack(parts, rest);
    U64Field(sequence);
    U64Field(timestamp);
  }
}
