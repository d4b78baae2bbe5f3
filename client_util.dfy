/** The client's request-line builders (client/util.py). Each is an
    f-string over its arguments; the clock reading `int(time.time())` is
    the `timestamp` parameter. Python renders an int with str() and a
    whole-valued float price with repr(), "<int>.0"; prices are whole
    numbers of ticks. */
module ClientUtil {
  import opened Text

  /** The 13 fields of an ADD line: the order id doubles as sequence
      number and participant, the trigger is "0.0" and the visible
      quantity is the quantity. */
  function AddFields(orderId: int, symbol: string, price: int, quantity: int, side: string,
                     orderType: string, tif: string, timestamp: int): seq<string>
  {
    ["ADD", IntToDecimal(orderId), IntToDecimal(timestamp), IntToDecimal(orderId), symbol,
     TicksToText(price), IntToDecimal(quantity), side, tif, orderType,
     IntToDecimal(orderId), "0.0", IntToDecimal(quantity)]
  }

  function BuildAddOrderMessage(orderId: int, symbol: string, price: int, quantity: int, side: string,
                                orderType: string, tif: string, timestamp: int): string
  {
    Join(AddFields(orderId, symbol, price, quantity, side, orderType, tif, timestamp)) + "\n"
  }

  function SnapshotFields(sequence: int, symbol: string, timestamp: int): seq<string>
  {
    ["SNAPSHOT_REQUEST", IntToDecimal(sequence), IntToDecimal(timestamp), symbol]
  }

  function BuildSnapshotRequestMessage(sequence: int, symbol: string, timestamp: int): string
  {
    Join(SnapshotFields(sequence, symbol, timestamp)) + "\n"
  }

  function CancelFields(orderId: int, participantId: int, timestamp: int): seq<string>
  {
    ["CANCEL", IntToDecimal(orderId), IntToDecimal(timestamp), IntToDecimal(orderId), IntToDecimal(participantId)]
  }

  function BuildCancelOrderMessage(orderId: int, participantId: int, timestamp: int): string
  {
    Join(CancelFields(orderId, participantId, timestamp)) + "\n"
  }

  function CancelReplaceFields(orderId: int, newPrice: int, newQuantity: int, participantId: int, timestamp: int): seq<string>
  {
    ["CANCEL_REPLACE", IntToDecimal(orderId), IntToDecimal(timestamp), IntToDecimal(orderId),
     TicksToText(newPrice), IntToDecimal(newQuantity), IntToDecimal(participantId)]
  }

  function BuildCancelReplaceMessage(orderId: int, newPrice: int, newQuantity: int, participantId: int,
                                     timestamp: int): string
  {
    Join(CancelReplaceFields(orderId, newPrice, newQuantity, participantId, timestamp)) + "\n"
  }

  // ---------------------------------------------------------------------
  // Line structure

  predicate Free(parts: seq<string>, c: char)
  {
    forall i :: 0 <= i < |parts| ==> c !in parts[i]
  }

  /** Joining fields that do not hold `c` (other than '|') gives a line
      without `c`. */
  lemma {:induction false} JoinFree(parts: seq<string>, c: char)
    requires |parts| >= 1 && Free(parts, c) && c != '|'
    ensures c !in Join(parts)
  {
    if |parts| > 1 {
      JoinFree(parts[1..], c);
      assert Join(parts) == parts[0] + "|" + Join(parts[1..]);
    }
  }

  /** A line built from fields is those fields, split back, followed by a
      single '\n'. */
  lemma LineOfFields(parts: seq<string>)
    requires |parts| >= 1 && Free(parts, '\n') && NoSeparator(parts)
    ensures var line := Join(parts) + "\n";
      && line[|line| - 1] == '\n' && '\n' !in line[..|line| - 1]
      && Split(line[..|line| - 1]) == parts
  {
    var line := Join(parts) + "\n";
    assert line[..|line| - 1] == Join(parts);
    JoinFree(parts, '\n');
    JoinSplit(parts);
  }

  /** The ADD line: 13 fields, "ADD" first, the order id at 1, 3 and 10,
      "0.0" at 11 and the quantity repeated at 12; one '\n' at the end. */
  lemma AddLineShape(orderId: int, symbol: string, price: int, quantity: int, side: string,
                     orderType: string, tif: string, timestamp: int)
    requires '|' !in symbol && '|' !in side && '|' !in orderType && '|' !in tif
    requires '\n' !in symbol && '\n' !in side && '\n' !in orderType && '\n' !in tif
    ensures var line := BuildAddOrderMessage(orderId, symbol, price, quantity, side, orderType, tif, timestamp);
      var f := Split(line[..|line| - 1]);
      && line[|line| - 1] == '\n' && '\n' !in line[..|line| - 1]
      && |f| == 13 && f[0] == "ADD"
      && f[1] == f[3] == f[10] == IntToDecimal(orderId) && f[2] == IntToDecimal(timestamp)
      && f[4] == symbol && f[5] == TicksToText(price) && f[6] == IntToDecimal(quantity)
      && f[7] == side && f[8] == tif && f[9] == orderType
      && f[11] == "0.0" && f[12] == f[6]
  {
    var parts := AddFields(orderId, symbol, price, quantity, side, orderType, tif, timestamp);
    AddFieldsAt(orderId, symbol, price, quantity, side, orderType, tif, timestamp);
    AddFieldsPlain(orderId, symbol, price, quantity, side, orderType, tif, timestamp);
    LineOfFields(parts);
  }

  /** The fields of an ADD line, one by one. */
  lemma AddFieldsAt(orderId: int, symbol: string, price: int, quantity: int, side: string,
                    orderType: string, tif: string, timestamp: int)
    ensures var parts := AddFields(orderId, symbol, price, quantity, side, orderType, tif, timestamp);
      && |parts| == 13 && parts[0] == "ADD" && parts[4] == symbol
      && parts[1] == parts[3] == parts[10] == IntToDecimal(orderId)
      && parts[2] == IntToDecimal(timestamp)
      && parts[6] == parts[12] == IntToDecimal(quantity)
      && parts[5] == TicksToText(price) && parts[11] == "0.0"
      && parts[7] == side && parts[8] == tif && parts[9] == orderType
  {
  }

  /** No field of an ADD line holds a separator or a newline when the
      text arguments do not. */
  lemma AddFieldsPlain(orderId: int, symbol: string, price: int, quantity: int, side: string,
                       orderType: string, tif: string, timestamp: int)
    requires '|' !in symbol && '|' !in side && '|' !in orderType && '|' !in tif
    requires '\n' !in symbol && '\n' !in side && '\n' !in orderType && '\n' !in tif
    ensures var parts := AddFields(orderId, symbol, price, quantity, side, orderType, tif, timestamp);
      Free(parts, '\n') && NoSeparator(parts)
  {
    AddFieldsAt(orderId, symbol, price, quantity, side, orderType, tif, timestamp);
  }

  /** The snapshot line: "SNAPSHOT_REQUEST", the sequence, the timestamp,
      the symbol. */
  lemma SnapshotLineShape(sequence: int, symbol: string, timestamp: int)
    requires '|' !in symbol && '\n' !in symbol
    ensures var line := BuildSnapshotRequestMessage(sequence, symbol, timestamp);
      var f := Split(line[..|line| - 1]);
      && line[|line| - 1] == '\n' && '\n' !in line[..|line| - 1]
      && f == ["SNAPSHOT_REQUEST", IntToDecimal(sequence), IntToDecimal(timestamp), symbol]
  {
    LineOfFields(SnapshotFields(sequence, symbol, timestamp));
  }

  /** The cancel line: 5 fields, the order id at 1 and 3, the participant
      at 4. */
  lemma CancelLineShape(orderId: int, participantId: int, timestamp: int)
    ensures var line := BuildCancelOrderMessage(orderId, participantId, timestamp);
      var f := Split(line[..|line| - 1]);
      && line[|line| - 1] == '\n' && '\n' !in line[..|line| - 1]
      && |f| == 5 && f[0] == "CANCEL" && f[1] == f[3] == IntToDecimal(orderId)
      && f[2] == IntToDecimal(timestamp) && f[4] == IntToDecimal(participantId)
  {
    LineOfFields(CancelFields(orderId, participantId, timestamp));
  }

  /** The cancel-replace line: 7 fields, the order id at 1 and 3, the new
      price at 4, the new quantity at 5, the participant at 6. */
  lemma CancelReplaceLineShape(orderId: int, newPrice: int, newQuantity: int, participantId: int, timestamp: int)
    ensures var line := BuildCancelReplaceMessage(orderId, newPrice, newQuantity, participantId, timestamp);
      var f := Split(line[..|line| - 1]);
      && line[|line| - 1] == '\n' && '\n' !in line[..|line| - 1]
      && |f| == 7 && f[0] == "CANCEL_REPLACE" && f[1] == f[3] == IntToDecimal(orderId)
      && f[2] == IntToDecimal(timestamp) && f[4] == TicksToText(newPrice)
      && f[5] == IntToDecimal(newQuantity) && f[6] == IntToDecimal(participantId)
  {
    CancelReplacePlain(orderId, newPrice, newQuantity, participantId, timestamp);
    LineOfFields(CancelReplaceFields(orderId, newPrice, newQuantity, participantId, timestamp));
  }

  /** The fields of a cancel-replace line hold no separator and no
      newline. */
  lemma CancelReplacePlain(orderId: int, newPrice: int, newQuantity: int, participantId: int, timestamp: int)
    ensures var parts := CancelReplaceFields(orderId, newPrice, newQuantity, participantId, timestamp);
      |parts| == 7 && Free(parts, '\n') && NoSeparator(parts)
  {
  }
}
