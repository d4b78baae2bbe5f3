/** The wire-level records the server exchanges (src/Messages.h).
    64-bit unsigned fields are `nat`; prices are whole numbers of ticks. */
module Messages {

  datatype MessageType = Add | Cancel | CancelReplace | Execution | SnapshotRequest | SnapshotResponse | Heartbeat

  datatype Side = Buy | Sell

  datatype TimeInForce = GTC | IOC | FOK

  datatype OrderType = Limit | Market | StopLoss | Iceberg

  type OrderId = nat

  datatype MessageHeader = MessageHeader(msgType: MessageType, sequence: nat, timestamp: nat)

  datatype AddMessage = AddMessage(
    header: MessageHeader,
    orderId: OrderId,
    symbol: string,
    price: int,
    quantity: nat,
    side: Side,
    tif: TimeInForce,
    orderType: OrderType,
    participantId: nat,
    triggerPrice: int,
    visibleQuantity: nat)

  datatype CancelMessage = CancelMessage(header: MessageHeader, orderId: OrderId, participantId: nat)

  datatype CancelReplaceMessage = CancelReplaceMessage(
    header: MessageHeader,
    orderId: OrderId,
    newPrice: int,
    newQuantity: nat,
    participantId: nat)

  /** `symbol` is the 8-byte char array copied from the buy order. */
  datatype ExecutionMessage = ExecutionMessage(
    header: MessageHeader,
    buyOrderId: OrderId,
    sellOrderId: OrderId,
    symbol: seq<char>,
    price: int,
    quantity: nat,
    buyParticipantId: nat,
    sellParticipantId: nat)

  datatype SnapshotRequest = SnapshotRequest(header: MessageHeader, symbol: string)
}
