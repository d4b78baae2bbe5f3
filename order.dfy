/** The server's order record (src/Order.h). The C++ `Order` lives in pool
    memory and is referred to by pointer; here it is a value, and the book
    refers to it by order id. */
module ServerOrder {
  import opened Messages

  /** Capacity of the C++ `char symbol[8]` field, terminator included. */
  const SymbolCapacity: nat := 8

  datatype Order = Order(
    orderId: OrderId,
    side: Side,
    symbol: seq<char>,
    price: int,
    quantity: nat,
    timestamp: nat,
    participantId: nat,
    tif: TimeInForce,
    orderType: OrderType,
    triggerPrice: int,
    visibleQuantity: nat,
    totalQuantity: nat)

  function Min(a: nat, b: nat): nat { if a <= b then a else b }

  /** Number of symbol characters the constructor keeps. */
  function KeptLength(sym: string): nat { Min(|sym|, SymbolCapacity - 1) }

  /** The `Order` constructor: copies every field, starts totalQuantity at
      the quantity, and copies at most 7 symbol characters into the 8-char
      buffer followed by a NUL terminator. */
  method NewOrder(id: OrderId, s: Side, sym: string, p: int, q: nat, ts: nat,
                  partId: nat, t: TimeInForce, otype: OrderType, trigP: int, visQty: nat)
    returns (o: Order)
    ensures |o.symbol| == SymbolCapacity
    ensures o.symbol[..KeptLength(sym)] == sym[..KeptLength(sym)]
    ensures o.symbol[KeptLength(sym)] == '\0'
    ensures o.totalQuantity == o.quantity == q
    ensures o.orderId == id && o.side == s && o.price == p && o.timestamp == ts
    ensures o.participantId == partId && o.tif == t && o.orderType == otype
    ensures o.triggerPrice == trigP && o.visibleQuantity == visQty
  {
    var buf := new char[SymbolCapacity];
    var i := 0;
    while i < 7 && i < |sym|
      invariant 0 <= i <= KeptLength(sym)
      invariant forall j :: 0 <= j < i ==> buf[j] == sym[j]
    {
      buf[i] := sym[i];
      i := i + 1;
    }
    buf[Min(|sym|, 7)] := '\0';
    o := Order(id, s, buf[..], p, q, ts, partId, t, otype, trigP, visQty, q);
  }

  /** The characters before the first NUL: the symbol as a C string. */
  function CString(buf: seq<char>): string
  {
    if buf == [] || buf[0] == '\0' then [] else [buf[0]] + CString(buf[1..])
  }

  /** For a symbol of at most 7 characters with no NUL in it (what the
      engine's validation admits), the stored C string is the symbol. */
  lemma {:induction false} ShortSymbolKept(buf: seq<char>, sym: string)
    requires |sym| < |buf| && buf[..|sym|] == sym && buf[|sym|] == '\0'
    requires '\0' !in sym
    ensures CString(buf) == sym
  {
    if sym != [] {
      assert buf[0] == sym[0];
      ShortSymbolKept(buf[1..], sym[1..]);
      assert sym == [sym[0]] + sym[1..];
    }
  }
}
