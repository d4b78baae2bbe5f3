/** The client's order records and their store (client/order.py).

    An `Order` is a mutable object whose only field the client ever
    changes is its status; `OrderManager` is a dictionary from order id to
    order objects. A JSON record (`to_dict`) is a map from key to value;
    the persistence file is the list of records it holds, or `None` when
    the file is missing or is not valid JSON. Prices are whole numbers of
    ticks. */
module ClientOrders {
  import opened Text

  datatype Value = IntValue(i: int) | TextValue(s: string) | PriceValue(ticks: int)

  type Record = map<string, Value>

  /** The fields of an order, status included. */
  datatype OrderData = OrderData(
    orderId: int,
    symbol: string,
    side: string,
    price: int,
    quantity: int,
    orderType: string,
    tif: string,
    status: string)

  const RecordKeys: set<string> := {"order_id", "symbol", "side", "price", "quantity", "order_type", "tif", "status"}

  /** to_dict on an order's fields. */
  function RecordOf(d: OrderData): (r: Record)
    ensures r.Keys == RecordKeys
  {
    map["order_id" := IntValue(d.orderId), "symbol" := TextValue(d.symbol), "side" := TextValue(d.side),
        "price" := PriceValue(d.price), "quantity" := IntValue(d.quantity),
        "order_type" := TextValue(d.orderType), "tif" := TextValue(d.tif), "status" := TextValue(d.status)]
  }

  predicate IsInt(r: Record, k: string) { k in r && r[k].IntValue? }
  predicate IsText(r: Record, k: string) { k in r && r[k].TextValue? }

  /** from_dict on a record: every key must be there (a missing key raises
      KeyError) and hold a value of the field's kind. */
  function DataOf(r: Record): Option<OrderData>
  {
    if IsInt(r, "order_id") && IsText(r, "symbol") && IsText(r, "side") && "price" in r && r["price"].PriceValue?
       && IsInt(r, "quantity") && IsText(r, "order_type") && IsText(r, "tif") && IsText(r, "status")
    then Some(OrderData(r["order_id"].i, r["symbol"].s, r["side"].s, r["price"].ticks, r["quantity"].i,
                        r["order_type"].s, r["tif"].s, r["status"].s))
    else None
  }

  /** from_dict(to_dict(o)) gives back every field, the status included. */
  lemma RecordRoundTrip(d: OrderData)
    ensures DataOf(RecordOf(d)) == Some(d)
    ensures |RecordOf(d).Keys| == 8
  {
    var r := RecordOf(d);
    assert IsInt(r, "order_id") && IsText(r, "symbol") && IsText(r, "side") && r["price"].PriceValue?;
  }

  /** A record missing any of the eight keys does not load. */
  lemma MissingKeyFails(r: Record, k: string)
    requires k in RecordKeys && k !in r
    ensures DataOf(r) == None
  {
  }

  /** The load comprehension {item["order_id"]: from_dict(item) for item in
      data}: later records with the same id win; any bad record makes the
      whole load fail. */
  function Rekey(records: seq<Record>): Option<map<int, OrderData>>
  {
    if records == [] then Some(map[])
    else
      match Rekey(records[..|records| - 1])
      case None => None
      case Some(m) =>
        match DataOf(records[|records| - 1])
        case None => None
        case Some(d) => Some(m[d.orderId := d])
  }

  /** Every order is stored under its own id. */
  ghost predicate Keyed(m: map<int, OrderData>)
  {
    forall k :: k in m ==> m[k].orderId == k
  }

  predicate NoDup<T(==)>(s: seq<T>) { forall i, j :: 0 <= i < j < |s| ==> s[i] != s[j] }

  /** `records` lists the record of each order of `m` once, in the order
      of `ids`. */
  ghost predicate Lists(records: seq<Record>, ids: seq<int>, m: map<int, OrderData>)
  {
    && |records| == |ids| && NoDup(ids)
    && (forall k :: k in m <==> k in ids)
    && (forall i :: 0 <= i < |ids| ==> records[i] == RecordOf(m[ids[i]]))
  }

  /** The orders of `m` whose ids are among `ids`. */
  function Among(ids: seq<int>, m: map<int, OrderData>): map<int, OrderData>
  {
    map k | k in ids && k in m :: m[k]
  }

  /** Saving the store and loading the file back gives the same orders
      under the same ids, whatever order the records were written in. */
  lemma SaveLoadRoundTrip(records: seq<Record>, ids: seq<int>, m: map<int, OrderData>)
    requires Keyed(m) && Lists(records, ids, m)
    ensures Rekey(records) == Some(m)
  {
    RekeyPrefix(records, ids, m, |records|);
    assert records[..|records|] == records;
    assert ids[..|records|] == ids;
    assert forall k :: k in Among(ids, m) <==> k in m;
    assert Among(ids, m) == m;
  }

  lemma {:induction false} RekeyPrefix(records: seq<Record>, ids: seq<int>, m: map<int, OrderData>, n: nat)
    requires Keyed(m) && Lists(records, ids, m) && n <= |records|
    ensures Rekey(records[..n]) == Some(Among(ids[..n], m))
  {
    if n == 0 {
      assert records[..0] == [];
      assert Among(ids[..0], m) == map[];
    } else {
      RekeyPrefix(records, ids, m, n - 1);
      var k := ids[n - 1];
      assert k in m by {
        assert k in ids;
      }
      RecordRoundTrip(m[k]);
      assert records[..n][n - 1] == RecordOf(m[k]);
      RekeyStep(records[..n], Among(ids[..n - 1], m), m[k]) by {
        assert records[..n][..n - 1] == records[..n - 1];
      }
      AmongGrow(ids, m, n);
    }
  }

  /** One more record on the end of a load. */
  lemma RekeyStep(records: seq<Record>, before: map<int, OrderData>, d: OrderData)
    requires records != [] && Rekey(records[..|records| - 1]) == Some(before)
    requires DataOf(records[|records| - 1]) == Some(d)
    ensures Rekey(records) == Some(before[d.orderId := d])
  {
  }

  lemma AmongGrow(ids: seq<int>, m: map<int, OrderData>, n: nat)
    requires Keyed(m) && 0 < n <= |ids| && ids[n - 1] in m
    ensures Among(ids[..n], m) == Among(ids[..n - 1], m)[m[ids[n - 1]].orderId := m[ids[n - 1]]]
  {
    var k := ids[n - 1];
    assert ids[..n] == ids[..n - 1] + [k];
    assert m[k].orderId == k;
    assert forall j :: j in ids[..n] <==> j in ids[..n - 1] || j == k;
  }

  /** A load keeps, for each id, the last record carrying it. */
  lemma {:induction false} RekeyLastWins(records: seq<Record>, i: nat)
    requires Rekey(records).Some? && i < |records|
    requires forall j :: i < j < |records| && DataOf(records[j]).Some? && DataOf(records[i]).Some? ==>
      DataOf(records[j]).value.orderId != DataOf(records[i]).value.orderId
    ensures DataOf(records[i]).Some?
    ensures var d := DataOf(records[i]).value; d.orderId in Rekey(records).value && Rekey(records).value[d.orderId] == d
  {
    RekeyDefined(records, i);
    var prefix := records[..|records| - 1];
    if i < |records| - 1 {
      forall j | i < j < |prefix| && DataOf(prefix[j]).Some? && DataOf(prefix[i]).Some?
        ensures DataOf(prefix[j]).value.orderId != DataOf(prefix[i]).value.orderId
      {
        assert prefix[j] == records[j];
      }
      assert prefix[i] == records[i];
      RekeyLastWins(prefix, i);
      RekeyDefined(records, |records| - 1);
    }
  }

  /** A load that succeeds decoded every record. */
  lemma {:induction false} RekeyDefined(records: seq<Record>, i: nat)
    requires Rekey(records).Some? && i < |records|
    ensures DataOf(records[i]).Some?
    decreases |records|
  {
    if i < |records| - 1 {
      var prefix := records[..|records| - 1];
      assert prefix[i] == records[i];
      RekeyDefined(prefix, i);
    }
  }

  // ---------------------------------------------------------------------
  // Objects

  class Order {
    const orderId: int
    const symbol: string
    const side: string
    const price: int
    const quantity: int
    const orderType: string
    const tif: string
    var status: string

    /** A new order is PENDING. */
    constructor (orderId: int, symbol: string, side: string, price: int, quantity: int, orderType: string, tif: string)
      ensures Data() == OrderData(orderId, symbol, side, price, quantity, orderType, tif, "PENDING")
    {
      this.orderId, this.symbol, this.side := orderId, symbol, side;
      this.price, this.quantity := price, quantity;
      this.orderType, this.tif := orderType, tif;
      status := "PENDING";
    }

    function Data(): OrderData
      reads this
    {
      OrderData(orderId, symbol, side, price, quantity, orderType, tif, status)
    }

    /** to_dict: eight keys, from which from_dict rebuilds the order. */
    function ToDict(): (r: Record)
      reads this
      ensures r.Keys == RecordKeys
      ensures DataOf(r) == Some(Data())
    {
      RecordRoundTrip(Data());
      RecordOf(Data())
    }

    /** from_dict: a new order from a record, `None` where Python raises. */
    static method FromDict(data: Record) returns (o: Option<Order>)
      ensures o.Some? <==> DataOf(data).Some?
      ensures o.Some? ==> fresh(o.value) && o.value.Data() == DataOf(data).value
    {
      if DataOf(data).None? {
        return None;
      }
      var order := new Order(data["order_id"].i, data["symbol"].s, data["side"].s, data["price"].ticks,
                             data["quantity"].i, data["order_type"].s, data["tif"].s);
      order.status := data["status"].s;
      return Some(order);
    }
  }

  /** The fields of every order in a dictionary of order objects. */
  ghost function DataMap(m: map<int, Order>): map<int, OrderData>
    reads m.Values
  {
    map k | k in m :: m[k].Data()
  }

  /** A dictionary of order objects, each under its own id, whose keys
      in iteration order are `ids`. */
  ghost predicate Stored(m: map<int, Order>, ids: seq<int>)
    reads m.Values
  {
    && NoDup(ids)
    && (forall k :: k in m ==> k in ids)
    && (forall i :: 0 <= i < |ids| ==> ids[i] in m)
    && (forall k :: k in m ==> m[k].orderId == k)
  }

  /** The order store. `ids` holds the dictionary's keys in insertion
      order, the order in which Python iterates it. */
  class OrderManager {
    var orders: map<int, Order>
    var ids: seq<int>

    ghost predicate Valid()
      reads this, orders.Values
    {
      Stored(orders, ids)
    }

    ghost function Snapshot(): map<int, OrderData>
      reads this, orders.Values
    {
      DataMap(orders)
    }

    /** __init__ then load_orders from the persistence file's contents. A
        load that raises leaves the store empty here; in Python the
        exception aborts the construction. */
    constructor (file: Option<seq<Record>>)
      ensures Valid()
      ensures file.Some? && Rekey(file.value).Some? ==> Snapshot() == Rekey(file.value).value
      ensures file.None? || Rekey(file.value).None? ==> orders == map[]
    {
      orders := map[];
      ids := [];
      new;
      var _ := LoadOrders(file);
    }

    /** add_order: inserts or overwrites under the order's own id; a new id
        goes last in iteration order, an overwritten one keeps its place. */
    method AddOrder(order: Order)
      requires Valid()
      modifies this
      ensures Valid()
      ensures orders == old(orders)[order.orderId := order]
      ensures ids == if order.orderId in old(orders) then old(ids) else old(ids) + [order.orderId]
      ensures Snapshot() == old(Snapshot())[order.orderId := order.Data()]
    {
      if order.orderId !in orders {
        ids := ids + [order.orderId];
      }
      orders := orders[order.orderId := order];
    }

    /** update_order_status: sets the status of a stored order, whatever
        it was; an absent id changes nothing. */
    method UpdateOrderStatus(orderId: int, status: string)
      requires Valid()
      modifies if orderId in orders then {orders[orderId]} else {}
      ensures Valid()
      ensures orderId in orders ==> orders[orderId].Data() == old(orders[orderId].Data()).(status := status)
      ensures Snapshot() == if orderId in orders then old(Snapshot())[orderId := old(Snapshot())[orderId].(status := status)]
                            else old(Snapshot())
    {
      if orderId in orders {
        ghost var before := Snapshot();
        var o := orders[orderId];
        o.status := status;
        forall k | k in orders && k != orderId
          ensures orders[k] != o
        {
          assert orders[k].orderId == k;
        }
        assert Snapshot() == before[orderId := before[orderId].(status := status)];
      }
    }

    /** get_order: the stored object, or null (Python's None). */
    function GetOrder(orderId: int): (o: Order?)
      reads this
      ensures o != null <==> orderId in orders
      ensures o != null ==> o == orders[orderId]
    {
      if orderId in orders then orders[orderId] else null
    }

    /** save_orders: the list written to the file, one record per stored
        order, in iteration order. */
    method SaveOrders() returns (records: seq<Record>)
      requires Valid()
      ensures Lists(records, ids, Snapshot())
    {
      records := [];
      for i := 0 to |ids|
        invariant Valid() && |records| == i
        invariant forall j :: 0 <= j < i ==> ids[j] in orders && records[j] == RecordOf(orders[ids[j]].Data())
      {
        records := records + [orders[ids[i]].ToDict()];
      }
    }

    /** load_orders: a missing or unreadable file empties the store; a
        record without one of the keys raises and leaves the store as it
        was; otherwise the store is the records keyed by order id, each id
        placed where it first occurs. */
    method LoadOrders(file: Option<seq<Record>>) returns (ok: bool)
      requires Valid() || (orders == map[] && ids == [])
      modifies this
      ensures Valid()
      ensures ok <==> file.None? || Rekey(file.value).Some?
      ensures file.None? ==> orders == map[]
      ensures file.Some? && ok ==> Snapshot() == Rekey(file.value).value
      ensures !ok ==> orders == old(orders) && ids == old(ids)
    {
      if file.None? {
        orders, ids := map[], [];
        return true;
      }
      var loaded, loadedIds;
      ok, loaded, loadedIds := LoadRecords(file.value);
      if ok {
        orders, ids := loaded, loadedIds;
      }
    }
  }

  /** The dictionary comprehension of load_orders: one new order per
      record, a later record replacing an earlier one with the same id in
      its first place; `ok` is false where Python raises. */
  method LoadRecords(data: seq<Record>) returns (ok: bool, loaded: map<int, Order>, ids: seq<int>)
    ensures ok <==> Rekey(data).Some?
    ensures ok ==> Stored(loaded, ids) && Rekey(data) == Some(DataMap(loaded))
  {
    loaded, ids := map[], [];
    var i := 0;
    while i < |data|
      invariant 0 <= i <= |data|
      invariant Rekey(data[..i]) == Some(DataMap(loaded))
      invariant Stored(loaded, ids)
    {
      assert data[..i + 1][..i] == data[..i];
      var o := Order.FromDict(data[i]);
      if o.None? {
        RekeyStops(data[..i + 1], i);
        assert data == data[..i + 1] + data[i + 1..];
        RekeyExtends(data[..i + 1], data[i + 1..]);
        return false, loaded, ids;
      }
      ghost var before := DataMap(loaded);
      if o.value.orderId !in loaded {
        ids := ids + [o.value.orderId];
      }
      loaded := loaded[o.value.orderId := o.value];
      assert DataMap(loaded) == before[o.value.orderId := o.value.Data()];
      i := i + 1;
    }
    assert data[..i] == data;
    return true, loaded, ids;
  }

  /** A failed load stays failed whatever records follow. */
  lemma {:induction false} RekeyExtends(records: seq<Record>, more: seq<Record>)
    requires Rekey(records).None?
    ensures Rekey(records + more).None?
    decreases |more|
  {
    if more == [] {
      assert records + more == records;
    } else {
      var all := records + more;
      assert all[..|all| - 1] == records + more[..|more| - 1];
      RekeyExtends(records, more[..|more| - 1]);
    }
  }

  /** A bad record makes the load fail. */
  lemma {:induction false} RekeyStops(records: seq<Record>, i: nat)
    requires i < |records| && DataOf(records[i]).None?
    ensures Rekey(records).None?
    decreases |records|
  {
    if i < |records| - 1 {
      assert records[..|records| - 1][i] == records[i];
      RekeyStops(records[..|records| - 1], i);
    }
  }
}
