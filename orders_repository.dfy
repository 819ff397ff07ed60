/**
 * The orders store: an `orders` table keyed by order id and an
 * `order_items` table of line items, each row pointing at its order.
 * Rows a query returns without ORDER BY come back in insertion order.
 */
module OrdersRepo {
  import opened Wrappers
  import opened Domain

  /** Any failure of a database call. */
  datatype DbError = DbError

  datatype OrderRow = OrderRow(id: string, customerId: string, status: OrderStatus, total: int, createdAt: Timestamp)

  /** A row of `order_items`; the row's own generated id is not modelled. */
  datatype ItemRow = ItemRow(orderId: string, item: OrderItem)

  /** The statement of a `Create` transaction that fails, if any. */
  datatype TxFault = NoFault | BeginFails | OrderInsertFails | ItemInsertFails(index: nat) | CommitFails

  /** Whether `f` aborts a transaction inserting `n` line items. */
  predicate Aborts(f: TxFault, n: nat) {
    match f
    case NoFault => false
    case ItemInsertFails(i) => i < n
    case _ => true
  }

  /** Every order row sits under its own id, and every item row belongs to a stored order. */
  ghost predicate Tables(orders: map<string, OrderRow>, itemRows: seq<ItemRow>) {
    && (forall id :: id in orders ==> orders[id].id == id)
    && (forall i :: 0 <= i < |itemRows| ==> itemRows[i].orderId in orders)
  }

  /** The line items stored for `orderId`, in row order: the items of exactly the rows filed under it. */
  function ItemsOf(rows: seq<ItemRow>, orderId: string): (items: seq<OrderItem>)
    ensures |items| <= |rows|
    ensures forall x :: x in items <==> exists j :: 0 <= j < |rows| && rows[j].orderId == orderId && rows[j].item == x
    decreases |rows|
  {
    if rows == [] then []
    else
      var last := rows[|rows| - 1];
      var init := rows[..|rows| - 1];
      assert forall j :: 0 <= j < |init| ==> init[j] == rows[j];
      ItemsOf(init, orderId) + (if last.orderId == orderId then [last.item] else [])
  }

  /** The item rows a `Create` of `orderId` inserts, one per line item, in line order. */
  function RowsFor(orderId: string, items: seq<OrderItem>): (rows: seq<ItemRow>)
    ensures |rows| == |items|
    ensures forall i :: 0 <= i < |items| ==> rows[i] == ItemRow(orderId, items[i])
  {
    seq(|items|, i requires 0 <= i < |items| => ItemRow(orderId, items[i]))
  }

  /** The row an order is stored as. */
  function RowOf(o: Order): (row: OrderRow) {
    OrderRow(o.id, o.customerId, o.status, o.total, o.createdAt)
  }

  /** An order read back from its row and a slice of its items. */
  function Materialize(row: OrderRow, items: Slice<OrderItem>): (o: Order)
    ensures RowOf(o) == row && o.items == items
  {
    Order(row.id, row.customerId, items, row.total, row.status, row.createdAt)
  }

  /** A slice grown from nil by appends: nil when nothing was appended. */
  function Appended<T>(s: seq<T>): (r: Slice<T>)
    ensures r.Elems() == s
    ensures r.Nil? <==> s == []
  {
    if s == [] then Nil else Made(s)
  }

  /** The order `GetByID` reads for `id`: absent, or its row with its items (nil when it has none). */
  function Stored(orders: map<string, OrderRow>, itemRows: seq<ItemRow>, id: string): (r: Option<Order>)
    ensures r.None? <==> id !in orders
    ensures r.Some? ==> RowOf(r.value) == orders[id] && r.value.items.Elems() == ItemsOf(itemRows, id)
  {
    if id !in orders then None else Some(Materialize(orders[id], Appended(ItemsOf(itemRows, id))))
  }

  /** The ids of a list of orders, in list order. */
  function Ids(os: seq<Order>): (ids: seq<string>)
    ensures |ids| == |os| && forall i :: 0 <= i < |os| ==> ids[i] == os[i].id
  {
    seq(|os|, i requires 0 <= i < |os| => os[i].id)
  }

  /**
   * `os` lists every stored order once, newest first, each with its stored
   * fields and exactly its item rows in row order.
   */
  ghost predicate Listing(orders: map<string, OrderRow>, itemRows: seq<ItemRow>, os: seq<Order>) {
    && (forall i, j :: 0 <= i < j < |os| ==> os[i].id != os[j].id)
    && (forall i, j :: 0 <= i < j < |os| ==> os[i].createdAt >= os[j].createdAt)
    && (forall id :: id in orders ==> id in Ids(os))
    && (forall i :: 0 <= i < |os| ==>
          os[i].id in orders && RowOf(os[i]) == orders[os[i].id] && os[i].items.Elems() == ItemsOf(itemRows, os[i].id))
  }

  /**
   * The ids of a list of order rows, in list order. It is kept apart from `Ids`, which projects
   * orders, because stating the listing predicates over one projection only is costlier to verify.
   */
  function RowIds(rows: seq<OrderRow>): (ids: seq<string>)
    ensures |ids| == |rows| && forall i :: 0 <= i < |rows| ==> ids[i] == rows[i].id
  {
    seq(|rows|, i requires 0 <= i < |rows| => rows[i].id)
  }

  /** Each row is the stored row for its id. */
  ghost predicate StoredRows(orders: map<string, OrderRow>, rows: seq<OrderRow>) {
    forall i :: 0 <= i < |rows| ==> rows[i].id in orders && orders[rows[i].id] == rows[i]
  }

  /** No id repeats and `created_at` never increases along the rows. */
  ghost predicate DistinctNewestFirst(rows: seq<OrderRow>) {
    && (forall i, j :: 0 <= i < j < |rows| ==> rows[i].id != rows[j].id)
    && (forall i, j :: 0 <= i < j < |rows| ==> rows[i].createdAt >= rows[j].createdAt)
  }

  /** Stored rows, each once, newest first, covering all of `orders`. */
  ghost predicate RowsNewestFirst(orders: map<string, OrderRow>, rows: seq<OrderRow>) {
    && StoredRows(orders, rows)
    && DistinctNewestFirst(rows)
    && (forall id :: id in orders ==> id in RowIds(rows))
  }

  /** Among finitely many stored orders there is a newest. */
  lemma {:induction false} NewestExists(orders: map<string, OrderRow>, keys: set<string>)
    requires keys != {} && keys <= orders.Keys
    ensures exists k :: k in keys && forall o :: o in keys ==> orders[o].createdAt <= orders[k].createdAt
    decreases |keys|
  {
    var x :| x in keys;
    if keys == {x} {
      assert forall o :: o in keys ==> o == x;
    } else {
      var rest := keys - {x};
      NewestExists(orders, rest);
      var k :| k in rest && forall o :: o in rest ==> orders[o].createdAt <= orders[k].createdAt;
      if orders[x].createdAt <= orders[k].createdAt {
        assert forall o :: o in keys ==> orders[o].createdAt <= orders[k].createdAt;
      } else {
        assert forall o :: o in keys ==> orders[o].createdAt <= orders[x].createdAt;
      }
    }
  }

  /** Items of a concatenation are the items of each part, in order. */
  lemma {:induction false} ItemsOfConcat(a: seq<ItemRow>, b: seq<ItemRow>, id: string)
    ensures ItemsOf(a + b, id) == ItemsOf(a, id) + ItemsOf(b, id)
    decreases |b|
  {
    if b != [] {
      var b' := b[..|b| - 1];
      assert (a + b)[..|a + b| - 1] == a + b';
      ItemsOfConcat(a, b', id);
    } else {
      assert a + b == a;
    }
  }

  /** The rows inserted for `id` hold exactly its line items, and none of any other order. */
  lemma {:induction false} ItemsOfRowsFor(id: string, items: seq<OrderItem>, other: string)
    ensures ItemsOf(RowsFor(id, items), id) == items
    ensures other != id ==> ItemsOf(RowsFor(id, items), other) == []
    decreases |items|
  {
    if items != [] {
      var init := items[..|items| - 1];
      assert RowsFor(id, items)[..|items| - 1] == RowsFor(id, init);
      ItemsOfRowsFor(id, init, other);
    }
  }

  /** An order without rows has no items. */
  lemma {:induction false} ItemsOfAbsent(rows: seq<ItemRow>, id: string)
    requires forall i :: 0 <= i < |rows| ==> rows[i].orderId != id
    ensures ItemsOf(rows, id) == []
    decreases |rows|
  {
    if rows != [] {
      ItemsOfAbsent(rows[..|rows| - 1], id);
    }
  }

  /** Extending the scanned prefix by one row extends each order's items by at most that row's item. */
  lemma ItemsOfStep(rows: seq<ItemRow>, j: nat, id: string)
    requires j < |rows|
    ensures ItemsOf(rows[..j + 1], id) == ItemsOf(rows[..j], id) + (if rows[j].orderId == id then [rows[j].item] else [])
  {
    assert rows[..j + 1][..j] == rows[..j];
  }

  /** Storing an order with its item rows keeps the tables well formed. */
  lemma CreateKeepsTables(orders: map<string, OrderRow>, itemRows: seq<ItemRow>, o: Order)
    requires Tables(orders, itemRows)
    ensures Tables(orders[o.id := RowOf(o)], itemRows + RowsFor(o.id, o.items.Elems()))
  {
    var orders' := orders[o.id := RowOf(o)];
    var added := RowsFor(o.id, o.items.Elems());
    forall i | 0 <= i < |itemRows + added|
      ensures (itemRows + added)[i].orderId in orders'
    {
      if i >= |itemRows| {
        assert (itemRows + added)[i] == added[i - |itemRows|];
      }
    }
  }

  /**
   * A created order reads back with the id it was given, its fields and its
   * line items (nil when it had none).
   */
  lemma CreatedOrderReadsBack(orders: map<string, OrderRow>, itemRows: seq<ItemRow>, o: Order)
    requires Tables(orders, itemRows) && o.id !in orders
    ensures Stored(orders[o.id := RowOf(o)], itemRows + RowsFor(o.id, o.items.Elems()), o.id)
         == Some(o.(items := Appended(o.items.Elems())))
  {
    var added := RowsFor(o.id, o.items.Elems());
    ItemsOfConcat(itemRows, added, o.id);
    ItemsOfAbsent(itemRows, o.id);
    ItemsOfRowsFor(o.id, o.items.Elems(), o.id);
    assert ItemsOf(itemRows + added, o.id) == o.items.Elems();
  }

  /** Creating an order changes what no other order reads back as. */
  lemma CreateLeavesOthers(orders: map<string, OrderRow>, itemRows: seq<ItemRow>, o: Order, other: string)
    requires other != o.id
    ensures Stored(orders[o.id := RowOf(o)], itemRows + RowsFor(o.id, o.items.Elems()), other)
         == Stored(orders, itemRows, other)
  {
    var added := RowsFor(o.id, o.items.Elems());
    ItemsOfConcat(itemRows, added, other);
    ItemsOfRowsFor(o.id, o.items.Elems(), other);
    assert ItemsOf(itemRows + added, other) == ItemsOf(itemRows, other) + [];
    assert ItemsOf(itemRows, other) + [] == ItemsOf(itemRows, other);
  }

  /** Distinct ids covering the table: a listing has exactly as many orders as the table. */
  lemma ListingCountsOrders(orders: map<string, OrderRow>, itemRows: seq<ItemRow>, os: seq<Order>)
    requires Listing(orders, itemRows, os)
    ensures |os| == |orders|
    ensures orders == map[] <==> os == []
  {
    var ids := Ids(os);
    assert forall id :: id in orders.Keys <==> id in ids;
    DistinctCard(ids);
    assert (set id | id in ids) == orders.Keys;
  }

  /** A sequence without repeats has as many distinct elements as positions. */
  lemma {:induction false} DistinctCard(ids: seq<string>)
    requires forall i, j :: 0 <= i < j < |ids| ==> ids[i] != ids[j]
    ensures |set id | id in ids| == |ids|
    decreases |ids|
  {
    if ids != [] {
      var init := ids[..|ids| - 1];
      var last := ids[|ids| - 1];
      DistinctCard(init);
      assert (set id | id in ids) == (set id | id in init) + {last};
      assert last !in init;
    }
  }

  /** A sequence without repeats whose elements are exactly `keys` has `|keys|` elements. */
  lemma DistinctCoverCount(ids: seq<string>, keys: set<string>)
    requires forall i, j :: 0 <= i < j < |ids| ==> ids[i] != ids[j]
    requires forall k :: k in keys <==> k in ids
    ensures |ids| == |keys|
  {
    DistinctCard(ids);
    assert (set id | id in ids) == keys;
  }

  /** The newest-first query returns exactly one row per stored order. */
  lemma RowsNewestFirstCount(orders: map<string, OrderRow>, rows: seq<OrderRow>)
    requires RowsNewestFirst(orders, rows)
    ensures |rows| == |orders|
  {
    var ids := RowIds(rows);
    DistinctCoverCount(ids, orders.Keys);
    assert |orders| == |orders.Keys|;
  }

  /** The state of the newest-first scan: `rows` taken so far, `rest` the ids still to take. */
  ghost predicate NewestScan(orders: map<string, OrderRow>, rows: seq<OrderRow>, rest: set<string>) {
    && rest <= orders.Keys
    && StoredRows(orders, rows) && DistinctNewestFirst(rows)
    && (forall i :: 0 <= i < |rows| ==> rows[i].id !in rest)
    && (forall id :: id in orders && id !in rest ==> id in RowIds(rows))
    && (forall i, id :: 0 <= i < |rows| && id in rest ==> rows[i].createdAt >= orders[id].createdAt)
  }

  /** Taking a newest remaining row keeps the scan newest first. */
  lemma NewestScanStep(orders: map<string, OrderRow>, rows: seq<OrderRow>, rest: set<string>, id: string)
    requires forall k :: k in orders ==> orders[k].id == k
    requires NewestScan(orders, rows, rest) && id in rest
    requires forall o :: o in rest ==> orders[o].createdAt <= orders[id].createdAt
    ensures NewestScan(orders, rows + [orders[id]], rest - {id})
  {
    assert RowIds(rows + [orders[id]]) == RowIds(rows) + [id];
  }

  /** Rows newest first, each completed with exactly its items, make a listing of the store. */
  lemma ListingOfRows(orders: map<string, OrderRow>, itemRows: seq<ItemRow>, rows: seq<OrderRow>, os: seq<Order>)
    requires RowsNewestFirst(orders, rows)
    requires |os| == |rows|
    requires forall i :: 0 <= i < |rows| ==> RowOf(os[i]) == rows[i] && os[i].items.Elems() == ItemsOf(itemRows, rows[i].id)
    ensures Listing(orders, itemRows, os)
  {
    forall id | id in orders
      ensures id in Ids(os)
    {
      var i :| 0 <= i < |rows| && RowIds(rows)[i] == id;
      assert Ids(os)[i] == id;
    }
  }

  /** The orders `List` assembles from the indexed rows and the grouped items make a listing of the store. */
  lemma GroupedListing(orders: map<string, OrderRow>, itemRows: seq<ItemRow>, rows: seq<OrderRow>,
                       orderMap: map<string, Order>, grouped: map<string, Order>, result: seq<Order>)
    requires RowsNewestFirst(orders, rows)
    requires forall i :: 0 <= i < |rows| ==> rows[i].id in orderMap && orderMap[rows[i].id] == Materialize(rows[i], Made([]))
    requires forall id :: id in grouped <==> id in orderMap
    requires forall id :: id in grouped ==> grouped[id] == orderMap[id].(items := Made(ItemsOf(itemRows, id)))
    requires |result| == |rows| && forall i :: 0 <= i < |rows| ==> result[i] == grouped[rows[i].id]
    ensures Listing(orders, itemRows, result)
    ensures forall i :: 0 <= i < |result| ==> result[i].items.Made?
  {
    forall i | 0 <= i < |rows|
      ensures RowOf(result[i]) == rows[i] && result[i].items == Made(ItemsOf(itemRows, rows[i].id))
    {
      assert result[i] == Materialize(rows[i], Made([])).(items := Made(ItemsOf(itemRows, rows[i].id)));
    }
    ListingOfRows(orders, itemRows, rows, result);
  }

  /** The first loop of `List`: each row becomes an order with an empty item list, indexed by id. */
  method IndexRows(rows: seq<OrderRow>) returns (orderMap: map<string, Order>, orderIds: seq<string>)
    ensures orderIds == RowIds(rows)
    ensures forall id :: id in orderMap <==> id in orderIds
    ensures DistinctNewestFirst(rows) ==>
              forall i :: 0 <= i < |rows| ==> rows[i].id in orderMap && orderMap[rows[i].id] == Materialize(rows[i], Made([]))
  {
    orderMap := map[];
    orderIds := [];
    var k := 0;
    while k < |rows|
      invariant 0 <= k <= |rows|
      invariant orderIds == RowIds(rows[..k])
      invariant forall id :: id in orderMap <==> id in orderIds
      invariant DistinctNewestFirst(rows) ==>
                  forall i :: 0 <= i < k ==> orderMap[rows[i].id] == Materialize(rows[i], Made([]))
    {
      var row := rows[k];
      assert RowIds(rows[..k + 1]) == RowIds(rows[..k]) + [row.id];
      orderMap := orderMap[row.id := Materialize(row, Made([]))];
      orderIds := orderIds + [row.id];
      k := k + 1;
    }
    assert rows[..k] == rows;
  }

  /** Appending row `j`'s item to its order groups the first `j + 1` rows. */
  lemma GroupStep(orderMap: map<string, Order>, grouped: map<string, Order>, itemRows: seq<ItemRow>, j: nat)
    requires j < |itemRows| && itemRows[j].orderId in grouped
    requires forall id :: id in grouped <==> id in orderMap
    requires forall id :: id in grouped ==> grouped[id] == orderMap[id].(items := Made(ItemsOf(itemRows[..j], id)))
    ensures var row := itemRows[j];
      var next := grouped[row.orderId := grouped[row.orderId].(items := grouped[row.orderId].items.Append(row.item))];
      forall id :: id in next ==> next[id] == orderMap[id].(items := Made(ItemsOf(itemRows[..j + 1], id)))
  {
    var row := itemRows[j];
    forall id | id in grouped
      ensures ItemsOf(itemRows[..j + 1], id) == ItemsOf(itemRows[..j], id) + (if row.orderId == id then [row.item] else [])
    {
      ItemsOfStep(itemRows, j, id);
    }
    forall id | id in grouped && id != row.orderId
      ensures ItemsOf(itemRows[..j + 1], id) == ItemsOf(itemRows[..j], id)
    {
      assert ItemsOf(itemRows[..j], id) + [] == ItemsOf(itemRows[..j], id);
    }
  }

  /** The second loop of `List`: each fetched item row is appended to its order's items. */
  method GroupItems(orderMap: map<string, Order>, itemRows: seq<ItemRow>) returns (grouped: map<string, Order>)
    requires forall i :: 0 <= i < |itemRows| ==> itemRows[i].orderId in orderMap
    requires forall id :: id in orderMap ==> orderMap[id].items == Made([])
    ensures forall id :: id in grouped <==> id in orderMap
    ensures forall id :: id in grouped ==> grouped[id] == orderMap[id].(items := Made(ItemsOf(itemRows, id)))
  {
    grouped := orderMap;
    var j := 0;
    while j < |itemRows|
      invariant 0 <= j <= |itemRows|
      invariant forall id :: id in grouped <==> id in orderMap
      invariant forall id :: id in grouped ==> grouped[id] == orderMap[id].(items := Made(ItemsOf(itemRows[..j], id)))
    {
      var row := itemRows[j];
      var order := grouped[row.orderId];
      GroupStep(orderMap, grouped, itemRows, j);
      grouped := grouped[row.orderId := order.(items := order.items.Append(row.item))];
      j := j + 1;
    }
    assert itemRows[..j] == itemRows;
  }

  /** The last loop of `List`: the grouped orders, in the order their rows came. */
  method Collect(orderMap: map<string, Order>, orderIds: seq<string>) returns (result: seq<Order>)
    requires forall i :: 0 <= i < |orderIds| ==> orderIds[i] in orderMap
    ensures |result| == |orderIds|
    ensures forall i :: 0 <= i < |orderIds| ==> result[i] == orderMap[orderIds[i]]
  {
    result := [];
    var k := 0;
    while k < |orderIds|
      invariant 0 <= k <= |orderIds|
      invariant |result| == k
      invariant forall i :: 0 <= i < k ==> result[i] == orderMap[orderIds[i]]
    {
      result := result + [orderMap[orderIds[k]]];
      k := k + 1;
    }
  }

  /** The first loop of `ListNPlus1`: each row becomes an order with nil items, appended to a nil list. */
  method ScanRows(rows: seq<OrderRow>) returns (result: Slice<Order>)
    ensures result.Nil? <==> rows == []
    ensures |result.Elems()| == |rows|
    ensures forall i :: 0 <= i < |rows| ==> result.Elems()[i] == Materialize(rows[i], Nil)
  {
    result := Nil;
    var k := 0;
    while k < |rows|
      invariant 0 <= k <= |rows|
      invariant result.Nil? <==> k == 0
      invariant |result.Elems()| == k
      invariant forall i :: 0 <= i < k ==> result.Elems()[i] == Materialize(rows[i], Nil)
    {
      result := result.Append(Materialize(rows[k], Nil));
      k := k + 1;
    }
  }

  class OrderRepository {
    var orders: map<string, OrderRow>
    var itemRows: seq<ItemRow>

    ghost predicate Valid()
      reads this
    {
      Tables(orders, itemRows)
    }

    constructor ()
      ensures Valid() && orders == map[] && itemRows == []
    {
      orders := map[];
      itemRows := [];
    }

    /**
     * Stores `order` under `freshId` with one item row per line item, in one
     * transaction: either everything is committed or nothing is. An id that
     * is already taken violates the primary key and fails the order insert.
     */
    method Create(order: Order, freshId: string, fault: TxFault) returns (r: Result<Order, DbError>)
      requires Valid()
      modifies this
      ensures Valid()
      ensures r.Success? <==> freshId !in old(orders) && !Aborts(fault, |order.items.Elems()|)
      ensures r.Success? ==>
                && r.value == order.(id := freshId)
                && orders == old(orders)[freshId := RowOf(r.value)]
                && itemRows == old(itemRows) + RowsFor(freshId, order.items.Elems())
      ensures r.Failure? ==> orders == old(orders) && itemRows == old(itemRows)
    {
      if fault == BeginFails {
        return Failure(DbError);
      }
      var stored := order.(id := freshId);
      if fault == OrderInsertFails || freshId in orders {
        return Failure(DbError);
      }
      var items := order.items.Elems();
      var pending: seq<ItemRow> := [];
      var i := 0;
      while i < |items|
        invariant 0 <= i <= |items|
        invariant fault.ItemInsertFails? ==> fault.index >= i
        invariant pending == RowsFor(freshId, items[..i])
      {
        if fault == ItemInsertFails(i) {
          return Failure(DbError);
        }
        pending := pending + [ItemRow(freshId, items[i])];
        i := i + 1;
      }
      assert items[..i] == items;
      if fault == CommitFails {
        return Failure(DbError);
      }
      orders := orders[freshId := RowOf(stored)];
      itemRows := itemRows + pending;
      return Success(stored);
    }

    /** `SELECT item_id, quantity, price FROM order_items WHERE order_id = $1`, appended to a nil slice. */
    method ItemsQuery(id: string) returns (items: Slice<OrderItem>)
      ensures items == Appended(ItemsOf(itemRows, id))
    {
      items := Nil;
      var j := 0;
      while j < |itemRows|
        invariant 0 <= j <= |itemRows|
        invariant items == Appended(ItemsOf(itemRows[..j], id))
      {
        ItemsOfStep(itemRows, j, id);
        if itemRows[j].orderId == id {
          items := items.Append(itemRows[j].item);
        }
        j := j + 1;
      }
      assert itemRows[..j] == itemRows;
    }

    /** The order with `id` and its items, or None without an error when there is no such order. */
    method GetByID(id: string, rowFails: bool, itemsFail: bool) returns (r: Result<Option<Order>, DbError>)
      requires Valid()
      ensures r.Failure? <==> rowFails || (id in orders && itemsFail)
      ensures r.Success? ==> r.value == Stored(orders, itemRows, id)
    {
      if rowFails {
        return Failure(DbError);
      }
      if id !in orders {
        return Success(None);
      }
      if itemsFail {
        return Failure(DbError);
      }
      var items := ItemsQuery(id);
      return Success(Some(Materialize(orders[id], items)));
    }

    /**
     * Sets the status of order `id`, whatever the new or the old status is,
     * then reads the order back. No matching row is not an error.
     */
    method UpdateStatus(id: string, status: OrderStatus, updateFails: bool, rowFails: bool, itemsFail: bool)
      returns (r: Result<Option<Order>, DbError>)
      requires Valid()
      modifies this
      ensures Valid()
      ensures itemRows == old(itemRows)
      ensures orders == if !updateFails && id in old(orders) then old(orders)[id := old(orders)[id].(status := status)] else old(orders)
      ensures r.Failure? <==> updateFails || (id in old(orders) && (rowFails || itemsFail))
      ensures r.Success? ==> r.value == Stored(orders, itemRows, id)
      ensures r.Success? && r.value.Some? ==> r.value.value.status == status
    {
      if updateFails {
        return Failure(DbError);
      }
      var rowsAffected := if id in orders then 1 else 0;
      if rowsAffected == 0 {
        return Success(None);
      }
      orders := orders[id := orders[id].(status := status)];
      r := GetByID(id, rowFails, itemsFail);
    }

    /** The query `ORDER BY created_at DESC`: each step takes a newest remaining row. */
    method OrderRowsNewestFirst() returns (rows: seq<OrderRow>)
      requires Valid()
      ensures RowsNewestFirst(orders, rows)
    {
      var rest := orders.Keys;
      rows := [];
      while rest != {}
        invariant NewestScan(orders, rows, rest)
        decreases |rest|
      {
        NewestExists(orders, rest);
        var id :| id in rest && forall o :: o in rest ==> orders[o].createdAt <= orders[id].createdAt;
        NewestScanStep(orders, rows, rest, id);
        rows := rows + [orders[id]];
        rest := rest - {id};
      }
    }

    /**
     * All orders newest first, grouping the item rows under their orders by
     * id: each order starts with an empty (not nil) list, and no orders
     * gives an empty list without querying the items.
     */
    method List(queryFails: bool, itemsQueryFails: bool) returns (r: Result<Slice<Order>, DbError>)
      requires Valid()
      ensures r.Failure? <==> queryFails || (orders != map[] && itemsQueryFails)
      ensures r.Success? ==> r.value.Made? && Listing(orders, itemRows, r.value.Elems())
      ensures r.Success? ==> forall i :: 0 <= i < |r.value.Elems()| ==> r.value.Elems()[i].items.Made?
    {
      if queryFails {
        return Failure(DbError);
      }
      var rows := OrderRowsNewestFirst();
      var orderMap, orderIds := IndexRows(rows);
      if |orderIds| == 0 {
        assert forall id :: id in orders ==> id in RowIds(rows);
        return Success(Made([]));
      }
      assert rows[0].id in orders;
      if itemsQueryFails {
        return Failure(DbError);
      }
      // Every item row belongs to a listed order, so `order_id = ANY(ids)` selects them all.
      assert forall id :: id in orders ==> id in orderMap;
      var grouped := GroupItems(orderMap, itemRows);
      var result := Collect(grouped, orderIds);
      GroupedListing(orders, itemRows, rows, orderMap, grouped, result);
      return Success(Made(result));
    }

    /**
     * All orders newest first, reading each order's items with a query of
     * its own. The list and each order's items grow from nil by appends, so
     * no orders gives a nil list and an order with no items a nil one.
     */
    method ListNPlus1(queryFails: bool, itemQueryFails: set<nat>) returns (r: Result<Slice<Order>, DbError>)
      requires Valid()
      ensures r.Failure? <==> queryFails || exists i :: i in itemQueryFails && i < |orders|
      ensures r.Success? ==> Listing(orders, itemRows, r.value.Elems())
      ensures r.Success? ==> (r.value.Nil? <==> |orders| == 0)
      ensures r.Success? ==> forall i :: 0 <= i < |r.value.Elems()| ==>
                r.value.Elems()[i].items == Appended(ItemsOf(itemRows, r.value.Elems()[i].id))
    {
      if queryFails {
        return Failure(DbError);
      }
      var rows := OrderRowsNewestFirst();
      RowsNewestFirstCount(orders, rows);
      var scanned := ScanRows(rows);
      var filled := FillItems(scanned.Elems(), itemQueryFails);
      if filled.Failure? {
        return Failure(DbError);
      }
      ListingOfRows(orders, itemRows, rows, filled.value);
      if scanned.Nil? {
        return Success(Nil);
      }
      return Success(Made(filled.value));
    }

    /** The second loop of `ListNPlus1`: one items query per order, in list order, stopping at the first that fails. */
    method FillItems(os: seq<Order>, itemQueryFails: set<nat>) returns (r: Result<seq<Order>, DbError>)
      ensures r.Failure? <==> exists i :: i in itemQueryFails && i < |os|
      ensures r.Success? ==> |r.value| == |os|
      ensures r.Success? ==> forall x :: 0 <= x < |os| ==>
                RowOf(r.value[x]) == RowOf(os[x]) && r.value[x].items == Appended(ItemsOf(itemRows, os[x].id))
    {
      var filled := os;
      var i := 0;
      while i < |os|
        invariant 0 <= i <= |os| == |filled|
        invariant forall x :: 0 <= x < |os| ==> RowOf(filled[x]) == RowOf(os[x])
        invariant forall x :: 0 <= x < i ==> filled[x].items == Appended(ItemsOf(itemRows, os[x].id))
        invariant forall x :: x in itemQueryFails ==> x >= i
      {
        if i in itemQueryFails {
          return Failure(DbError);
        }
        var items := ItemsQuery(filled[i].id);
        filled := filled[i := filled[i].(items := items)];
        i := i + 1;
      }
      return Success(filled);
    }
  }
}
