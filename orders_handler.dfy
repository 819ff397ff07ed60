/**
 * The orders service's request handlers: order creation with its total
 * and its event, and the status codes of reading, listing and updating.
 * Request decoding is an oracle: the decoded request, or None for a body
 * that does not decode.
 */
module OrdersHttp {
  import opened Wrappers
  import opened Domain
  import opened Http
  import opened OrdersRepo

  const TwoTo64: int := 0x1_0000_0000_0000_0000
  const Int64Min: int := -0x8000_0000_0000_0000
  const Int64Max: int := 0x7fff_ffff_ffff_ffff

  /** Two's-complement 64-bit wrap-around: the int64 congruent to `x` modulo 2^64. */
  function Wrap64(x: int): (r: int)
    ensures Int64Min <= r <= Int64Max
    ensures (r - x) % TwoTo64 == 0
  {
    (x - Int64Min) % TwoTo64 + Int64Min
  }

  /** Numbers congruent modulo 2^64 wrap to the same int64. */
  lemma WrapCongruent(x: int, y: int)
    requires (x - y) % TwoTo64 == 0
    ensures Wrap64(x) == Wrap64(y)
  {
    var k := (x - y) / TwoTo64;
    assert x - Int64Min == (y - Int64Min) + k * TwoTo64;
  }

  /** A value already in the int64 range does not wrap. */
  lemma WrapInRange(x: int)
    requires Int64Min <= x <= Int64Max
    ensures Wrap64(x) == x
  {
  }

  /** Wrapping each operand of a sum, then the sum, is wrapping the exact sum. */
  lemma WrapAdd(a: int, b: int)
    ensures Wrap64(Wrap64(a) + Wrap64(b)) == Wrap64(a + b)
  {
    WrapCongruent(Wrap64(a) + Wrap64(b), a + b);
  }

  /** The exact sum of quantity times price over the line items. */
  function Sum(items: seq<OrderItem>): (total: int)
    decreases |items|
  {
    if items == [] then 0 else Sum(items[..|items| - 1]) + items[|items| - 1].quantity * items[|items| - 1].price
  }

  /**
   * The order total as the handler accumulates it in an int64: each product
   * and each partial sum wraps around.
   */
  method OrderTotal(items: seq<OrderItem>) returns (total: int)
    ensures total == Wrap64(Sum(items))
    ensures Int64Min <= Sum(items) <= Int64Max ==> total == Sum(items)
  {
    total := 0;
    var i := 0;
    while i < |items|
      invariant 0 <= i <= |items|
      invariant total == Wrap64(Sum(items[..i]))
    {
      assert items[..i + 1][..i] == items[..i];
      WrapAdd(Sum(items[..i]), items[i].quantity * items[i].price);
      total := Wrap64(total + Wrap64(items[i].quantity * items[i].price));
      i := i + 1;
    }
    assert items[..i] == items;
    if Int64Min <= Sum(items) <= Int64Max {
      WrapInRange(Sum(items));
    }
  }

  /** Two units at 1000 each make a total of 2000. */
  lemma TwoAtThousand()
    ensures Sum([OrderItem("ITEM-001", 2, 1000)]) == 2000
    ensures Wrap64(Sum([OrderItem("ITEM-001", 2, 1000)])) == 2000
  {
    assert [OrderItem("ITEM-001", 2, 1000)][..0] == [];
  }

  /** One line whose product exceeds the int64 range yields a negative total. */
  lemma TotalWrapsAround()
    ensures Wrap64(Sum([OrderItem("ITEM-001", 2, Int64Max)])) == -2
  {
    assert [OrderItem("ITEM-001", 2, Int64Max)][..0] == [];
    assert Sum([OrderItem("ITEM-001", 2, Int64Max)]) == 2 * Int64Max;
  }

  /** The body of `POST /orders`, as decoded; `items` is nil when the field is absent or null. */
  datatype CreateRequest = CreateRequest(customerId: string, items: Slice<OrderItem>)

  /** The event publisher: what was handed to the broker, keyed by order id. */
  class Producer {
    var sent: seq<(string, OrderCreatedEvent)>

    constructor ()
      ensures sent == []
    {
      sent := [];
    }

    /** Publishes one keyed event; a failed publish hands nothing over. */
    method Publish(key: string, event: OrderCreatedEvent, fails: bool) returns (ok: bool)
      modifies this
      ensures ok == !fails
      ensures sent == if fails then old(sent) else old(sent) + [(key, event)]
    {
      if fails {
        return false;
      }
      sent := sent + [(key, event)];
      return true;
    }
  }

  /** The order `HandleCreate` builds from a request before it is stored. */
  function NewOrder(req: CreateRequest, total: int, now: Timestamp): (o: Order)
    ensures o.status == Pending && o.id == ""
    ensures o.customerId == req.customerId && o.items == req.items && o.createdAt == now
  {
    Order("", req.customerId, req.items, total, Pending, now)
  }

  /** The event announcing a stored order: its id, customer, items and creation time. */
  function CreatedEvent(o: Order): (e: OrderCreatedEvent)
    ensures e.orderId == o.id && e.customerId == o.customerId && e.items == o.items && e.timestamp == o.createdAt
  {
    OrderCreatedEvent(o.id, o.customerId, o.items, o.createdAt)
  }

  /**
   * `POST /orders`: stores a pending order with the wrapped total, then,
   * when a producer is configured, publishes its event keyed by the new id.
   * A failed publish is only logged: the answer is 201 all the same.
   */
  method HandleCreate(repo: OrderRepository, producer: Producer?, req: Option<CreateRequest>,
                      freshId: string, now: Timestamp, fault: TxFault, publishFails: bool)
    returns (resp: Response<Order>)
    requires repo.Valid()
    modifies repo, producer
    ensures repo.Valid()
    ensures resp.status in {StatusCreated, StatusBadRequest, StatusInternalServerError}
    ensures resp.status == StatusBadRequest <==> req.None?
    ensures resp.status == StatusCreated <==>
              req.Some? && freshId !in old(repo.orders) && !Aborts(fault, |req.value.items.Elems()|)
    ensures resp.status != StatusCreated ==>
              repo.orders == old(repo.orders) && repo.itemRows == old(repo.itemRows)
    ensures resp.status == StatusCreated ==>
              var o := NewOrder(req.value, Wrap64(Sum(req.value.items.Elems())), now).(id := freshId);
              && resp.body == JsonBody(o)
              && repo.orders == old(repo.orders)[freshId := RowOf(o)]
              && repo.itemRows == old(repo.itemRows) + RowsFor(freshId, o.items.Elems())
    ensures producer != null ==>
              producer.sent == if resp.status == StatusCreated && !publishFails
                               then old(producer.sent) + [(freshId, CreatedEvent(resp.body.value))]
                               else old(producer.sent)
  {
    if req.None? {
      return Response(StatusBadRequest, ErrorBody("invalid request body"));
    }
    var total := OrderTotal(req.value.items.Elems());
    var order := NewOrder(req.value, total, now);
    var created := repo.Create(order, freshId, fault);
    if created.Failure? {
      return Response(StatusInternalServerError, ErrorBody("internal server error"));
    }
    order := created.value;
    if producer != null {
      var _ := producer.Publish(order.id, CreatedEvent(order), publishFails);
    }
    return Response(StatusCreated, JsonBody(order));
  }

  /** `GET /orders/{id}`. */
  function GetResponse(orders: map<string, OrderRow>, itemRows: seq<ItemRow>, id: string, rowFails: bool, itemsFail: bool)
    : (r: Response<Order>)
    ensures r.status in {StatusOK, StatusBadRequest, StatusNotFound, StatusInternalServerError}
    ensures r.status == StatusBadRequest <==> id == ""
    ensures r.status == StatusNotFound <==> id != "" && !rowFails && id !in orders
    ensures r.status == StatusOK <==> id != "" && !rowFails && id in orders && !itemsFail
    ensures r.status == StatusOK ==> r.body == JsonBody(Stored(orders, itemRows, id).value)
  {
    if id == "" then Response(StatusBadRequest, ErrorBody("missing order id"))
    else if rowFails || (id in orders && itemsFail) then Response(StatusInternalServerError, ErrorBody("internal server error"))
    else if id !in orders then Response(StatusNotFound, ErrorBody("order not found"))
    else Response(StatusOK, JsonBody(Stored(orders, itemRows, id).value))
  }

  method HandleGet(repo: OrderRepository, id: string, rowFails: bool, itemsFail: bool) returns (resp: Response<Order>)
    requires repo.Valid()
    ensures resp == GetResponse(repo.orders, repo.itemRows, id, rowFails, itemsFail)
  {
    if id == "" {
      return Response(StatusBadRequest, ErrorBody("missing order id"));
    }
    var order := repo.GetByID(id, rowFails, itemsFail);
    if order.Failure? {
      return Response(StatusInternalServerError, ErrorBody("internal server error"));
    }
    if order.value.None? {
      return Response(StatusNotFound, ErrorBody("order not found"));
    }
    return Response(StatusOK, JsonBody(order.value.value));
  }

  /** Which database calls of a status update fail: the update, then the two reads after it. */
  datatype UpdateFaults = UpdateFaults(update: bool, row: bool, items: bool)

  /** The orders table after a status update, and the response written for it. */
  datatype UpdateOutcome = UpdateOutcome(orders: map<string, OrderRow>, response: Response<Order>)

  /**
   * `PATCH /orders/{id}/status`: any status string is stored, whatever the
   * order's current status is.
   */
  function UpdateStatusOutcome(orders: map<string, OrderRow>, itemRows: seq<ItemRow>, id: string,
                               status: Option<OrderStatus>, f: UpdateFaults): (o: UpdateOutcome)
    ensures o.response.status in {StatusOK, StatusBadRequest, StatusNotFound, StatusInternalServerError}
    ensures o.response.status == StatusBadRequest <==> id == "" || status.None?
    ensures o.response.status == StatusNotFound <==> id != "" && status.Some? && !f.update && id !in orders
    ensures o.response.status == StatusOK <==> id != "" && status.Some? && !f.update && id in orders && !f.row && !f.items
    ensures o.orders == if id != "" && status.Some? && !f.update && id in orders
                        then orders[id := orders[id].(status := status.value)] else orders
    ensures o.response.status == StatusOK ==>
              o.response.body == JsonBody(Stored(o.orders, itemRows, id).value) && o.response.body.value.status == status.value
  {
    if id == "" then UpdateOutcome(orders, Response(StatusBadRequest, ErrorBody("missing order id")))
    else if status.None? then UpdateOutcome(orders, Response(StatusBadRequest, ErrorBody("invalid request body")))
    else if f.update then UpdateOutcome(orders, Response(StatusInternalServerError, ErrorBody("internal server error")))
    else if id !in orders then UpdateOutcome(orders, Response(StatusNotFound, ErrorBody("order not found")))
    else
      var updated := orders[id := orders[id].(status := status.value)];
      if f.row || f.items then UpdateOutcome(updated, Response(StatusInternalServerError, ErrorBody("internal server error")))
      else UpdateOutcome(updated, Response(StatusOK, JsonBody(Stored(updated, itemRows, id).value)))
  }

  method HandleUpdateStatus(repo: OrderRepository, id: string, status: Option<OrderStatus>, f: UpdateFaults)
    returns (resp: Response<Order>)
    requires repo.Valid()
    modifies repo
    ensures repo.Valid() && repo.itemRows == old(repo.itemRows)
    ensures UpdateOutcome(repo.orders, resp) == UpdateStatusOutcome(old(repo.orders), old(repo.itemRows), id, status, f)
  {
    if id == "" {
      return Response(StatusBadRequest, ErrorBody("missing order id"));
    }
    if status.None? {
      return Response(StatusBadRequest, ErrorBody("invalid request body"));
    }
    var order := repo.UpdateStatus(id, status.value, f.update, f.row, f.items);
    if order.Failure? {
      return Response(StatusInternalServerError, ErrorBody("internal server error"));
    }
    if order.value.None? {
      return Response(StatusNotFound, ErrorBody("order not found"));
    }
    return Response(StatusOK, JsonBody(order.value.value));
  }

  /** A cancelled order can be set back to pending, or to a status no order should have. */
  lemma StatusIsNotChecked(orders: map<string, OrderRow>, itemRows: seq<ItemRow>, id: string, status: OrderStatus)
    requires id != "" && id in orders && orders[id].status == Cancelled
    ensures var o := UpdateStatusOutcome(orders, itemRows, id, Some(status), UpdateFaults(false, false, false));
      o.response.status == StatusOK && o.orders[id].status == status
  {
  }

  /** `GET /orders`: 500 when listing fails, otherwise 200 with every order newest first. */
  method HandleList(repo: OrderRepository, queryFails: bool, itemsQueryFails: bool) returns (resp: Response<Slice<Order>>)
    requires repo.Valid()
    ensures resp.status == StatusInternalServerError <==> queryFails || (repo.orders != map[] && itemsQueryFails)
    ensures resp.status != StatusInternalServerError ==>
              && resp.status == StatusOK && resp.body.JsonBody? && resp.body.value.Made?
              && Listing(repo.orders, repo.itemRows, resp.body.value.Elems())
  {
    var orders := repo.List(queryFails, itemsQueryFails);
    if orders.Failure? {
      return Response(StatusInternalServerError, ErrorBody("internal server error"));
    }
    return Response(StatusOK, JsonBody(orders.value));
  }

  /** The one-query-per-order listing: the same answers, but nil (JSON null) for an empty store. */
  method HandleListNPlus1(repo: OrderRepository, queryFails: bool, itemQueryFails: set<nat>) returns (resp: Response<Slice<Order>>)
    requires repo.Valid()
    ensures resp.status == StatusInternalServerError <==> queryFails || exists i :: i in itemQueryFails && i < |repo.orders|
    ensures resp.status != StatusInternalServerError ==>
              && resp.status == StatusOK && resp.body.JsonBody?
              && Listing(repo.orders, repo.itemRows, resp.body.value.Elems())
              && (resp.body.value.Nil? <==> |repo.orders| == 0)
  {
    var orders := repo.ListNPlus1(queryFails, itemQueryFails);
    if orders.Failure? {
      return Response(StatusInternalServerError, ErrorBody("internal server error"));
    }
    return Response(StatusOK, JsonBody(orders.value));
  }
}
