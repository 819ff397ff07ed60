/**
 * The notification worker's saga for one "order created" event: reserve
 * every line item in list order, and on the first failure release what was
 * reserved, cancel the order and send a cancellation email; otherwise send a
 * confirmation email and confirm the order.
 *
 * The worker reaches the other services over HTTP. Here the services are the
 * in-memory repositories and handlers of the rest of the model, gathered in a
 * `Cluster`, and every outbound call is numbered in the order the worker makes
 * it. An `Env` says which calls fail in transit and which of the called
 * service's database calls fail.
 */
module Worker {
  import opened Wrappers
  import opened Domain
  import opened Http
  import Strings
  import InventoryRepo
  import InventoryHttp
  import OrdersRepo
  import OrdersHttp
  import OrdersMain

  /** How an outbound call fails in transit. */
  datatype Fault =
    | Refused  // the request never reaches the service
    | Lost     // the service handles the request, but its answer never comes back

  /**
   * Call `n` (counting every call the worker ever made, from 0) fails in
   * transit when `n in transport`; the database faults of the service that
   * handles call `n` are `inventoryDb[n]` or `ordersDb[n]`, none when absent.
   */
  datatype Env = Env(
    transport: map<nat, Fault>,
    inventoryDb: map<nat, InventoryHttp.DbFaults>,
    ordersDb: map<nat, OrdersHttp.UpdateFaults>)

  const NoFaults := Env(map[], map[], map[])

  /**
   * Which routes the orders service serves the status update on: the
   * closures of its main program (`/orders/` without an id wildcard), or the
   * `PATCH /orders/{id}/status` pattern the integration tests register.
   */
  datatype Wiring = MainWiring | TestWiring

  datatype Email = Email(to: string, subject: string, body: string)

  /** An outbound call, as the worker issues it. */
  datatype Call =
    | ReserveCall(itemId: string, quantity: int)
    | ReleaseCall(itemId: string, quantity: int)
    | StatusCall(orderId: string, status: OrderStatus)
    | EmailCall(email: Email)

  /** What the worker sees of a call: the response status, or a transport error. */
  datatype Reply = Answered(status: int) | TransportError

  datatype ReservedItem = ReservedItem(itemId: string, quantity: int)

  /** Why reserving stopped, naming the item it stopped at. */
  datatype ReserveError =
    | Unreachable(itemId: string)
    | OutOfStock(itemId: string)
    | Rejected(status: int, itemId: string)

  /** Why `Handle` returned an error. */
  datatype SagaError = Undecodable | CancelFailed | CancelEmailFailed | ConfirmEmailFailed | ConfirmFailed

  /**
   * Everything the worker's calls can observe or change: the stock ledger,
   * the orders tables, the emails the email service accepted, and every call
   * made so far.
   */
  datatype World = World(
    ledger: InventoryRepo.Ledger,
    orders: map<string, OrdersRepo.OrderRow>,
    itemRows: seq<OrdersRepo.ItemRow>,
    outbox: seq<Email>,
    log: seq<Call>)

  /** The world after one call, and what the worker saw of it. */
  datatype Step = Step(world: World, reply: Reply)

  function InventoryFaults(env: Env, n: nat): InventoryHttp.DbFaults {
    if n in env.inventoryDb then env.inventoryDb[n] else InventoryHttp.Healthy
  }

  function OrdersFaults(env: Env, n: nat): OrdersHttp.UpdateFaults {
    if n in env.ordersDb then env.ordersDb[n] else OrdersHttp.UpdateFaults(false, false, false)
  }

  /** Call `n` reaches the service that handles it. */
  predicate Arrives(env: Env, n: nat) {
    n !in env.transport || env.transport[n] == Lost
  }

  /** What the worker sees of call `n` when the service answered `status`. */
  function Deliver(env: Env, n: nat, status: int): (r: Reply)
    ensures r.Answered? <==> n !in env.transport
  {
    if n in env.transport then TransportError else Answered(status)
  }

  /** `POST /stock/{itemId}/reserve` with body `{"quantity": q}`. */
  function ReserveStep(w: World, env: Env, itemId: string, q: int): (s: Step)
    ensures s.world == w.(ledger := s.world.ledger, log := w.log + [ReserveCall(itemId, q)])
    ensures s.world.ledger == w.ledger || InventoryRepo.MovedOnly(w.ledger, s.world.ledger, itemId, q)
    ensures s.reply == Answered(StatusOK) ==> InventoryRepo.MovedOnly(w.ledger, s.world.ledger, itemId, q)
  {
    var n := |w.log|;
    var o := InventoryHttp.ReserveOutcome(w.ledger, itemId, Some(q), InventoryFaults(env, n));
    Step(w.(ledger := if Arrives(env, n) then o.ledger else w.ledger, log := w.log + [ReserveCall(itemId, q)]),
         Deliver(env, n, o.response.status))
  }

  /** `POST /stock/{itemId}/release` with body `{"quantity": q}`. */
  function ReleaseStep(w: World, env: Env, itemId: string, q: int): (s: Step)
    ensures s.world == w.(ledger := s.world.ledger, log := w.log + [ReleaseCall(itemId, q)])
    ensures s.world.ledger == w.ledger || InventoryRepo.MovedOnly(w.ledger, s.world.ledger, itemId, -q)
  {
    var n := |w.log|;
    var o := InventoryHttp.ReleaseOutcome(w.ledger, itemId, Some(q), InventoryFaults(env, n));
    Step(w.(ledger := if Arrives(env, n) then o.ledger else w.ledger, log := w.log + [ReleaseCall(itemId, q)]),
         Deliver(env, n, o.response.status))
  }

  /** `PATCH /orders/{orderId}/status` with body `{"status": status}`, as `wiring` routes it. */
  function StatusStep(w: World, env: Env, wiring: Wiring, orderId: string, status: OrderStatus): (s: Step)
    ensures s.world == w.(orders := s.world.orders, log := w.log + [StatusCall(orderId, status)])
    ensures s.world.orders == w.orders
            || (orderId in w.orders && s.world.orders == w.orders[orderId := w.orders[orderId].(status := status)])
    ensures s.reply == Answered(StatusOK) ==>
              orderId in w.orders && s.world.orders == w.orders[orderId := w.orders[orderId].(status := status)]
    ensures wiring == MainWiring ==> s.world.orders == w.orders && s.reply != Answered(StatusOK)
  {
    var n := |w.log|;
    var o := match wiring
      case TestWiring => OrdersHttp.UpdateStatusOutcome(w.orders, w.itemRows, orderId, Some(status), OrdersFaults(env, n))
      case MainWiring =>
        OrdersMain.ServeSubtree(w.orders, w.itemRows, "PATCH", "/orders/" + orderId + "/status", Some(status), OrdersFaults(env, n));
    Step(w.(orders := if Arrives(env, n) then o.orders else w.orders, log := w.log + [StatusCall(orderId, status)]),
         Deliver(env, n, o.response.status))
  }

  /** `POST /send`: the email service accepts every well-formed message. */
  function EmailStep(w: World, env: Env, m: Email): (s: Step)
    ensures s.world == w.(outbox := s.world.outbox, log := w.log + [EmailCall(m)])
    ensures s.world.outbox == w.outbox || s.world.outbox == w.outbox + [m]
    ensures s.reply == Answered(StatusOK) ==> s.world.outbox == w.outbox + [m]
  {
    var n := |w.log|;
    Step(w.(outbox := if Arrives(env, n) then w.outbox + [m] else w.outbox, log := w.log + [EmailCall(m)]),
         Deliver(env, n, StatusOK))
  }

  /** The world after reserving, the items reserved, and why reserving stopped early, if it did. */
  datatype Reservation = Reservation(world: World, reserved: seq<ReservedItem>, failure: Option<ReserveError>)

  /**
   * Reserves `items` in order after `reserved` were reserved, stopping at the
   * first transport error, 409 or other non-200 answer.
   */
  function ReserveFrom(w: World, env: Env, items: seq<OrderItem>, reserved: seq<ReservedItem>): (r: Reservation)
    ensures r.world.orders == w.orders && r.world.itemRows == w.itemRows && r.world.outbox == w.outbox
    ensures |reserved| <= |r.reserved| <= |reserved| + |items| && r.reserved[..|reserved|] == reserved
    ensures r.failure.None? <==> |r.reserved| == |reserved| + |items|
    decreases |items|
  {
    if items == [] then Reservation(w, reserved, None)
    else
      var item := items[0];
      var s := ReserveStep(w, env, item.itemId, item.quantity);
      if s.reply.TransportError? then Reservation(s.world, reserved, Some(Unreachable(item.itemId)))
      else if s.reply.status == StatusConflict then Reservation(s.world, reserved, Some(OutOfStock(item.itemId)))
      else if s.reply.status != StatusOK then Reservation(s.world, reserved, Some(Rejected(s.reply.status, item.itemId)))
      else ReserveFrom(s.world, env, items[1..], reserved + [ReservedItem(item.itemId, item.quantity)])
  }

  /** Releases every item of `reserved` in order, whatever each release answers. */
  function ReleaseAll(w: World, env: Env, reserved: seq<ReservedItem>): (w': World)
    ensures w'.orders == w.orders && w'.itemRows == w.itemRows && w'.outbox == w.outbox
    ensures |w'.log| == |w.log| + |reserved|
    decreases |reserved|
  {
    if reserved == [] then w
    else ReleaseAll(ReleaseStep(w, env, reserved[0].itemId, reserved[0].quantity).world, env, reserved[1..])
  }

  /** The confirmation: to the customer, naming the order and, in the body, its number of items. */
  function ConfirmationEmail(e: OrderCreatedEvent): (m: Email)
    ensures Strings.Contains(m.body, e.orderId)
    ensures Strings.Contains(m.body, Strings.DecimalString(|e.items.Elems()|))
  {
    var count := Strings.DecimalString(|e.items.Elems()|);
    var body := "Your order " + e.orderId + " has been confirmed with " + count + " items.";
    Strings.ContainsSecondAndFourth("Your order ", e.orderId, " has been confirmed with ", count, " items.");
    Email(e.customerId + "@example.com", "Order Confirmation: " + e.orderId, body)
  }

  /** The cancellation: to the customer, naming the order and the missing stock in its body. */
  function CancellationEmail(e: OrderCreatedEvent): (m: Email)
    ensures Strings.Contains(m.body, e.orderId)
    ensures Strings.Contains(m.body, "insufficient stock")
  {
    var body := "Your order " + e.orderId + " has been cancelled due to " + "insufficient stock" + ". You will be reimbursed.";
    Strings.ContainsSecondAndFourth("Your order ", e.orderId, " has been cancelled due to ", "insufficient stock", ". You will be reimbursed.");
    Email(e.customerId + "@example.com", "Order Cancelled: " + e.orderId, body)
  }

  /** The world after handling one event, and the error `Handle` returned, if any. */
  datatype SagaResult = SagaResult(world: World, err: Option<SagaError>)

  /** After a failed reservation: release what was reserved, cancel the order, send the cancellation email. */
  function CancelPath(w: World, env: Env, wiring: Wiring, e: OrderCreatedEvent, reserved: seq<ReservedItem>): (r: SagaResult)
    ensures r.err != Some(Undecodable) && r.world.itemRows == w.itemRows
  {
    var released := ReleaseAll(w, env, reserved);
    var cancel := StatusStep(released, env, wiring, e.orderId, Cancelled);
    if cancel.reply != Answered(StatusOK) then SagaResult(cancel.world, Some(CancelFailed))
    else
      var mail := EmailStep(cancel.world, env, CancellationEmail(e));
      if mail.reply != Answered(StatusOK) then SagaResult(mail.world, Some(CancelEmailFailed))
      else SagaResult(mail.world, None)
  }

  /** After every item was reserved: send the confirmation email, then confirm the order. */
  function ConfirmPath(w: World, env: Env, wiring: Wiring, e: OrderCreatedEvent): (r: SagaResult)
    ensures r.err != Some(Undecodable) && r.world.itemRows == w.itemRows
  {
    var mail := EmailStep(w, env, ConfirmationEmail(e));
    if mail.reply != Answered(StatusOK) then SagaResult(mail.world, Some(ConfirmEmailFailed))
    else
      var confirm := StatusStep(mail.world, env, wiring, e.orderId, Confirmed);
      if confirm.reply != Answered(StatusOK) then SagaResult(confirm.world, Some(ConfirmFailed))
      else SagaResult(confirm.world, None)
  }

  /**
   * `Handle` for a payload that decoded to `payload.value`, or failed to
   * decode when `payload` is `None`.
   */
  function HandleOutcome(w: World, env: Env, wiring: Wiring, payload: Option<OrderCreatedEvent>): (r: SagaResult)
    ensures r.err == Some(Undecodable) <==> payload.None?
    ensures payload.None? ==> r.world == w
    ensures r.world.itemRows == w.itemRows
  {
    if payload.None? then SagaResult(w, Some(Undecodable))
    else
      var res := ReserveFrom(w, env, payload.value.items.Elems(), []);
      if res.failure.Some? then CancelPath(res.world, env, wiring, payload.value, res.reserved)
      else ConfirmPath(res.world, env, wiring, payload.value)
  }

  /** The services the worker talks to, and the record of its calls. */
  class Cluster {
    const inventory: InventoryRepo.InventoryRepository
    const orders: OrdersRepo.OrderRepository
    const env: Env
    const wiring: Wiring
    var outbox: seq<Email>
    var log: seq<Call>

    ghost predicate Valid()
      reads this, inventory, orders
    {
      inventory.Valid() && orders.Valid()
    }

    function State(): World
      reads this, inventory, orders
    {
      World(inventory.items, orders.orders, orders.itemRows, outbox, log)
    }

    constructor (inventory: InventoryRepo.InventoryRepository, orders: OrdersRepo.OrderRepository, env: Env, wiring: Wiring)
      requires inventory.Valid() && orders.Valid()
      ensures Valid()
      ensures this.inventory == inventory && this.orders == orders && this.env == env && this.wiring == wiring
      ensures State() == World(inventory.items, orders.orders, orders.itemRows, [], [])
    {
      this.inventory := inventory;
      this.orders := orders;
      this.env := env;
      this.wiring := wiring;
      outbox := [];
      log := [];
    }

    method PostReserve(itemId: string, q: int) returns (reply: Reply)
      requires Valid()
      modifies this, inventory
      ensures Valid()
      ensures Step(State(), reply) == ReserveStep(old(State()), env, itemId, q)
    {
      var n := |log|;
      log := log + [ReserveCall(itemId, q)];
      if n in env.transport && env.transport[n] == Refused {
        return TransportError;
      }
      var resp := InventoryHttp.HandleReserve(inventory, itemId, Some(q), InventoryFaults(env, n));
      if n in env.transport {
        return TransportError;
      }
      return Answered(resp.status);
    }

    method PostRelease(itemId: string, q: int) returns (reply: Reply)
      requires Valid()
      modifies this, inventory
      ensures Valid()
      ensures Step(State(), reply) == ReleaseStep(old(State()), env, itemId, q)
    {
      var n := |log|;
      log := log + [ReleaseCall(itemId, q)];
      if n in env.transport && env.transport[n] == Refused {
        return TransportError;
      }
      var resp := InventoryHttp.HandleRelease(inventory, itemId, Some(q), InventoryFaults(env, n));
      if n in env.transport {
        return TransportError;
      }
      return Answered(resp.status);
    }

    method PatchStatus(orderId: string, status: OrderStatus) returns (reply: Reply)
      requires Valid()
      modifies this, orders
      ensures Valid()
      ensures Step(State(), reply) == StatusStep(old(State()), env, wiring, orderId, status)
    {
      var n := |log|;
      log := log + [StatusCall(orderId, status)];
      if n in env.transport && env.transport[n] == Refused {
        return TransportError;
      }
      var resp;
      if wiring == TestWiring {
        resp := OrdersHttp.HandleUpdateStatus(orders, orderId, Some(status), OrdersFaults(env, n));
      } else {
        var path := "/orders/" + orderId + "/status";
        resp := OrdersMain.ServeSubtree(orders.orders, orders.itemRows, "PATCH", path, Some(status), OrdersFaults(env, n)).response;
      }
      if n in env.transport {
        return TransportError;
      }
      return Answered(resp.status);
    }

    method PostEmail(m: Email) returns (reply: Reply)
      requires Valid()
      modifies this
      ensures Valid()
      ensures Step(State(), reply) == EmailStep(old(State()), env, m)
    {
      var n := |log|;
      log := log + [EmailCall(m)];
      if n in env.transport && env.transport[n] == Refused {
        return TransportError;
      }
      outbox := outbox + [m];
      if n in env.transport {
        return TransportError;
      }
      return Answered(StatusOK);
    }
  }

  /**
   * The worker's event handler. It holds only the addresses of the services
   * it calls, so nothing of one event is remembered when the next arrives.
   */
  class NotificationHandler {
    const net: Cluster

    constructor (net: Cluster)
      ensures this.net == net
    {
      this.net := net;
    }

    method Handle(payload: Option<OrderCreatedEvent>) returns (err: Option<SagaError>)
      requires net.Valid()
      modifies net, net.inventory, net.orders
      ensures net.Valid()
      ensures SagaResult(net.State(), err) == HandleOutcome(old(net.State()), net.env, net.wiring, payload)
    {
      if payload.None? {
        return Some(Undecodable);
      }
      var event := payload.value;
      var reserved, failure := ReserveStock(event.items.Elems());
      if failure.Some? {
        ReleaseStock(reserved);
        var cancelled := UpdateOrderStatus(event.orderId, Cancelled);
        if !cancelled {
          return Some(CancelFailed);
        }
        var sent := SendEmail(CancellationEmail(event));
        if !sent {
          return Some(CancelEmailFailed);
        }
        return None;
      }
      var sent := SendEmail(ConfirmationEmail(event));
      if !sent {
        return Some(ConfirmEmailFailed);
      }
      var confirmed := UpdateOrderStatus(event.orderId, Confirmed);
      if !confirmed {
        return Some(ConfirmFailed);
      }
      return None;
    }

    method ReserveStock(items: seq<OrderItem>) returns (reserved: seq<ReservedItem>, failure: Option<ReserveError>)
      requires net.Valid()
      modifies net, net.inventory
      ensures net.Valid()
      ensures Reservation(net.State(), reserved, failure) == ReserveFrom(old(net.State()), net.env, items, [])
    {
      reserved := [];
      var i := 0;
      while i < |items|
        invariant 0 <= i <= |items|
        invariant net.Valid()
        invariant ReserveFrom(net.State(), net.env, items[i..], reserved) == ReserveFrom(old(net.State()), net.env, items, [])
      {
        var item := items[i];
        assert items[i..][1..] == items[i + 1..];
        var reply := net.PostReserve(item.itemId, item.quantity);
        if reply.TransportError? {
          return reserved, Some(Unreachable(item.itemId));
        }
        if reply.status == StatusConflict {
          return reserved, Some(OutOfStock(item.itemId));
        }
        if reply.status != StatusOK {
          return reserved, Some(Rejected(reply.status, item.itemId));
        }
        reserved := reserved + [ReservedItem(item.itemId, item.quantity)];
        i := i + 1;
      }
      failure := None;
    }

    /** Releases are best effort: a failed release is only logged. */
    method ReleaseStock(reserved: seq<ReservedItem>)
      requires net.Valid()
      modifies net, net.inventory
      ensures net.Valid()
      ensures net.State() == ReleaseAll(old(net.State()), net.env, reserved)
    {
      var i := 0;
      while i < |reserved|
        invariant 0 <= i <= |reserved|
        invariant net.Valid()
        invariant ReleaseAll(net.State(), net.env, reserved[i..]) == ReleaseAll(old(net.State()), net.env, reserved)
      {
        assert reserved[i..][1..] == reserved[i + 1..];
        var _ := net.PostRelease(reserved[i].itemId, reserved[i].quantity);
        i := i + 1;
      }
    }

    method SendEmail(m: Email) returns (ok: bool)
      requires net.Valid()
      modifies net
      ensures net.Valid()
      ensures net.State() == EmailStep(old(net.State()), net.env, m).world
      ensures ok <==> EmailStep(old(net.State()), net.env, m).reply == Answered(StatusOK)
    {
      var reply := net.PostEmail(m);
      ok := reply == Answered(StatusOK);
    }

    method UpdateOrderStatus(orderId: string, status: OrderStatus) returns (ok: bool)
      requires net.Valid()
      modifies net, net.orders
      ensures net.Valid()
      ensures net.State() == StatusStep(old(net.State()), net.env, net.wiring, orderId, status).world
      ensures ok <==> StatusStep(old(net.State()), net.env, net.wiring, orderId, status).reply == Answered(StatusOK)
    {
      var reply := net.PatchStatus(orderId, status);
      ok := reply == Answered(StatusOK);
    }
  }
}
