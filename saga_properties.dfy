/**
 * Properties of the worker's saga: the order of its calls, what it reserves
 * and releases, and the end states the order-flow scenarios reach when the
 * network and the databases do not fail.
 */
module SagaProofs {
  import opened Wrappers
  import opened Domain
  import opened Http
  import Strings
  import InventoryRepo
  import InventoryHttp
  import OrdersHttp
  import opened Worker

  /** The reservation record of each line item. */
  function AsReserved(items: seq<OrderItem>): seq<ReservedItem> {
    seq(|items|, i requires 0 <= i < |items| => ReservedItem(items[i].itemId, items[i].quantity))
  }

  /** The reserve calls for `items`, one per line item, in order. */
  function ReserveCalls(items: seq<OrderItem>): seq<Call> {
    seq(|items|, i requires 0 <= i < |items| => ReserveCall(items[i].itemId, items[i].quantity))
  }

  /** The release calls for `reserved`, one per reserved item, in order. */
  function ReleaseCalls(reserved: seq<ReservedItem>): seq<Call> {
    seq(|reserved|, i requires 0 <= i < |reserved| => ReleaseCall(reserved[i].itemId, reserved[i].quantity))
  }

  lemma AsReservedCons(items: seq<OrderItem>, k: nat)
    requires 1 <= k <= |items|
    ensures AsReserved(items[..k]) == [ReservedItem(items[0].itemId, items[0].quantity)] + AsReserved(items[1..][..k - 1])
  {
    assert items[1..][..k - 1] == items[1..k];
  }

  lemma ReserveCallsCons(items: seq<OrderItem>, k: nat)
    requires 1 <= k <= |items|
    ensures ReserveCalls(items[..k]) == [ReserveCall(items[0].itemId, items[0].quantity)] + ReserveCalls(items[1..][..k - 1])
  {
    assert items[1..][..k - 1] == items[1..k];
  }

  lemma EmptyPrefix<T>(s: seq<T>)
    ensures [] + s == s
  {
  }

  lemma AppendTwice<T>(s: seq<T>, x: T)
    ensures (s + [x]) + [x] == s + [x, x]
  {
  }

  lemma AppendReservedStep(p: seq<ReservedItem>, items: seq<OrderItem>, k: nat)
    requires 1 <= k <= |items|
    ensures p + AsReserved(items[..k])
            == (p + [ReservedItem(items[0].itemId, items[0].quantity)]) + AsReserved(items[1..][..k - 1])
  {
    AsReservedCons(items, k);
    var y := ReservedItem(items[0].itemId, items[0].quantity);
    var tail := AsReserved(items[1..][..k - 1]);
    assert (p + [y]) + tail == p + ([y] + tail);
  }

  lemma AppendCallsStep(base: seq<Call>, items: seq<OrderItem>, k: nat)
    requires 1 <= k <= |items|
    ensures base + ReserveCalls(items[..k])
            == (base + [ReserveCall(items[0].itemId, items[0].quantity)]) + ReserveCalls(items[1..][..k - 1])
  {
    ReserveCallsCons(items, k);
    var c := ReserveCall(items[0].itemId, items[0].quantity);
    var tail := ReserveCalls(items[1..][..k - 1]);
    assert (base + [c]) + tail == base + ([c] + tail);
  }

  /** One step of reserving: the first item's call decides whether the rest are tried. */
  lemma ReserveHead(w: World, env: Env, items: seq<OrderItem>, acc: seq<ReservedItem>)
    requires items != []
    ensures var x := items[0];
            var s := ReserveStep(w, env, x.itemId, x.quantity);
            var r := ReserveFrom(w, env, items, acc);
            && (s.reply == Answered(StatusOK) ==>
                  && r == ReserveFrom(s.world, env, items[1..], acc + [ReservedItem(x.itemId, x.quantity)])
                  && |r.reserved| > |acc|)
            && (s.reply != Answered(StatusOK) ==>
                  r.world == s.world && r.reserved == acc && r.failure.Some? && r.failure.value.itemId == x.itemId)
  {
  }

  /** Reserving goes through the items in order: it returns exactly the reserved prefix. */
  lemma {:induction false} ReservePrefix(w: World, env: Env, items: seq<OrderItem>, acc: seq<ReservedItem>)
    ensures var r := ReserveFrom(w, env, items, acc);
            r.reserved == acc + AsReserved(items[..|r.reserved| - |acc|])
    decreases |items|
  {
    var r := ReserveFrom(w, env, items, acc);
    var k := |r.reserved| - |acc|;
    if items == [] {
      assert items[..0] == [];
    } else {
      var x := items[0];
      var s := ReserveStep(w, env, x.itemId, x.quantity);
      var y := ReservedItem(x.itemId, x.quantity);
      ReserveHead(w, env, items, acc);
      if s.reply == Answered(StatusOK) {
        ReservePrefix(s.world, env, items[1..], acc + [y]);
        AppendReservedStep(acc, items, k);
      } else {
        assert AsReserved(items[..0]) == [];
        assert acc + [] == acc;
      }
    }
  }

  /** Reserving stops at the first failure and names the item it stopped at, which is not among the reserved. */
  lemma {:induction false} ReserveStopsAt(w: World, env: Env, items: seq<OrderItem>, acc: seq<ReservedItem>)
    requires ReserveFrom(w, env, items, acc).failure.Some?
    ensures var r := ReserveFrom(w, env, items, acc);
            var k := |r.reserved| - |acc|;
            k < |items| && r.failure.value.itemId == items[k].itemId
    decreases |items|
  {
    var r := ReserveFrom(w, env, items, acc);
    var k := |r.reserved| - |acc|;
    var x := items[0];
    var s := ReserveStep(w, env, x.itemId, x.quantity);
    ReserveHead(w, env, items, acc);
    if s.reply == Answered(StatusOK) {
      ReserveStopsAt(s.world, env, items[1..], acc + [ReservedItem(x.itemId, x.quantity)]);
      assert items[1..][k - 1] == items[k];
    }
  }

  /** A reservation that got every item called reserve once per item, in order. */
  lemma {:induction false} ReserveLogComplete(w: World, env: Env, items: seq<OrderItem>, acc: seq<ReservedItem>)
    requires ReserveFrom(w, env, items, acc).failure.None?
    ensures ReserveFrom(w, env, items, acc).world.log == w.log + ReserveCalls(items)
    decreases |items|
  {
    if items != [] {
      var x := items[0];
      var s := ReserveStep(w, env, x.itemId, x.quantity);
      ReserveHead(w, env, items, acc);
      var y := ReservedItem(x.itemId, x.quantity);
      ReserveLogComplete(s.world, env, items[1..], acc + [y]);
      assert items[..|items|] == items;
      assert items[1..][..|items| - 1] == items[1..];
      AppendCallsStep(w.log, items, |items|);
    }
  }

  /**
   * A reservation that stopped at item `k` called reserve once per item, in
   * order, up to and including item `k`, and nothing after it.
   */
  lemma {:induction false} ReserveLogStopped(w: World, env: Env, items: seq<OrderItem>, acc: seq<ReservedItem>)
    requires ReserveFrom(w, env, items, acc).failure.Some?
    ensures var r := ReserveFrom(w, env, items, acc);
            var k := |r.reserved| - |acc|;
            k < |items| && r.world.log == w.log + ReserveCalls(items[..k + 1])
    decreases |items|
  {
    var r := ReserveFrom(w, env, items, acc);
    var k := |r.reserved| - |acc|;
    var x := items[0];
    var s := ReserveStep(w, env, x.itemId, x.quantity);
    ReserveHead(w, env, items, acc);
    if s.reply == Answered(StatusOK) {
      var y := ReservedItem(x.itemId, x.quantity);
      ReserveLogStopped(s.world, env, items[1..], acc + [y]);
      AppendCallsStep(w.log, items, k + 1);
    } else {
      AppendCallsStep(w.log, items, 1);
      assert ReserveCalls(items[1..][..0]) == [];
      assert s.world.log + [] == s.world.log;
    }
  }

  /** Every reserved item gets exactly one release call, in order, whatever the releases answer. */
  lemma {:induction false} ReleaseEachOnce(w: World, env: Env, reserved: seq<ReservedItem>)
    ensures ReleaseAll(w, env, reserved).log == w.log + ReleaseCalls(reserved)
    decreases |reserved|
  {
    if reserved != [] {
      var x := reserved[0];
      var s := ReleaseStep(w, env, x.itemId, x.quantity);
      ReleaseEachOnce(s.world, env, reserved[1..]);
      assert ReleaseCalls(reserved) == [ReleaseCall(x.itemId, x.quantity)] + ReleaseCalls(reserved[1..]);
    }
  }

  /** An event whose reservation stops early takes the cancellation path with what was reserved. */
  lemma CancelOutcome(w: World, env: Env, wiring: Wiring, e: OrderCreatedEvent)
    requires ReserveFrom(w, env, e.items.Elems(), []).failure.Some?
    ensures var res := ReserveFrom(w, env, e.items.Elems(), []);
            HandleOutcome(w, env, wiring, Some(e)) == CancelPath(res.world, env, wiring, e, res.reserved)
  {
  }

  /** An event whose every item was reserved takes the confirmation path. */
  lemma ConfirmOutcome(w: World, env: Env, wiring: Wiring, e: OrderCreatedEvent)
    requires ReserveFrom(w, env, e.items.Elems(), []).failure.None?
    ensures HandleOutcome(w, env, wiring, Some(e)) == ConfirmPath(ReserveFrom(w, env, e.items.Elems(), []).world, env, wiring, e)
  {
  }

  /**
   * The cancellation path releases `reserved`, then sets the order
   * `cancelled`, then sends the cancellation email, in that order; if the
   * status update fails it returns that error and sends no email.
   */
  lemma CancelPathLog(w: World, env: Env, wiring: Wiring, e: OrderCreatedEvent, reserved: seq<ReservedItem>)
    ensures var r := CancelPath(w, env, wiring, e, reserved);
            var calls := w.log + ReleaseCalls(reserved) + [StatusCall(e.orderId, Cancelled)];
            && r.err in {None, Some(CancelFailed), Some(CancelEmailFailed)}
            && (r.err == Some(CancelFailed) ==> r.world.log == calls && r.world.outbox == w.outbox)
            && (r.err != Some(CancelFailed) ==> r.world.log == calls + [EmailCall(CancellationEmail(e))])
            && (r.err == None ==> r.world.outbox == w.outbox + [CancellationEmail(e)])
  {
    ReleaseEachOnce(w, env, reserved);
  }

  /**
   * When reserving fails the saga releases the reserved prefix, then sets the
   * order `cancelled`, then sends the cancellation email.
   */
  lemma CancellationSequence(w: World, env: Env, wiring: Wiring, e: OrderCreatedEvent)
    requires ReserveFrom(w, env, e.items.Elems(), []).failure.Some?
    ensures var items := e.items.Elems();
            var res := ReserveFrom(w, env, items, []);
            var k := |res.reserved|;
            var r := HandleOutcome(w, env, wiring, Some(e));
            var calls := w.log + ReserveCalls(items[..k + 1]) + ReleaseCalls(AsReserved(items[..k]))
                         + [StatusCall(e.orderId, Cancelled)];
            && k < |items| && res.reserved == AsReserved(items[..k])
            && r.err in {None, Some(CancelFailed), Some(CancelEmailFailed)}
            && (r.err == Some(CancelFailed) ==> r.world.log == calls && r.world.outbox == w.outbox)
            && (r.err != Some(CancelFailed) ==> r.world.log == calls + [EmailCall(CancellationEmail(e))])
            && (r.err == None ==> r.world.outbox == w.outbox + [CancellationEmail(e)])
  {
    var items := e.items.Elems();
    var nil: seq<ReservedItem> := [];
    var res := ReserveFrom(w, env, items, nil);
    ReservePrefix(w, env, items, nil);
    ReserveStopsAt(w, env, items, nil);
    ReserveLogStopped(w, env, items, nil);
    EmptyPrefix(AsReserved(items[..|res.reserved|]));
    CancelPathLog(res.world, env, wiring, e, res.reserved);
    CancelOutcome(w, env, wiring, e);
  }

  /**
   * The confirmation path sends the confirmation email first and sets
   * `confirmed` only after it was accepted; a failed email leaves the
   * order's status as it was.
   */
  lemma ConfirmPathLog(w: World, env: Env, wiring: Wiring, e: OrderCreatedEvent)
    ensures var r := ConfirmPath(w, env, wiring, e);
            var calls := w.log + [EmailCall(ConfirmationEmail(e))];
            && r.err in {None, Some(ConfirmEmailFailed), Some(ConfirmFailed)}
            && (r.err == Some(ConfirmEmailFailed) ==> r.world.log == calls && r.world.orders == w.orders)
            && (r.err != Some(ConfirmEmailFailed) ==> r.world.log == calls + [StatusCall(e.orderId, Confirmed)])
            && (r.err == None ==> r.world.outbox == w.outbox + [ConfirmationEmail(e)])
  {
  }

  /** When every item is reserved the saga releases nothing and goes on to the confirmation email. */
  lemma ConfirmationSequence(w: World, env: Env, wiring: Wiring, e: OrderCreatedEvent)
    requires ReserveFrom(w, env, e.items.Elems(), []).failure.None?
    ensures var items := e.items.Elems();
            var r := HandleOutcome(w, env, wiring, Some(e));
            var calls := w.log + ReserveCalls(items) + [EmailCall(ConfirmationEmail(e))];
            && ReserveFrom(w, env, items, []).reserved == AsReserved(items)
            && r.err in {None, Some(ConfirmEmailFailed), Some(ConfirmFailed)}
            && (r.err == Some(ConfirmEmailFailed) ==> r.world.log == calls && r.world.orders == w.orders)
            && (r.err != Some(ConfirmEmailFailed) ==> r.world.log == calls + [StatusCall(e.orderId, Confirmed)])
            && (r.err == None ==> r.world.outbox == w.outbox + [ConfirmationEmail(e)])
  {
    var items := e.items.Elems();
    var nil: seq<ReservedItem> := [];
    var res := ReserveFrom(w, env, items, nil);
    ReservePrefix(w, env, items, nil);
    ReserveLogComplete(w, env, items, nil);
    assert items[..|items|] == items;
    EmptyPrefix(AsReserved(items));
    ConfirmPathLog(res.world, env, wiring, e);
    ConfirmOutcome(w, env, wiring, e);
  }

  /** An event without items reserves nothing and goes straight to the confirmation email. */
  lemma EmptyOrderTakesConfirmationPath(w: World, env: Env, wiring: Wiring, e: OrderCreatedEvent)
    requires e.items.Elems() == []
    ensures var r := HandleOutcome(w, env, wiring, Some(e));
            && r.err !in {Some(CancelFailed), Some(CancelEmailFailed)}
            && |r.world.log| > |w.log|
            && r.world.log[..|w.log| + 1] == w.log + [EmailCall(ConfirmationEmail(e))]
            && r.world.ledger == w.ledger
  {
    var items := e.items.Elems();
    var res := ReserveFrom(w, env, items, []);
    assert res == Reservation(w, [], None);
    ConfirmationSequence(w, env, wiring, e);
    ConfirmOutcome(w, env, wiring, e);
    var r := HandleOutcome(w, env, wiring, Some(e));
    var m := EmailCall(ConfirmationEmail(e));
    assert ReserveCalls(items) == [];
    assert w.log + ReserveCalls(items) + [m] == w.log + [m];
    assert r.world.log[..|w.log| + 1] == w.log + [m];
  }

  /** The confirmation of an event without items says it has 0 items. */
  lemma EmptyOrderEmailBody(e: OrderCreatedEvent)
    requires e.items.Elems() == []
    ensures ConfirmationEmail(e).body == "Your order " + e.orderId + " has been confirmed with 0 items."
  {
    assert Strings.DecimalString(0) == "0";
    var head := "Your order " + e.orderId;
    assert head + " has been confirmed with " + "0" + " items." == head + " has been confirmed with 0 items.";
  }

  /** Under the orders service's own routes the status update always fails, so `Handle` never succeeds. */
  lemma MainWiringNeverSucceeds(w: World, env: Env, payload: Option<OrderCreatedEvent>)
    ensures var r := HandleOutcome(w, env, MainWiring, payload);
            r.err.Some? && r.world.orders == w.orders
  {
  }

  /** The confirmation goes to the customer and names the order in its subject. */
  lemma ConfirmationNamesOrder(e: OrderCreatedEvent)
    ensures ConfirmationEmail(e).to == e.customerId + "@example.com"
    ensures Strings.Contains(ConfirmationEmail(e).subject, "Confirmation")
    ensures Strings.Contains(ConfirmationEmail(e).subject, e.orderId)
  {
    var id := e.orderId;
    assert Strings.OccursAt("Order Confirmation: ", "Confirmation", 6);
    Strings.ContainsInPrefix("Order Confirmation: ", id, "Confirmation");
    assert Strings.OccursAt(id, id, 0);
    Strings.ContainsInSuffix("Order Confirmation: ", id, id);
  }

  /** The cancellation goes to the customer and names the order in its subject. */
  lemma CancellationNamesOrder(e: OrderCreatedEvent)
    ensures CancellationEmail(e).to == e.customerId + "@example.com"
    ensures Strings.Contains(CancellationEmail(e).subject, "Cancelled")
    ensures Strings.Contains(CancellationEmail(e).subject, e.orderId)
  {
    var id := e.orderId;
    assert Strings.OccursAt("Order Cancelled: ", "Cancelled", 6);
    Strings.ContainsInPrefix("Order Cancelled: ", id, "Cancelled");
    assert Strings.OccursAt(id, id, 0);
    Strings.ContainsInSuffix("Order Cancelled: ", id, id);
  }

  /** The cancellation tells the customer they will be reimbursed. */
  lemma CancellationPromisesRefund(e: OrderCreatedEvent)
    ensures Strings.Contains(CancellationEmail(e).body, "reimbursed")
  {
    var tail := ". You will be reimbursed.";
    assert Strings.OccursAt(tail, "reimbursed", 14);
    Strings.ContainsInSuffix("Your order " + e.orderId + " has been cancelled due to " + "insufficient stock", tail, "reimbursed");
  }

  // ---------------------------------------------------------------------
  // The ledger across a saga, when nothing fails
  // ---------------------------------------------------------------------

  /** The units `p` holds of item `id`. */
  function Held(p: seq<ReservedItem>, id: string): int {
    if p == [] then 0
    else Held(p[..|p| - 1], id) + (if p[|p| - 1].itemId == id then p[|p| - 1].quantity else 0)
  }

  /** `m` is `m0` with the units of `p` moved from available to reserved. */
  ghost predicate Holds(m0: InventoryRepo.Ledger, m: InventoryRepo.Ledger, p: seq<ReservedItem>) {
    && (forall id :: id in m <==> id in m0)
    && forall id :: id in m0 ==> m[id] == InventoryRepo.Shift(m0[id], Held(p, id))
  }

  /** Items that were reserved: each has an id the ledger knows and a non-negative quantity. */
  ghost predicate Releasable(m0: InventoryRepo.Ledger, p: seq<ReservedItem>) {
    forall i :: 0 <= i < |p| ==> p[i].itemId != "" && p[i].itemId in m0 && p[i].quantity >= 0
  }

  lemma {:induction false} HeldCons(x: ReservedItem, p: seq<ReservedItem>, id: string)
    ensures Held([x] + p, id) == (if x.itemId == id then x.quantity else 0) + Held(p, id)
    decreases |p|
  {
    if p != [] {
      var p' := p[..|p| - 1];
      assert ([x] + p)[..|p|] == [x] + p';
      HeldCons(x, p', id);
    }
  }

  lemma {:induction false} HeldAppend(p: seq<ReservedItem>, q: seq<ReservedItem>, id: string)
    ensures Held(p + q, id) == Held(p, id) + Held(q, id)
    decreases |q|
  {
    if q == [] {
      assert p + q == p;
    } else {
      var q' := q[..|q| - 1];
      var pq := p + q;
      assert pq[..|pq| - 1] == p + q';
      assert pq[|pq| - 1] == q[|q| - 1];
      HeldAppend(p, q', id);
    }
  }

  lemma {:induction false} HeldNonNegative(m0: InventoryRepo.Ledger, p: seq<ReservedItem>, id: string)
    requires Releasable(m0, p)
    ensures Held(p, id) >= 0
    decreases |p|
  {
    if p != [] {
      HeldNonNegative(m0, p[..|p| - 1], id);
    }
  }

  /** A healthy reserve call answers, and changes the ledger only when it answers 200. */
  lemma HealthyReserve(w: World, itemId: string, q: int)
    ensures var s := ReserveStep(w, NoFaults, itemId, q);
            && s.reply.Answered?
            && (s.reply.status == StatusOK <==> itemId != "" && itemId in w.ledger && w.ledger[itemId].available >= q)
            && (s.reply.status != StatusOK ==> s.world.ledger == w.ledger)
  {
  }

  lemma HoldsAfterReserve(m0: InventoryRepo.Ledger, m: InventoryRepo.Ledger, p: seq<ReservedItem>,
                          m': InventoryRepo.Ledger, x: ReservedItem)
    requires Holds(m0, m, p) && InventoryRepo.MovedOnly(m, m', x.itemId, x.quantity)
    ensures Holds(m0, m', p + [x])
  {
    assert (p + [x])[..|p|] == p;
  }

  /** With no faults, every item reserving reserved names an item of the ledger. */
  lemma {:induction false} ReservedAreKnown(w: World, items: seq<OrderItem>, acc: seq<ReservedItem>)
    ensures var r := ReserveFrom(w, NoFaults, items, acc);
            forall i :: 0 <= i < |r.reserved| - |acc| ==> items[i].itemId != "" && items[i].itemId in w.ledger
    decreases |items|
  {
    if items != [] {
      var r := ReserveFrom(w, NoFaults, items, acc);
      var x := items[0];
      var s := ReserveStep(w, NoFaults, x.itemId, x.quantity);
      HealthyReserve(w, x.itemId, x.quantity);
      if s.reply == Answered(StatusOK) {
        var y := ReservedItem(x.itemId, x.quantity);
        assert r == ReserveFrom(s.world, NoFaults, items[1..], acc + [y]);
        ReservedAreKnown(s.world, items[1..], acc + [y]);
        forall i | 1 <= i < |r.reserved| - |acc|
          ensures items[i].itemId != "" && items[i].itemId in w.ledger
        {
          assert items[1..][i - 1] == items[i];
        }
      }
    }
  }

  /** With no faults, reserving moves exactly the units of the items it reserved. */
  lemma {:induction false} ReserveMoves(m0: InventoryRepo.Ledger, w: World, items: seq<OrderItem>,
                                        acc: seq<ReservedItem>, p: seq<ReservedItem>)
    requires Holds(m0, w.ledger, p)
    ensures var r := ReserveFrom(w, NoFaults, items, acc);
            Holds(m0, r.world.ledger, p + AsReserved(items[..|r.reserved| - |acc|]))
    decreases |items|
  {
    var r := ReserveFrom(w, NoFaults, items, acc);
    var k := |r.reserved| - |acc|;
    if items == [] {
      assert p + AsReserved(items[..0]) == p;
    } else {
      var x := items[0];
      var s := ReserveStep(w, NoFaults, x.itemId, x.quantity);
      var y := ReservedItem(x.itemId, x.quantity);
      ReserveHead(w, NoFaults, items, acc);
      if s.reply == Answered(StatusOK) {
        HoldsAfterReserve(m0, w.ledger, p, s.world.ledger, y);
        ReserveMoves(m0, s.world, items[1..], acc + [y], p + [y]);
        AppendReservedStep(p, items, k);
      } else {
        HealthyReserve(w, x.itemId, x.quantity);
        assert p + AsReserved(items[..0]) == p;
      }
    }
  }

  /** With no faults, a reservation that got every item holds exactly every item's quantity. */
  lemma ReserveAllHolds(m0: InventoryRepo.Ledger, w: World, items: seq<OrderItem>, p: seq<ReservedItem>)
    requires Holds(m0, w.ledger, p)
    requires ReserveFrom(w, NoFaults, items, []).failure.None?
    ensures Holds(m0, ReserveFrom(w, NoFaults, items, []).world.ledger, p + AsReserved(items))
  {
    var nil: seq<ReservedItem> := [];
    var res := ReserveFrom(w, NoFaults, items, nil);
    ReserveMoves(m0, w, items, nil, p);
    assert |res.reserved| - |nil| == |items|;
    assert items[..|items|] == items;
  }

  /**
   * With no faults, releasing what was reserved, in the order it was
   * reserved, brings every row back to its value before the saga.
   */
  lemma {:induction false} ReleaseRestores(m0: InventoryRepo.Ledger, w: World, p: seq<ReservedItem>)
    requires InventoryRepo.NonNegative(m0) && Releasable(m0, p) && Holds(m0, w.ledger, p)
    ensures ReleaseAll(w, NoFaults, p).ledger == m0
    decreases |p|
  {
    if p == [] {
      assert forall id :: id in m0 ==> w.ledger[id] == m0[id];
      assert w.ledger == m0;
    } else {
      var x := p[0];
      var rest := p[1..];
      assert p == [x] + rest;
      HeldCons(x, rest, x.itemId);
      HeldNonNegative(m0, rest, x.itemId);
      var s := ReleaseStep(w, NoFaults, x.itemId, x.quantity);
      assert s.world.ledger == w.ledger[x.itemId := InventoryRepo.Shift(w.ledger[x.itemId], -x.quantity)];
      forall id | id in m0
        ensures s.world.ledger[id] == InventoryRepo.Shift(m0[id], Held(rest, id))
      {
        HeldCons(x, rest, id);
      }
      ReleaseRestores(m0, s.world, rest);
    }
  }

  /** A status update of an existing order that meets no fault answers 200 under the integration tests' routes. */
  lemma HealthyStatusUpdate(w: World, env: Env, orderId: string, status: OrderStatus)
    requires orderId != "" && orderId in w.orders
    requires |w.log| !in env.transport && |w.log| !in env.ordersDb
    ensures StatusStep(w, env, TestWiring, orderId, status).reply == Answered(StatusOK)
  {
  }

  /** With nothing failing, the confirmation path sends one email and then confirms the order. */
  lemma HealthyConfirmPath(w: World, e: OrderCreatedEvent)
    requires e.orderId != "" && e.orderId in w.orders
    ensures ConfirmPath(w, NoFaults, TestWiring, e)
            == SagaResult(w.(orders := w.orders[e.orderId := w.orders[e.orderId].(status := Confirmed)],
                             outbox := w.outbox + [ConfirmationEmail(e)],
                             log := w.log + [EmailCall(ConfirmationEmail(e)), StatusCall(e.orderId, Confirmed)]),
                          None)
  {
    var mail := EmailStep(w, NoFaults, ConfirmationEmail(e));
    HealthyStatusUpdate(mail.world, NoFaults, e.orderId, Confirmed);
  }

  /**
   * With nothing failing, the cancellation path puts back what was reserved,
   * cancels the order and sends one email.
   */
  lemma HealthyCancelPath(m0: InventoryRepo.Ledger, w: World, e: OrderCreatedEvent, p: seq<ReservedItem>)
    requires InventoryRepo.NonNegative(m0) && Releasable(m0, p) && Holds(m0, w.ledger, p)
    requires e.orderId != "" && e.orderId in w.orders
    ensures var r := CancelPath(w, NoFaults, TestWiring, e, p);
            && r.err == None
            && r.world.ledger == m0
            && r.world.orders == w.orders[e.orderId := w.orders[e.orderId].(status := Cancelled)]
            && r.world.outbox == w.outbox + [CancellationEmail(e)]
  {
    ReleaseRestores(m0, w, p);
    var released := ReleaseAll(w, NoFaults, p);
    HealthyStatusUpdate(released, NoFaults, e.orderId, Cancelled);
  }

  /**
   * A stock rejection, with nothing else failing: `Handle` returns no error,
   * the order ends `cancelled`, every row of the ledger is back at its value
   * before the saga, and exactly one email, the cancellation, is sent.
   */
  lemma StockRejectionRestores(w: World, e: OrderCreatedEvent)
    requires InventoryRepo.NonNegative(w.ledger)
    requires forall i :: 0 <= i < |e.items.Elems()| ==> e.items.Elems()[i].quantity >= 0
    requires e.orderId != "" && e.orderId in w.orders
    requires ReserveFrom(w, NoFaults, e.items.Elems(), []).failure.Some?
    ensures var r := HandleOutcome(w, NoFaults, TestWiring, Some(e));
            && r.err == None
            && r.world.ledger == w.ledger
            && r.world.orders == w.orders[e.orderId := w.orders[e.orderId].(status := Cancelled)]
            && r.world.outbox == w.outbox + [CancellationEmail(e)]
  {
    var items := e.items.Elems();
    var nil: seq<ReservedItem> := [];
    var res := ReserveFrom(w, NoFaults, items, nil);
    var k := |res.reserved|;
    assert Holds(w.ledger, w.ledger, nil);
    ReserveMoves(w.ledger, w, items, nil, nil);
    ReservePrefix(w, NoFaults, items, nil);
    ReservedAreKnown(w, items, nil);
    var p := AsReserved(items[..k]);
    assert nil + p == p;
    assert res.reserved == p;
    assert Holds(w.ledger, res.world.ledger, p);
    forall i | 0 <= i < |p|
      ensures p[i].itemId != "" && p[i].itemId in w.ledger && p[i].quantity >= 0
    {
      assert p[i].itemId == items[i].itemId && p[i].quantity == items[i].quantity;
    }
    assert Releasable(w.ledger, p);
    HealthyCancelPath(w.ledger, res.world, e, p);
    CancelOutcome(w, NoFaults, TestWiring, e);
  }

  /**
   * Every item reserved, with nothing failing: `Handle` returns no error, the
   * order ends `confirmed`, the ledger holds every item's quantity, and
   * exactly one email, the confirmation, is sent.
   */
  lemma HappySagaConfirms(w: World, e: OrderCreatedEvent)
    requires e.orderId != "" && e.orderId in w.orders
    requires ReserveFrom(w, NoFaults, e.items.Elems(), []).failure.None?
    ensures var r := HandleOutcome(w, NoFaults, TestWiring, Some(e));
            && r.err == None
            && Holds(w.ledger, r.world.ledger, AsReserved(e.items.Elems()))
            && r.world.orders == w.orders[e.orderId := w.orders[e.orderId].(status := Confirmed)]
            && r.world.outbox == w.outbox + [ConfirmationEmail(e)]
  {
    var items := e.items.Elems();
    var res := ReserveFrom(w, NoFaults, items, []);
    var nil: seq<ReservedItem> := [];
    assert Holds(w.ledger, w.ledger, nil);
    ReserveAllHolds(w.ledger, w, items, nil);
    EmptyPrefix(AsReserved(items));
    HealthyConfirmPath(res.world, e);
    ConfirmOutcome(w, NoFaults, TestWiring, e);
  }

  /** The integration test's happy order: five units of one item leave `available - 5` and `reserved + 5`. */
  lemma OneItemOrderReserves(w: World, e: OrderCreatedEvent, x: OrderItem)
    requires e.orderId != "" && e.orderId in w.orders
    requires e.items.Elems() == [x] && x.itemId != "" && x.itemId in w.ledger
    requires w.ledger[x.itemId].available >= x.quantity
    ensures var r := HandleOutcome(w, NoFaults, TestWiring, Some(e));
            && r.err == None && x.itemId in r.world.ledger
            && r.world.ledger[x.itemId].available == w.ledger[x.itemId].available - x.quantity
            && r.world.ledger[x.itemId].reserved == w.ledger[x.itemId].reserved + x.quantity
  {
    var s := ReserveStep(w, NoFaults, x.itemId, x.quantity);
    HealthyReserve(w, x.itemId, x.quantity);
    assert e.items.Elems()[1..] == [];
    HappySagaConfirms(w, e);
    assert AsReserved([x]) == [ReservedItem(x.itemId, x.quantity)];
    assert Held(AsReserved([x]), x.itemId) == x.quantity;
  }

  /**
   * `Handle` keeps nothing between events, so the same event delivered twice
   * is processed twice: the items are reserved twice and two confirmations
   * are sent.
   */
  lemma RedeliveryReservesTwice(w: World, e: OrderCreatedEvent)
    requires e.orderId != "" && e.orderId in w.orders
    requires ReserveFrom(w, NoFaults, e.items.Elems(), []).failure.None?
    requires ReserveFrom(HandleOutcome(w, NoFaults, TestWiring, Some(e)).world, NoFaults, e.items.Elems(), []).failure.None?
    ensures var r1 := HandleOutcome(w, NoFaults, TestWiring, Some(e));
            var r2 := HandleOutcome(r1.world, NoFaults, TestWiring, Some(e));
            var once := AsReserved(e.items.Elems());
            && r1.err == None && r2.err == None
            && Holds(w.ledger, r2.world.ledger, once + once)
            && r2.world.outbox == w.outbox + [ConfirmationEmail(e), ConfirmationEmail(e)]
  {
    var items := e.items.Elems();
    var once := AsReserved(items);
    HappySagaConfirms(w, e);
    var w1 := HandleOutcome(w, NoFaults, TestWiring, Some(e)).world;
    var res := ReserveFrom(w1, NoFaults, items, []);
    ReserveAllHolds(w.ledger, w1, items, once);
    HealthyConfirmPath(res.world, e);
    ConfirmOutcome(w1, NoFaults, TestWiring, e);
    AppendTwice(w.outbox, ConfirmationEmail(e));
  }

  /** A reserve call whose answer is lost still moves the stock when the service can serve it. */
  lemma LostReserve(w: World, env: Env, itemId: string, q: int)
    requires |w.log| in env.transport && env.transport[|w.log|] == Lost && |w.log| !in env.inventoryDb
    requires itemId != "" && itemId in w.ledger && w.ledger[itemId].available >= q
    ensures var s := ReserveStep(w, env, itemId, q);
            s.reply == TransportError && InventoryRepo.MovedOnly(w.ledger, s.world.ledger, itemId, q)
  {
  }

  lemma AppendThree<T>(s: seq<T>, a: T, b: T, c: T)
    ensures s + [a] + [b] + [c] == s + [a, b, c]
  {
  }

  /**
   * A reservation whose answer is lost in transit is applied by the inventory
   * service but never released: the order is cancelled and the units stay held.
   */
  lemma LostReservationLeaks(w: World, e: OrderCreatedEvent, x: OrderItem)
    requires e.orderId != "" && e.orderId in w.orders
    requires e.items.Elems() == [x] && x.itemId != "" && x.itemId in w.ledger
    requires w.ledger[x.itemId].available >= x.quantity
    ensures var env := Env(map[|w.log| := Lost], map[], map[]);
            var r := HandleOutcome(w, env, TestWiring, Some(e));
            && r.err == None
            && r.world.orders == w.orders[e.orderId := w.orders[e.orderId].(status := Cancelled)]
            && InventoryRepo.MovedOnly(w.ledger, r.world.ledger, x.itemId, x.quantity)
            && r.world.log == w.log + [ReserveCall(x.itemId, x.quantity), StatusCall(e.orderId, Cancelled),
                                       EmailCall(CancellationEmail(e))]
  {
    var env := Env(map[|w.log| := Lost], map[], map[]);
    var items := e.items.Elems();
    var s := ReserveStep(w, env, x.itemId, x.quantity);
    LostReserve(w, env, x.itemId, x.quantity);
    ReserveHead(w, env, items, []);
    CancelOutcome(w, env, TestWiring, e);
    var released := ReleaseAll(s.world, env, []);
    assert released == s.world;
    var cancel := StatusStep(released, env, TestWiring, e.orderId, Cancelled);
    HealthyStatusUpdate(released, env, e.orderId, Cancelled);
    var mail := EmailStep(cancel.world, env, CancellationEmail(e));
    assert mail.reply == Answered(StatusOK);
    assert CancelPath(s.world, env, TestWiring, e, []) == SagaResult(mail.world, None);
    AppendThree(w.log, ReserveCall(x.itemId, x.quantity), StatusCall(e.orderId, Cancelled), EmailCall(CancellationEmail(e)));
  }


  /**
   * A negative quantity defeats compensation. Items `[A:5, A:-5, B:1]` with
   * `A` at (10, 0) and no row `B`: both reserves of `A` succeed and leave it at
   * (10, 0), `B` answers 404, and then the release of 5 fails its
   * `reserved >= 5` guard while the release of -5 succeeds, so `A` ends at (5, 5).
   */
  lemma NegativeQuantityDefeatsRestore(w: World, e: OrderCreatedEvent)
    requires w.ledger == map["ITEM-001" := StockLevel("ITEM-001", 10, 0)]
    requires e.items.Elems() == [OrderItem("ITEM-001", 5, 100), OrderItem("ITEM-001", -5, 100), OrderItem("ITEM-002", 1, 100)]
    ensures HandleOutcome(w, NoFaults, TestWiring, Some(e)).world.ledger
            == map["ITEM-001" := StockLevel("ITEM-001", 5, 5)]
  {
    NegativeReservePhase(w, e.items.Elems());
    CancelOutcome(w, NoFaults, TestWiring, e);
    var res := ReserveFrom(w, NoFaults, e.items.Elems(), []);
    NegativeReleasePhase(res.world);
  }

  /** A healthy reserve of a known item with enough available stock answers 200 and moves `q` units of that row. */
  lemma ReserveGranted(w: World, itemId: string, q: int)
    requires itemId != "" && itemId in w.ledger && w.ledger[itemId].available >= q
    ensures var s := ReserveStep(w, NoFaults, itemId, q);
            && s.reply == Answered(StatusOK)
            && s.world.ledger == w.ledger[itemId := InventoryRepo.Shift(w.ledger[itemId], q)]
  {
  }

  /** A healthy reserve of an item the ledger lacks answers 404 and changes no row. */
  lemma ReserveUnknown(w: World, itemId: string, q: int)
    requires itemId != "" && itemId !in w.ledger
    ensures var s := ReserveStep(w, NoFaults, itemId, q);
            s.reply == Answered(StatusNotFound) && s.world.ledger == w.ledger
  {
  }

  /** A healthy release of a known item with at least `q` units reserved moves them back. */
  lemma ReleaseGranted(w: World, itemId: string, q: int)
    requires itemId != "" && itemId in w.ledger && w.ledger[itemId].reserved >= q
    ensures ReleaseStep(w, NoFaults, itemId, q).world.ledger == w.ledger[itemId := InventoryRepo.Shift(w.ledger[itemId], -q)]
  {
  }

  /** A healthy release of more units than are reserved changes no row. */
  lemma ReleaseRefused(w: World, itemId: string, q: int)
    requires itemId in w.ledger && w.ledger[itemId].reserved < q
    ensures ReleaseStep(w, NoFaults, itemId, q).world.ledger == w.ledger
  {
  }

  /** Three items of which the first two reserve and the third does not: reserving stops with the first two held. */
  lemma ReserveStopsAtThird(w: World, x: OrderItem, y: OrderItem, z: OrderItem)
    requires ReserveStep(w, NoFaults, x.itemId, x.quantity).reply == Answered(StatusOK)
    requires ReserveStep(ReserveStep(w, NoFaults, x.itemId, x.quantity).world, NoFaults, y.itemId, y.quantity).reply
             == Answered(StatusOK)
    ensures var w2 := ReserveStep(ReserveStep(w, NoFaults, x.itemId, x.quantity).world, NoFaults, y.itemId, y.quantity).world;
            var res := ReserveFrom(w, NoFaults, [x, y, z], []);
            ReserveStep(w2, NoFaults, z.itemId, z.quantity).reply != Answered(StatusOK) ==>
              && res.failure.Some?
              && res.reserved == [ReservedItem(x.itemId, x.quantity), ReservedItem(y.itemId, y.quantity)]
              && res.world == ReserveStep(w2, NoFaults, z.itemId, z.quantity).world
  {
    var items := [x, y, z];
    var w1 := ReserveStep(w, NoFaults, x.itemId, x.quantity).world;
    var w2 := ReserveStep(w1, NoFaults, y.itemId, y.quantity).world;
    var nil: seq<ReservedItem> := [];
    var one := [ReservedItem(x.itemId, x.quantity)];
    var two := one + [ReservedItem(y.itemId, y.quantity)];
    assert items[1..] == [y, z] && [y, z][1..] == [z];
    assert nil + one == one;
    ReserveHead(w, NoFaults, items, nil);
    ReserveHead(w1, NoFaults, [y, z], one);
    ReserveHead(w2, NoFaults, [z], two);
  }

  /** The reserve phase of `NegativeQuantityDefeatsRestore`: two reserves of `A` cancel out, then `B` fails. */
  lemma NegativeReservePhase(w: World, items: seq<OrderItem>)
    requires w.ledger == map["ITEM-001" := StockLevel("ITEM-001", 10, 0)]
    requires items == [OrderItem("ITEM-001", 5, 100), OrderItem("ITEM-001", -5, 100), OrderItem("ITEM-002", 1, 100)]
    ensures var res := ReserveFrom(w, NoFaults, items, []);
            && res.failure.Some?
            && res.reserved == [ReservedItem("ITEM-001", 5), ReservedItem("ITEM-001", -5)]
            && res.world.ledger == w.ledger
  {
    ReserveGranted(w, "ITEM-001", 5);
    var s1 := ReserveStep(w, NoFaults, "ITEM-001", 5);
    ReserveGranted(s1.world, "ITEM-001", -5);
    var s2 := ReserveStep(s1.world, NoFaults, "ITEM-001", -5);
    assert s2.world.ledger == w.ledger;
    ReserveUnknown(s2.world, "ITEM-002", 1);
    ReserveStopsAtThird(w, items[0], items[1], items[2]);
    assert items == [items[0], items[1], items[2]];
  }

  /** The release phase of `NegativeQuantityDefeatsRestore`: the release of 5 is refused, the release of -5 applies. */
  lemma NegativeReleasePhase(w: World)
    requires w.ledger == map["ITEM-001" := StockLevel("ITEM-001", 10, 0)]
    ensures ReleaseAll(w, NoFaults, [ReservedItem("ITEM-001", 5), ReservedItem("ITEM-001", -5)]).ledger
            == map["ITEM-001" := StockLevel("ITEM-001", 5, 5)]
  {
    var reserved := [ReservedItem("ITEM-001", 5), ReservedItem("ITEM-001", -5)];
    ReleaseRefused(w, "ITEM-001", 5);
    var r1 := ReleaseStep(w, NoFaults, "ITEM-001", 5);
    ReleaseGranted(r1.world, "ITEM-001", -5);
    var r2 := ReleaseStep(r1.world, NoFaults, "ITEM-001", -5);
    assert ReleaseAll(r1.world, NoFaults, reserved[1..]) == ReleaseAll(r2.world, NoFaults, []);
  }
}
