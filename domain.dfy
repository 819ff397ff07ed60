/**
 * The plain records of the order-fulfilment system: line items, orders,
 * stock levels and the "order created" event. They carry no behaviour.
 */
module Domain {

  /** Order statuses are free-form strings in the system; these are the four named ones. */
  type OrderStatus = string

  const Pending: OrderStatus := "pending"
  const Confirmed: OrderStatus := "confirmed"
  const Shipped: OrderStatus := "shipped"
  const Cancelled: OrderStatus := "cancelled"

  /** Raw bytes, as carried by message values and request bodies. */
  type Byte = x: int | 0 <= x < 256
  type Bytes = seq<Byte>

  /**
   * A slice as the source language has it: `Nil` (never allocated, encodes
   * as JSON `null`) or an allocated sequence (encodes as an array, maybe `[]`).
   */
  datatype Slice<T> = Nil | Made(elems: seq<T>) {
    function Elems(): seq<T> {
      if Nil? then [] else elems
    }

    /** Appending to a slice always yields an allocated one. */
    function Append(x: T): (r: Slice<T>)
      ensures r.Made? && r.Elems() == Elems() + [x]
    {
      Made(Elems() + [x])
    }
  }

  datatype OrderItem = OrderItem(itemId: string, quantity: int, price: int)

  /** Timestamps are opaque instants, represented by integers. */
  type Timestamp = int

  datatype Order = Order(
    id: string,
    customerId: string,
    items: Slice<OrderItem>,
    total: int,
    status: OrderStatus,
    createdAt: Timestamp)

  datatype StockLevel = StockLevel(itemId: string, available: int, reserved: int)

  datatype OrderCreatedEvent = OrderCreatedEvent(
    orderId: string,
    customerId: string,
    items: Slice<OrderItem>,
    timestamp: Timestamp)
}
