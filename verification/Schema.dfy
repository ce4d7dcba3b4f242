/** The rows of the database and the messages of the broker. */
module Schema {

  datatype Option<+T> = None | Some(value: T)

  /** Only equality of idempotency keys matters to the protocol. */
  datatype Key = Key(text: string)

  datatype UserStatus = Active | Banned

  /** The arguments of one purchase call. */
  datatype Request = Request(userId: int, productId: int, count: int, key: Key)

  /** A row of `orders`; order_id is the key of the table. */
  datatype Order = Order(userId: int, productId: int, count: int, key: Key)

  /** The JSON body of an `order.created` event. */
  datatype Payload = Payload(orderId: int, userId: int, productId: int, count: int)

  function Max(a: int, b: int): int {
    if a < b then b else a
  }

  function OrderOf(q: Request): Order {
    Order(q.userId, q.productId, q.count, q.key)
  }

  function PayloadOf(orderId: int, o: Order): Payload {
    Payload(orderId, o.userId, o.productId, o.count)
  }

  datatype Status = Pending | Processing | Sent | Dlq

  /** A row of `outbox_events`; times are microseconds on one clock, None is SQL NULL. */
  datatype Row = Row(
    payload: Payload,
    status: Status,
    retryCount: int,
    nextRetryAt: Option<int>,
    error: Option<string>,
    sentAt: Option<int>,
    updatedAt: int,
    createdAt: int)
}
