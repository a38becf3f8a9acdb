/**
 * The entities of the order service: the persisted order with its single
 * snapshot item, the product record fetched from the product service, the
 * creation request, the two status enumerations, the errors an operation can
 * end with, and the calls the service makes to its two remote gateways.
 *
 * Money (BigDecimal in the service) is an integer number of cents; a
 * LocalDateTime is an integer number of minutes.
 */
module OrderModel {

  datatype Option<T> = None | Some(value: T)

  /** Lifecycle states. EXPIRED is used by the service although the enum
      declaration lacks it; it is part of this model. */
  datatype OrderStatus = PENDING | CONFIRMED | PROCESSING | SHIPPED | DELIVERED | CANCELLED | EXPIRED

  /** Declared with the values PENDING, COMPLETED and FAILED; PENDING is
      written PaymentStatus.PENDING to tell it from OrderStatus.PENDING. */
  datatype PaymentStatus = PENDING | COMPLETED | FAILED

  /** The snapshot of a product taken when the order is created. */
  datatype OrderItem = OrderItem(
    productId: string,
    productName: string,
    artistId: string,
    quantity: int,
    price: int,
    subtotal: int,
    imageUrl: string,
    medium: string,
    style: string)

  datatype Order = Order(
    id: string,
    userId: string,
    item: OrderItem,
    totalAmount: int,
    status: OrderStatus,
    paymentStatus: PaymentStatus,
    shippingAddress: string,
    specialInstructions: string,
    createdAt: int,
    updatedAt: int)

  /** What the product service answers for a product id. The stock
      quantity is a boxed integer there, so it may be missing. */
  datatype Product = Product(
    name: string,
    price: int,
    artistId: string,
    imageUrl: string,
    stockQuantity: Option<int>,
    isAvailable: bool,
    medium: string,
    style: string)

  datatype OrderItemRequest = OrderItemRequest(productId: string, quantity: int)

  datatype OrderCreateRequest = OrderCreateRequest(
    userId: string,
    item: OrderItemRequest,
    shippingAddress: string,
    specialInstructions: string)

  datatype Error =
    | ProductNotFound(productId: string)
    | ProductNotAvailable(productId: string)
    | MissingStock(productId: string)
    | InsufficientStock(productId: string)
    | ReservationFailed(productId: string)
    | OrderNotFound(orderId: string)

  datatype Result<T> = Success(value: T) | Failure(error: Error)

  /** One call from the service to a remote gateway: a product fetch, a
      reservation, a release (product service) or a notification. */
  datatype Event =
    | Fetch(productId: string)
    | Reserve(productId: string)
    | Release(productId: string)
    | Notify(userId: string)

  /** The product ids of the Release calls in a trace, in order. */
  function Releases(events: seq<Event>): (r: seq<string>)
    ensures |r| <= |events|
    ensures forall x :: x in r <==> Release(x) in events
  {
    if events == [] then []
    else (if events[0].Release? then [events[0].productId] else []) + Releases(events[1..])
  }

  /** The product ids of the Reserve calls in a trace, in order. */
  function Reserves(events: seq<Event>): (r: seq<string>)
    ensures |r| <= |events|
    ensures forall x :: x in r <==> Reserve(x) in events
  {
    if events == [] then []
    else (if events[0].Reserve? then [events[0].productId] else []) + Reserves(events[1..])
  }

  lemma {:induction false} ReleasesAppend(a: seq<Event>, b: seq<Event>)
    ensures Releases(a + b) == Releases(a) + Releases(b)
  {
    if a == [] {
      assert a + b == b;
    } else {
      assert (a + b)[0] == a[0];
      assert (a + b)[1..] == a[1..] + b;
      ReleasesAppend(a[1..], b);
    }
  }

  lemma {:induction false} ReservesAppend(a: seq<Event>, b: seq<Event>)
    ensures Reserves(a + b) == Reserves(a) + Reserves(b)
  {
    if a == [] {
      assert a + b == b;
    } else {
      assert (a + b)[0] == a[0];
      assert (a + b)[1..] == a[1..] + b;
      ReservesAppend(a[1..], b);
    }
  }
}
