/**
 * The pure rules of the order service: product validation, the item
 * snapshot, the total, the shape of a new order, the status-update rule,
 * the sweeper's expiry rule and its effect on the whole table, the gateway
 * calls each step makes, and the payment filter of the artisan query.
 */
module OrderRules {
  import opened OrderModel
  import opened OrderRepository

  /** Grace period, in minutes, before a PENDING order counts as abandoned. */
  const GracePeriodMinutes := 15

  // ---------------------------------------------------------------- creation

  /** The product can be ordered in the requested quantity. */
  predicate Purchasable(item: OrderItemRequest, catalogue: map<string, Product>) {
    && item.productId in catalogue
    && catalogue[item.productId].isAvailable
    && catalogue[item.productId].stockQuantity.Some?
    && item.quantity <= catalogue[item.productId].stockQuantity.value
  }

  /** The catalogue lists the product as available. */
  predicate Listed(item: OrderItemRequest, catalogue: map<string, Product>) {
    item.productId in catalogue && catalogue[item.productId].isAvailable
  }

  /** The checks made before anything is reserved, in the order they are
      made; a missing stock quantity fails when it is unboxed. */
  function ValidateProduct(item: OrderItemRequest, catalogue: map<string, Product>): (r: Result<Product>)
    ensures r.Success? <==> Purchasable(item, catalogue)
    ensures r.Success? ==> r.value == catalogue[item.productId]
    ensures r.Failure? ==> !r.error.ReservationFailed? && !r.error.OrderNotFound? && r.error.productId == item.productId
    ensures item.productId !in catalogue ==> r == Failure(ProductNotFound(item.productId))
    ensures item.productId in catalogue && !catalogue[item.productId].isAvailable ==>
      r == Failure(ProductNotAvailable(item.productId))
    ensures Listed(item, catalogue) && catalogue[item.productId].stockQuantity.None? ==>
      r == Failure(MissingStock(item.productId))
    ensures Listed(item, catalogue) && catalogue[item.productId].stockQuantity.Some? &&
            catalogue[item.productId].stockQuantity.value < item.quantity ==>
      r == Failure(InsufficientStock(item.productId))
  {
    if item.productId !in catalogue then Failure(ProductNotFound(item.productId))
    else
      var p := catalogue[item.productId];
      if !p.isAvailable then Failure(ProductNotAvailable(item.productId))
      else if p.stockQuantity.None? then Failure(MissingStock(item.productId))
      else if p.stockQuantity.value < item.quantity then Failure(InsufficientStock(item.productId))
      else Success(p)
  }

  /** The item's amounts agree: subtotal is price times quantity. */
  predicate ItemPriced(item: OrderItem) {
    item.subtotal == item.price * item.quantity
  }

  /** The order's amounts agree with its single item. */
  predicate Priced(o: Order) {
    ItemPriced(o.item) && o.totalAmount == o.item.subtotal
  }

  /** The item carries the product's descriptive data as it was when fetched. */
  predicate SnapshotOf(item: OrderItem, p: Product) {
    && item.productName == p.name
    && item.artistId == p.artistId
    && item.price == p.price
    && item.imageUrl == p.imageUrl
    && item.medium == p.medium
    && item.style == p.style
  }

  function MapToOrderItem(req: OrderItemRequest, p: Product): (r: OrderItem)
    ensures r.productId == req.productId && r.quantity == req.quantity
    ensures SnapshotOf(r, p) && ItemPriced(r)
  {
    OrderItem(req.productId, p.name, p.artistId, req.quantity, p.price,
              p.price * req.quantity, p.imageUrl, p.medium, p.style)
  }

  /** The total of an order is its single item's subtotal. */
  function CalculateTotalAmount(o: Order): (total: int)
    ensures ItemPriced(o.item) ==> total == o.item.price * o.item.quantity
  {
    o.item.subtotal
  }

  /** The order that a successful creation stores. */
  function NewOrder(id: string, req: OrderCreateRequest, p: Product, now: int): (r: Order)
    ensures r.id == id && r.userId == req.userId
    ensures r.status == OrderStatus.PENDING && r.paymentStatus == PaymentStatus.PENDING
    ensures r.item.productId == req.item.productId && r.item.quantity == req.item.quantity
    ensures SnapshotOf(r.item, p)
    ensures r.item.subtotal == p.price * req.item.quantity && r.totalAmount == r.item.subtotal
    ensures r.shippingAddress == req.shippingAddress && r.specialInstructions == req.specialInstructions
    ensures r.createdAt == now && r.updatedAt == now
    ensures Priced(r)
  {
    var draft := Order(id, req.userId, MapToOrderItem(req.item, p), 0, OrderStatus.PENDING,
                       PaymentStatus.PENDING, req.shippingAddress, req.specialInstructions, now, now);
    draft.(totalAmount := CalculateTotalAmount(draft))
  }

  // ------------------------------------------------------ status transitions

  /** What the order was given at creation: everything but status, payment
      status and the update time. */
  predicate SameSnapshot(a: Order, b: Order) {
    && a.id == b.id
    && a.userId == b.userId
    && a.item == b.item
    && a.totalAmount == b.totalAmount
    && a.shippingAddress == b.shippingAddress
    && a.specialInstructions == b.specialInstructions
    && a.createdAt == b.createdAt
  }

  /** A status after which the order's product is handed back. */
  predicate ReleasesReservation(s: OrderStatus) {
    s == CANCELLED || s == EXPIRED
  }

  /** The payment status that an explicit update to `s` leaves. */
  function PaymentAfter(s: OrderStatus, current: PaymentStatus): (r: PaymentStatus)
    ensures s == CONFIRMED ==> r == COMPLETED
    ensures s == EXPIRED ==> r == FAILED
    ensures s != CONFIRMED && s != EXPIRED ==> r == current
  {
    if s == CONFIRMED then COMPLETED
    else if s == EXPIRED then FAILED
    else current
  }

  /** The order after an explicit status update at time `now`. */
  function Transition(o: Order, s: OrderStatus, now: int): (r: Order)
    ensures r.status == s && r.updatedAt == now
    ensures r.paymentStatus == PaymentAfter(s, o.paymentStatus)
    ensures SameSnapshot(r, o)
  {
    o.(status := s, updatedAt := now, paymentStatus := PaymentAfter(s, o.paymentStatus))
  }

  /** Gateway calls of an explicit update after the save: a release when the
      new status calls for one, then the notification. */
  function UpdateEvents(o: Order, s: OrderStatus): (r: seq<Event>)
    ensures Releases(r) == if ReleasesReservation(s) then [o.item.productId] else []
    ensures Reserves(r) == []
    ensures |r| > 0 && r[|r| - 1] == Notify(o.userId)
    ensures |r| == if ReleasesReservation(s) then 2 else 1
  {
    (if ReleasesReservation(s) then [Release(o.item.productId)] else []) + [Notify(o.userId)]
  }

  // ------------------------------------------------------------- the sweeper

  function AbandonedQuery(now: int): Query {
    ByStatusAndCreatedAtBefore(OrderStatus.PENDING, now - GracePeriodMinutes)
  }

  predicate IsAbandoned(o: Order, now: int) {
    Matches(AbandonedQuery(now), o)
  }

  /** The sweeper sets the status alone: payment status and update time are
      left as they were. */
  function Expire(o: Order): (r: Order)
    ensures r.status == EXPIRED
    ensures r.paymentStatus == o.paymentStatus && r.updatedAt == o.updatedAt
    ensures SameSnapshot(r, o)
  {
    o.(status := EXPIRED)
  }

  /** The table after one sweep at time `now`. */
  function SweepTable(table: map<string, Order>, now: int): (r: map<string, Order>)
    ensures r.Keys == table.Keys
    ensures forall id :: id in table ==> SameSnapshot(r[id], table[id])
    ensures forall id :: id in table ==> (r[id] != table[id] <==> id in MatchingIds(table, AbandonedQuery(now)))
    ensures forall id :: id in MatchingIds(table, AbandonedQuery(now)) ==> r[id] == Expire(table[id])
  {
    map id | id in table :: if IsAbandoned(table[id], now) then Expire(table[id]) else table[id]
  }

  /** Gateway calls made for one abandoned order. */
  function ExpiryEvents(o: Order): seq<Event> {
    [Release(o.item.productId), Notify(o.userId)]
  }

  /** Gateway calls made for a list of abandoned orders, in list order. */
  function SweepEvents(os: seq<Order>): (r: seq<Event>)
    ensures |r| == 2 * |os|
  {
    if os == [] then [] else SweepEvents(os[..|os| - 1]) + ExpiryEvents(os[|os| - 1])
  }

  /** For each listed order, in list order, the sweep first releases its
      product and then notifies its user. */
  lemma {:induction false} SweepEventsInOrder(os: seq<Order>)
    ensures forall i :: 0 <= i < |os| ==>
      SweepEvents(os)[2 * i] == Release(os[i].item.productId) && SweepEvents(os)[2 * i + 1] == Notify(os[i].userId)
  {
    if os != [] {
      SweepEventsInOrder(os[..|os| - 1]);
    }
  }

  lemma SweepEventsSnoc(os: seq<Order>, i: nat)
    requires i < |os|
    ensures SweepEvents(os[..i + 1]) == SweepEvents(os[..i]) + ExpiryEvents(os[i])
  {
    assert os[..i + 1][..i] == os[..i];
  }

  /** Sweeper progress: the first `done` listed orders are expired, the
      rest of the listed ones and every order that is not abandoned are as
      they were. */
  ghost predicate SweptUpTo(before: map<string, Order>, table: map<string, Order>, list: seq<Order>,
                            done: nat, now: int)
    requires done <= |list|
  {
    && table.Keys == before.Keys
    && (forall j :: 0 <= j < done ==> list[j].id in table && table[list[j].id] == Expire(list[j]))
    && (forall j :: done <= j < |list| ==> list[j].id in table && table[list[j].id] == list[j])
    && (forall id :: id in before && !IsAbandoned(before[id], now) ==> table[id] == before[id])
  }

  lemma SweptUpToStart(before: map<string, Order>, list: seq<Order>, now: int)
    requires IdsConsistent(before)
    requires Enumerates(list, before, MatchingIds(before, AbandonedQuery(now)))
    ensures SweptUpTo(before, before, list, 0, now)
  {
  }

  lemma SweptUpToStep(before: map<string, Order>, table: map<string, Order>, list: seq<Order>,
                      done: nat, now: int)
    requires done < |list|
    requires DistinctIds(list) && IsAbandoned(list[done], now)
    requires SweptUpTo(before, table, list, done, now)
    ensures SweptUpTo(before, table[list[done].id := Expire(list[done])], list, done + 1, now)
  {
  }

  /** When every listed abandoned order is expired, the table is the swept
      table. */
  lemma SweptUpToEnd(before: map<string, Order>, table: map<string, Order>, list: seq<Order>, now: int)
    requires IdsConsistent(before)
    requires Enumerates(list, before, MatchingIds(before, AbandonedQuery(now)))
    requires SweptUpTo(before, table, list, |list|, now)
    ensures table == SweepTable(before, now)
  {
  }

  /** The product ids of a list of orders. */
  function ProductIds(os: seq<Order>): (r: seq<string>)
    ensures |r| == |os|
    ensures forall i :: 0 <= i < |os| ==> r[i] == os[i].item.productId
  {
    if os == [] then [] else ProductIds(os[..|os| - 1]) + [os[|os| - 1].item.productId]
  }

  // ------------------------------------------------------ the artisan filter

  /** Keeps the orders whose payment has completed, in their order. */
  function CompletedOnly(os: seq<Order>): (r: seq<Order>)
    ensures |r| <= |os|
    ensures forall o :: o in r <==> o in os && o.paymentStatus == COMPLETED
    ensures DistinctIds(os) ==> DistinctIds(r)
  {
    if os == [] then []
    else
      var rest := CompletedOnly(os[1..]);
      if os[0].paymentStatus == COMPLETED then
        assert forall o :: o in rest ==> o in os[1..];
        assert DistinctIds(os) ==> forall k :: 0 <= k < |rest| ==> rest[k].id != os[0].id by {
          if DistinctIds(os) {
            forall k | 0 <= k < |rest| ensures rest[k].id != os[0].id {
              assert rest[k] in os[1..];
              var j :| 0 <= j < |os[1..]| && os[1..][j] == rest[k];
              assert os[j + 1] == rest[k];
            }
          }
        }
        [os[0]] + rest
      else rest
  }

  /** The ids the artisan query returns: orders of the artist whose payment
      has completed. */
  function ArtisanIds(table: map<string, Order>, artistId: string): (ids: set<string>)
    ensures ids <= MatchingIds(table, ByItemArtistId(artistId))
  {
    set id | id in table && table[id].item.artistId == artistId && table[id].paymentStatus == COMPLETED
  }
}
