/**
 * The order service: the table of stored orders, which the operations
 * change in place, and the ghost trace of the calls made to the product
 * and notification gateways. The product catalogue, the clock and the
 * success of each remote call are inputs of the operation that uses them.
 */
module OrderService {
  import opened OrderModel
  import opened OrderRepository
  import opened OrderRules

  class OrderServiceImpl {
    var orders: map<string, Order>
    ghost var trace: seq<Event>

    /** Every order is stored under its id, and its amounts agree with its item. */
    ghost predicate Valid()
      reads this
    {
      && IdsConsistent(orders)
      && forall id :: id in orders ==> Priced(orders[id])
    }

    constructor ()
      ensures Valid() && orders == map[] && trace == []
    {
      orders := map[];
      trace := [];
    }

    /** Validates, reserves, then stores a PENDING order and notifies the
        user. `newId` is the id the store assigns to the new order. */
    method CreateOrder(req: OrderCreateRequest, catalogue: map<string, Product>, now: int,
                       reserveOk: bool, newId: string) returns (r: Result<Order>)
      requires Valid()
      requires newId !in orders
      modifies this
      ensures Valid()
      ensures !Purchasable(req.item, catalogue) ==>
        && r == Failure(ValidateProduct(req.item, catalogue).error)
        && orders == old(orders)
        && trace == old(trace) + [Fetch(req.item.productId)]
      ensures Purchasable(req.item, catalogue) && !reserveOk ==>
        && r == Failure(ReservationFailed(req.item.productId))
        && orders == old(orders)
        && trace == old(trace) + [Fetch(req.item.productId), Reserve(req.item.productId)]
      ensures Purchasable(req.item, catalogue) && reserveOk ==>
        && r == Success(NewOrder(newId, req, catalogue[req.item.productId], now))
        && orders == old(orders)[newId := r.value]
        && trace == old(trace) + [Fetch(req.item.productId), Reserve(req.item.productId),
                                  Fetch(req.item.productId), Notify(req.userId)]
    {
      var pid := req.item.productId;
      var checked := ValidateProduct(req.item, catalogue);
      trace := trace + [Fetch(pid)];
      if checked.Failure? {
        return Failure(checked.error);
      }
      trace := trace + [Reserve(pid)];
      if !reserveOk {
        return Failure(ReservationFailed(pid));
      }
      // the product is fetched a second time to build the item snapshot
      trace := trace + [Fetch(pid)];
      var order := NewOrder(newId, req, catalogue[pid], now);
      orders := orders[newId := order];
      trace := trace + [Notify(order.userId)];
      r := Success(order);
    }

    function GetOrder(orderId: string): (r: Result<Order>)
      reads this
      ensures r.Success? <==> orderId in orders
      ensures r.Success? ==> r.value == orders[orderId]
      ensures r.Failure? ==> r.error == OrderNotFound(orderId)
    {
      if orderId in orders then Success(orders[orderId]) else Failure(OrderNotFound(orderId))
    }

    method GetUserOrders(userId: string) returns (found: seq<Order>)
      requires Valid()
      ensures Enumerates(found, orders, MatchingIds(orders, ByUserId(userId)))
      ensures forall i :: 0 <= i < |found| ==> found[i].userId == userId
    {
      found := Find(orders, ByUserId(userId));
    }

    /** The artist's orders whose payment has completed. */
    method GetOrdersByArtisan(artistId: string) returns (found: seq<Order>)
      requires Valid()
      ensures Enumerates(found, orders, ArtisanIds(orders, artistId))
    {
      var byArtist := Find(orders, ByItemArtistId(artistId));
      found := CompletedOnly(byArtist);
      forall i | 0 <= i < |found|
        ensures found[i].id in ArtisanIds(orders, artistId) && found[i].id in orders
        ensures orders[found[i].id] == found[i]
      {
        assert found[i] in byArtist;
      }
    }

    /** Hands the order's product back to the product service. A failed
        release is logged and swallowed, so its outcome changes nothing. */
    method ReleaseOrderProduct(order: Order, releaseOk: bool)
      modifies this`trace
      ensures trace == old(trace) + [Release(order.item.productId)]
    {
      trace := trace + [Release(order.item.productId)];
    }

    /** Sets the status and the update time, adjusts the payment status,
        saves, releases the product on CANCELLED or EXPIRED, then notifies. */
    method UpdateOrderStatus(orderId: string, status: OrderStatus, now: int, releaseOk: bool)
      returns (r: Result<Order>)
      requires Valid()
      modifies this
      ensures Valid()
      ensures orderId !in old(orders) ==>
        r == Failure(OrderNotFound(orderId)) && orders == old(orders) && trace == old(trace)
      ensures orderId in old(orders) ==>
        && r == Success(Transition(old(orders)[orderId], status, now))
        && orders == old(orders)[orderId := r.value]
        && trace == old(trace) + UpdateEvents(old(orders)[orderId], status)
    {
      if orderId !in orders {
        return Failure(OrderNotFound(orderId));
      }
      var order := orders[orderId];
      order := order.(status := status, updatedAt := now);
      if status == CONFIRMED {
        order := order.(paymentStatus := COMPLETED);
      } else if status == EXPIRED {
        order := order.(paymentStatus := FAILED);
      }
      orders := orders[orderId := order];
      if status == CANCELLED || status == EXPIRED {
        ReleaseOrderProduct(order, releaseOk);
      }
      trace := trace + [Notify(order.userId)];
      r := Success(order);
    }

    /** Releases the order's product, then removes the order. */
    method DeleteOrder(orderId: string, releaseOk: bool) returns (r: Result<()>)
      requires Valid()
      modifies this
      ensures Valid()
      ensures orderId !in old(orders) ==>
        r == Failure(OrderNotFound(orderId)) && orders == old(orders) && trace == old(trace)
      ensures orderId in old(orders) ==>
        && r == Success(())
        && orders == old(orders) - {orderId}
        && trace == old(trace) + [Release(old(orders)[orderId].item.productId)]
    {
      if orderId !in orders {
        return Failure(OrderNotFound(orderId));
      }
      var order := orders[orderId];
      ReleaseOrderProduct(order, releaseOk);
      orders := orders - {orderId};
      r := Success(());
    }

    /** The body of the sweeper's loop for one abandoned order. */
    method ExpireAbandoned(order: Order, releaseOk: bool)
      requires Valid()
      requires order.id in orders && Priced(order)
      modifies this
      ensures Valid()
      ensures orders == old(orders)[order.id := Expire(order)]
      ensures trace == old(trace) + ExpiryEvents(order)
    {
      ReleaseOrderProduct(order, releaseOk);
      var expired := order.(status := EXPIRED);
      orders := orders[expired.id := expired];
      trace := trace + [Notify(expired.userId)];
    }

    /** Expires every PENDING order created more than the grace period
        before `now`: for each, in the order the store lists them, release
        its product, set the status and save, then notify. Releases of the
        products in `failingReleases` fail; that stops nothing. */
    method ReleaseAbandonedOrders(now: int, failingReleases: set<string>)
      returns (ghost abandoned: seq<Order>)
      requires Valid()
      modifies this
      ensures Valid()
      ensures Enumerates(abandoned, old(orders), MatchingIds(old(orders), AbandonedQuery(now)))
      ensures orders == SweepTable(old(orders), now)
      ensures trace == old(trace) + SweepEvents(abandoned)
    {
      var list := Find(orders, ByStatusAndCreatedAtBefore(OrderStatus.PENDING, now - GracePeriodMinutes));
      abandoned := list;
      ghost var before := orders;
      SweptUpToStart(before, list, now);
      ExpireListed(list, before, now, failingReleases);
      SweptUpToEnd(before, orders, list, now);
    }

    /** The sweeper's loop over the listed abandoned orders. */
    method ExpireListed(list: seq<Order>, ghost before: map<string, Order>, now: int,
                        failingReleases: set<string>)
      requires Valid()
      requires DistinctIds(list)
      requires forall j :: 0 <= j < |list| ==> IsAbandoned(list[j], now) && Priced(list[j])
      requires SweptUpTo(before, orders, list, 0, now)
      modifies this
      ensures Valid()
      ensures SweptUpTo(before, orders, list, |list|, now)
      ensures trace == old(trace) + SweepEvents(list)
    {
      var i := 0;
      while i < |list|
        invariant 0 <= i <= |list|
        invariant Valid()
        invariant SweptUpTo(before, orders, list, i, now)
        invariant trace == old(trace) + SweepEvents(list[..i])
      {
        ghost var table, done := orders, SweepEvents(list[..i]);
        ExpireAbandoned(list[i], list[i].item.productId !in failingReleases);
        SweptUpToStep(before, table, list, i, now);
        SweepEventsSnoc(list, i);
        assert trace == old(trace) + (done + ExpiryEvents(list[i]));
        i := i + 1;
      }
      assert list[..i] == list;
    }
  }
}
