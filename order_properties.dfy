/**
 * Properties that relate the operations of the order service to each other
 * and to the queries: what a sequence of status updates keeps, how updates
 * and creations move orders in and out of the query results, what a sweep
 * leaves behind, and that a sweep releases each abandoned product once.
 */
module OrderProperties {
  import opened OrderModel
  import opened OrderRepository
  import opened OrderRules

  // ------------------------------------------------------ status transitions

  /** An explicit status update requested at a given time. */
  datatype Step = Step(status: OrderStatus, at: int)

  function ApplySteps(o: Order, steps: seq<Step>): Order
    decreases steps
  {
    if steps == [] then o
    else ApplySteps(Transition(o, steps[0].status, steps[0].at), steps[1..])
  }

  /** However many updates an order goes through, its creation snapshot
      (item, prices, total, owner, address, creation time) stays as it was,
      and the last update decides the status and the update time. */
  lemma {:induction false} StepsKeepSnapshot(o: Order, steps: seq<Step>)
    ensures SameSnapshot(ApplySteps(o, steps), o)
    ensures Priced(o) ==> Priced(ApplySteps(o, steps))
    ensures steps != [] ==> ApplySteps(o, steps).status == steps[|steps| - 1].status
    ensures steps != [] ==> ApplySteps(o, steps).updatedAt == steps[|steps| - 1].at
    decreases steps
  {
    if steps != [] {
      StepsKeepSnapshot(Transition(o, steps[0].status, steps[0].at), steps[1..]);
    }
  }

  /** No update sets the payment status back to PENDING once it has left it. */
  lemma {:induction false} PaymentNeverReturnsToPending(o: Order, steps: seq<Step>)
    requires o.paymentStatus != PaymentStatus.PENDING
    ensures ApplySteps(o, steps).paymentStatus != PaymentStatus.PENDING
    decreases steps
  {
    if steps != [] {
      PaymentNeverReturnsToPending(Transition(o, steps[0].status, steps[0].at), steps[1..]);
    }
  }

  /** The sweeper and an explicit update to EXPIRED disagree: the sweeper
      leaves the payment status and the update time alone. */
  lemma SweeperSkipsPaymentRule(o: Order, now: int)
    requires o.paymentStatus != FAILED
    ensures Expire(o).status == Transition(o, EXPIRED, now).status
    ensures Expire(o).paymentStatus == o.paymentStatus
    ensures Transition(o, EXPIRED, now).paymentStatus == FAILED
    ensures Expire(o) != Transition(o, EXPIRED, now)
  {
  }

  // ------------------------------------------------ queries after operations

  /** An update never moves an order between users. */
  lemma UserOrdersAfterTransition(table: map<string, Order>, id: string, s: OrderStatus, now: int, u: string)
    requires id in table
    ensures MatchingIds(table[id := Transition(table[id], s, now)], ByUserId(u)) == MatchingIds(table, ByUserId(u))
  {
  }

  /** A successful creation adds the new order to its user's orders only. */
  lemma UserOrdersAfterCreate(table: map<string, Order>, req: OrderCreateRequest, p: Product, newId: string,
                              now: int, u: string)
    requires newId !in table
    ensures MatchingIds(table[newId := NewOrder(newId, req, p, now)], ByUserId(u)) ==
      MatchingIds(table, ByUserId(u)) + (if req.userId == u then {newId} else {})
  {
  }

  /** How an update moves an order in or out of its artist's completed
      orders: confirming adds it, expiring removes it, other statuses leave
      the artist's list as it was. */
  lemma ArtisanOrdersAfterTransition(table: map<string, Order>, id: string, s: OrderStatus,
                                       now: int, a: string)
    requires id in table
    ensures ArtisanIds(table[id := Transition(table[id], s, now)], a) ==
      if table[id].item.artistId != a then ArtisanIds(table, a)
      else if s == CONFIRMED then ArtisanIds(table, a) + {id}
      else if s == EXPIRED then ArtisanIds(table, a) - {id}
      else ArtisanIds(table, a)
  {
  }

  /** Deleting an order takes it out of every query and keeps the rest. */
  lemma QueriesAfterDelete(table: map<string, Order>, id: string, q: Query)
    ensures MatchingIds(table - {id}, q) == MatchingIds(table, q) - {id}
  {
  }

  // ------------------------------------------------------------- the sweeper

  /** After a sweep at `now` no order is abandoned at `now`. */
  lemma SweepLeavesNoAbandoned(table: map<string, Order>, now: int)
    ensures MatchingIds(SweepTable(table, now), AbandonedQuery(now)) == {}
  {
  }

  /** A second sweep at the same time changes nothing. */
  lemma SweepIdempotent(table: map<string, Order>, now: int)
    ensures SweepTable(SweepTable(table, now), now) == SweepTable(table, now)
  {
  }

  /** An order abandoned at one time is abandoned at every later time. */
  lemma AbandonedStaysAbandoned(table: map<string, Order>, now: int, later: int)
    requires now <= later
    ensures MatchingIds(table, AbandonedQuery(now)) <= MatchingIds(table, AbandonedQuery(later))
  {
  }

  /** A sweep keeps the store's invariant: ids match keys and amounts agree. */
  lemma SweepKeepsStoreInvariant(table: map<string, Order>, now: int)
    requires IdsConsistent(table)
    requires forall id :: id in table ==> Priced(table[id])
    ensures IdsConsistent(SweepTable(table, now))
    ensures forall id :: id in SweepTable(table, now) ==> Priced(SweepTable(table, now)[id])
  {
  }

  /** The sweep releases the product of each listed order once, in list
      order, and reserves nothing. */
  lemma {:induction false} SweepReleasesEachOnce(os: seq<Order>)
    ensures Releases(SweepEvents(os)) == ProductIds(os)
    ensures Reserves(SweepEvents(os)) == []
  {
    if os != [] {
      var init := os[..|os| - 1];
      var last := os[|os| - 1];
      SweepReleasesEachOnce(init);
      ReleasesAppend(SweepEvents(init), ExpiryEvents(last));
      ReservesAppend(SweepEvents(init), ExpiryEvents(last));
      assert Releases(ExpiryEvents(last)) == [last.item.productId];
    }
  }

  /** The ids of the orders in a list. */
  function IdSet(os: seq<Order>): set<string> {
    set i | 0 <= i < |os| :: os[i].id
  }

  lemma {:induction false} DistinctIdsCount(os: seq<Order>)
    requires DistinctIds(os)
    ensures |IdSet(os)| == |os|
  {
    if os != [] {
      var init := os[..|os| - 1];
      assert DistinctIds(init);
      DistinctIdsCount(init);
      assert IdSet(os) == IdSet(init) + {os[|os| - 1].id};
      assert os[|os| - 1].id !in IdSet(init);
    }
  }

  /** A query result is as long as the set of ids it enumerates. */
  lemma EnumerationSize(os: seq<Order>, table: map<string, Order>, ids: set<string>)
    requires IdsConsistent(table) && ids <= table.Keys
    requires Enumerates(os, table, ids)
    ensures |os| == |ids|
  {
    forall id | id in ids ensures id in IdSet(os) {
      assert table[id] in os;
      var i :| 0 <= i < |os| && os[i] == table[id];
    }
    assert IdSet(os) == ids;
    DistinctIdsCount(os);
  }

  /** One sweep issues exactly one release per abandoned order. */
  lemma SweepReleaseCount(table: map<string, Order>, abandoned: seq<Order>, now: int)
    requires IdsConsistent(table)
    requires Enumerates(abandoned, table, MatchingIds(table, AbandonedQuery(now)))
    ensures |Releases(SweepEvents(abandoned))| == |MatchingIds(table, AbandonedQuery(now))|
  {
    SweepReleasesEachOnce(abandoned);
    EnumerationSize(abandoned, table, MatchingIds(table, AbandonedQuery(now)));
  }

  // ------------------------------------------------------------- scenarios

  /** One PENDING order created 20 minutes ago and one created 5 minutes
      ago: a sweep now expires the first only. */
  lemma SweepScenario(old20: Order, new5: Order, now: int)
    requires old20.id == "a" && new5.id == "b"
    requires old20.status == OrderStatus.PENDING && new5.status == OrderStatus.PENDING
    requires old20.createdAt == now - 20 && new5.createdAt == now - 5
    ensures SweepTable(map["a" := old20, "b" := new5], now) == map["a" := Expire(old20), "b" := new5]
  {
  }

  /** Two units at 50.00 each make a PENDING order of 100.00. */
  lemma CreateScenario(req: OrderCreateRequest, p: Product, now: int)
    requires req.item.quantity == 2 && p.price == 5000
    requires p.isAvailable && p.stockQuantity == Some(10)
    ensures Purchasable(req.item, map[req.item.productId := p])
    ensures NewOrder("o1", req, p, now).totalAmount == 10000
    ensures NewOrder("o1", req, p, now).status == OrderStatus.PENDING
  {
  }

  /** Stock 1 with 2 requested fails before any reservation. */
  lemma InsufficientStockScenario(item: OrderItemRequest, p: Product)
    requires item.quantity == 2 && p.isAvailable && p.stockQuantity == Some(1)
    ensures ValidateProduct(item, map[item.productId := p]) == Failure(InsufficientStock(item.productId))
  {
  }
}
