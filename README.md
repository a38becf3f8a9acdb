# Order lifecycle of the ArtZtall order service, in Dafny

This project models the core of the order service in `OrderServiceImpl`:

- creating an order, which validates the product, reserves it, stores a PENDING order snapshotting the product, and notifies the user;
- reading an order, a user's orders and an artisan's paid orders;
- updating an order's status, which sets the payment status, saves, releases the product on CANCELLED or EXPIRED, and notifies the user;
- deleting an order, which releases the product and then removes the order;
- the periodic sweeper that expires PENDING orders older than 15 minutes.

The service is a class, `OrderService.OrderServiceImpl`. It has two fields:

- `orders` is the order table (a `map` from id to `Order`), standing in for the MongoDB repository.
- `trace` is a ghost sequence of the calls made to the product and notification services: `Fetch(productId)`, `Reserve(productId)`, `Release(productId)` and `Notify(userId)`.

The operations change these fields in place. Each operation's `ensures` gives the new table and the new trace in terms of the old ones.

The remote world is made of parameters:

- the product catalogue, fixed for the duration of one call;
- the current time, as an integer number of minutes;
- whether the reservation succeeds;
- whether each release succeeds. The service swallows release failures, so this input provably changes nothing.

Money is an integer number of cents, so subtotal = price × quantity is exact, as with `BigDecimal`.

The pure rules are functions in `OrderRules`:

- validation, the item snapshot and the total;
- the status-update rule and the sweeper's expiry rule;
- the swept table and the calls each step makes;
- the payment filter of the artisan query.

The repository's three derived queries are in `OrderRepository`. `Find` scans the table and lists each matching order exactly once, in an unspecified order. `OrderProperties` relates the operations to each other and to the queries.

The model follows the code as written:

- An order holds a single item (`Order.java:12`). So `createOrder` makes one validation, one reservation and one save (`OrderServiceImpl.java:31-54`).
- The sweeper sets only `status := EXPIRED` before saving (`OrderServiceImpl.java:158-159`). It does not apply the payment rule of `updateOrderStatus` (`OrderServiceImpl.java:97-101`). So the payment status stays as it was, usually PENDING, and `updatedAt` stays as it was too. `OrderRules.Expire` and `OrderRules.SweepTable` state this, and `OrderProperties.SweeperSkipsPaymentRule` states the difference.
- `validateProduct` compares the stock with the requested quantity but never checks that the quantity is positive (`OrderServiceImpl.java:184`). So a non-positive quantity passes, and the model does not promise a positive total.
- `updateOrderStatus` accepts any status whatever the current one (`OrderServiceImpl.java:95`). Any status may follow any other.
- `OrderStatus.java` declares PENDING, CONFIRMED, PROCESSING, SHIPPED, DELIVERED and CANCELLED, but the service also uses EXPIRED (`OrderServiceImpl.java:99`, `105` and `158`). The model's `OrderStatus` includes EXPIRED.
- `stockQuantity` is a boxed `Integer` (`ProductResponseDTO.java:18`). When it is missing, unboxing it in the stock comparison throws (`OrderServiceImpl.java:184`), and the model returns `MissingStock`.

## Model

| member | source | states |
|---|---|---|
| `OrderRepository.Find` | src/main/java/com/artztall/order_service/repository/OrderRepository.java:13-15 | the result lists every stored order matching the derived query (by user; by status with createdAt strictly before the cutoff; by item artist), each exactly once, as stored |
| `OrderRules.ValidateProduct` | src/main/java/com/artztall/order_service/service/OrderServiceImpl.java:176-187 | succeeds, returning the catalogue's product, iff the product exists, is available, has a stock quantity and that stock is at least the quantity requested; otherwise ProductNotFound for a missing product, ProductNotAvailable for an unavailable one, MissingStock when the stock quantity is null, and InsufficientStock when the stock is below the quantity |
| `OrderRules.MapToOrderItem` | src/main/java/com/artztall/order_service/service/OrderServiceImpl.java:198-214 | the item keeps the requested product id and quantity, snapshots the product's name, artist, price, image, medium and style, and has subtotal = price × quantity |
| `OrderRules.CalculateTotalAmount` | src/main/java/com/artztall/order_service/service/OrderServiceImpl.java:226-228 | for a consistently priced item the total is price × quantity |
| `OrderRules.NewOrder` | src/main/java/com/artztall/order_service/service/OrderServiceImpl.java:43-52 | the stored order has status PENDING, payment PENDING, the requested user, product and quantity, the product snapshot, totalAmount = subtotal = price × quantity, the request's address and instructions, and createdAt = updatedAt = now |
| `OrderRules.PaymentAfter` | src/main/java/com/artztall/order_service/service/OrderServiceImpl.java:97-101 | CONFIRMED gives COMPLETED, EXPIRED gives FAILED, any other status keeps the payment status |
| `OrderRules.Transition` | src/main/java/com/artztall/order_service/service/OrderServiceImpl.java:95-101 | an update sets the status and updatedAt, applies the payment rule, and keeps id, user, item, total, address, instructions and createdAt |
| `OrderRules.UpdateEvents` | src/main/java/com/artztall/order_service/service/OrderServiceImpl.java:104-115 | an update makes exactly these calls: the release of the order's product if the new status is CANCELLED or EXPIRED (none otherwise), then the notification to the user; it reserves nothing |
| `OrderRules.Expire` | src/main/java/com/artztall/order_service/service/OrderServiceImpl.java:158 | the sweeper makes the order EXPIRED and keeps its payment status, updatedAt and creation snapshot |
| `OrderRules.SweepTable` | src/main/java/com/artztall/order_service/service/OrderServiceImpl.java:149-159 | a sweep keeps the set of ids and every snapshot, changes exactly the orders that are PENDING with createdAt < now − 15, and makes each of those its sweeper expiry: EXPIRED, with payment status and updatedAt unchanged |
| `OrderRules.SweepEventsInOrder` | src/main/java/com/artztall/order_service/service/OrderServiceImpl.java:155-167 | for each listed order, in list order, the sweep makes exactly two calls: the release of its product, then the notification to its user |
| `OrderRules.CompletedOnly` | src/main/java/com/artztall/order_service/service/OrderServiceImpl.java:137-138 | the filter keeps exactly the orders whose payment is COMPLETED and introduces no duplicate ids |
| `OrderService.OrderServiceImpl.CreateOrder` | src/main/java/com/artztall/order_service/service/OrderServiceImpl.java:27-71 | an invalid product fails with the validation error, stores nothing and makes only the product fetch; a failed reservation fails, stores nothing and has made one Reserve; otherwise exactly the new order is added under the new id, and the trace gains fetch, one Reserve, the second fetch and the notification |
| `OrderService.OrderServiceImpl.GetOrder` | src/main/java/com/artztall/order_service/service/OrderServiceImpl.java:74-78 | returns the stored order iff the id is present, else fails with OrderNotFound |
| `OrderService.OrderServiceImpl.GetUserOrders` | src/main/java/com/artztall/order_service/service/OrderServiceImpl.java:81-85 | returns exactly the user's stored orders, each once, changing nothing |
| `OrderService.OrderServiceImpl.GetOrdersByArtisan` | src/main/java/com/artztall/order_service/service/OrderServiceImpl.java:134-141 | returns exactly the stored orders whose item's artist is the artisan and whose payment is COMPLETED, each once, changing nothing |
| `OrderService.OrderServiceImpl.ReleaseOrderProduct` | src/main/java/com/artztall/order_service/service/OrderServiceImpl.java:189-196 | records one Release of the order's product whatever its outcome, and changes no order |
| `OrderService.OrderServiceImpl.UpdateOrderStatus` | src/main/java/com/artztall/order_service/service/OrderServiceImpl.java:89-119 | an unknown id fails with nothing changed; otherwise the order becomes its transition, every other order is unchanged, the trace gains the update's calls, and the outcome does not depend on the release's success |
| `OrderService.OrderServiceImpl.DeleteOrder` | src/main/java/com/artztall/order_service/service/OrderServiceImpl.java:123-131 | an unknown id fails with nothing changed; otherwise one Release of the order's product, then exactly that id is removed and every other entry kept |
| `OrderService.OrderServiceImpl.ReleaseAbandonedOrders` | src/main/java/com/artztall/order_service/service/OrderServiceImpl.java:146-174 | the orders processed are exactly the PENDING ones created before now − 15, each once; the table becomes the swept table; the trace gains the sweep's calls for them; release failures stop nothing |
| `OrderService.OrderServiceImpl.ExpireListed` | src/main/java/com/artztall/order_service/service/OrderServiceImpl.java:155-173 | the loop expires every listed order and leaves every order that is not abandoned as it was, with the calls in list order |
| `OrderService.OrderServiceImpl.ExpireAbandoned` | src/main/java/com/artztall/order_service/service/OrderServiceImpl.java:156-167 | one loop iteration: release, save the order as EXPIRED, notify; no other order changes |
| `OrderProperties.StepsKeepSnapshot` | src/main/java/com/artztall/order_service/service/OrderServiceImpl.java:92-102 | after any sequence of updates the order keeps its creation snapshot and consistent amounts; the last update decides status and updatedAt |
| `OrderProperties.PaymentNeverReturnsToPending` | src/main/java/com/artztall/order_service/service/OrderServiceImpl.java:97-101 | once the payment status has left PENDING, no sequence of updates brings it back |
| `OrderProperties.SweeperSkipsPaymentRule` | src/main/java/com/artztall/order_service/service/OrderServiceImpl.java:158 | the sweeper's expiry and an explicit update to EXPIRED agree on the status; for an order whose payment status is not already FAILED they differ on it, since only the update sets it to FAILED |
| `OrderProperties.UserOrdersAfterTransition` | src/main/java/com/artztall/order_service/service/OrderServiceImpl.java:81-85 | a status update never changes which orders belong to a user |
| `OrderProperties.UserOrdersAfterCreate` | src/main/java/com/artztall/order_service/service/OrderServiceImpl.java:43-54 | a creation adds the new id to its own user's orders and to no one else's |
| `OrderProperties.ArtisanOrdersAfterTransition` | src/main/java/com/artztall/order_service/service/OrderServiceImpl.java:134-141 | confirming an order adds it to its artist's list, expiring removes it, any other update leaves the list as it was |
| `OrderProperties.QueriesAfterDelete` | src/main/java/com/artztall/order_service/service/OrderServiceImpl.java:123-131 | after a delete every query returns what it did before minus the deleted id |
| `OrderProperties.SweepLeavesNoAbandoned` | src/main/java/com/artztall/order_service/service/OrderServiceImpl.java:149-159 | after a sweep at `now` the abandoned-order query at `now` is empty |
| `OrderProperties.SweepIdempotent` | src/main/java/com/artztall/order_service/service/OrderServiceImpl.java:146-174 | a second sweep at the same time changes nothing |
| `OrderProperties.AbandonedStaysAbandoned` | src/main/java/com/artztall/order_service/service/OrderServiceImpl.java:149-153 | an order abandoned at one time is abandoned at every later time |
| `OrderProperties.SweepKeepsStoreInvariant` | src/main/java/com/artztall/order_service/service/OrderServiceImpl.java:155-159 | a sweep keeps every order under its own id with amounts that agree with its item |
| `OrderProperties.SweepReleasesEachOnce` | src/main/java/com/artztall/order_service/service/OrderServiceImpl.java:155-157 | the sweep's releases are exactly the listed orders' products, once each, in list order, and it reserves nothing |
| `OrderProperties.EnumerationSize` | src/main/java/com/artztall/order_service/repository/OrderRepository.java:13-15 | a query result is exactly as long as the set of matching ids |
| `OrderProperties.SweepReleaseCount` | src/main/java/com/artztall/order_service/service/OrderServiceImpl.java:150-157 | a sweep issues as many releases as there are abandoned orders |
| `OrderProperties.SweepScenario` | src/test/java/com/artztall/order_service/service/OrderServiceTest.java:217-247 | extends the test's single PENDING order created 20 minutes ago, which the sweep expires, with a second one created 5 minutes ago, which it keeps |
| `OrderProperties.CreateScenario` | src/main/java/com/artztall/order_service/service/OrderServiceImpl.java:205-207 | two units at 50.00 with stock 10 pass validation and give a PENDING order totalling 100.00 |
| `OrderProperties.InsufficientStockScenario` | src/main/java/com/artztall/order_service/service/OrderServiceImpl.java:184-186 | two units requested with stock 1 fail with InsufficientStock |

## Left out

- HTTP routing (`OrderController`) and WebClient wiring (`WebClientConfig`) are not modelled. They hold no logic of the lifecycle.
- The product and notification clients are remote I/O. Each call is a trace event, and the outcome of a reservation or a release is an input. The notification client builds a request it never subscribes to, so a notification can never fail. Message texts, types and URLs are not modelled.
- The 60-second schedule of the sweeper is not modelled, and neither is any concurrency between the sweeper and requests. The sweeper is a method called with `now`.
- Transactional rollback, failures of the store itself, and the outer catch of `createOrder` that rewraps failures after the save are not modelled. Saves always commit. With that, nothing inside the sweeper's per-order try block can fail, so its catch is never taken.
- `CreateOrder` takes the id the store assigns (`newId`) as an input and requires it to be fresh. MongoDB's id generation is not modelled.
- `createOrder` reads the clock twice, for createdAt and for updatedAt. The model reads it once.
- Product dimensions (floating point) and `mapProductDimensions` are not modelled. Unused product fields (description, category, tags, timestamps) are not modelled either.
- The response mappers `mapToOrderResponse` and `mapToOrderItemResponse` are field-for-field copies. The model returns the order itself.
- Money is whole cents and time whole minutes. A price with more than two decimals cannot be represented, and the strict 15-minute cutoff can move by up to one minute compared with `LocalDateTime`'s finer resolution.
- Null fields other than the stock quantity are not modelled. The order of a query's results is left unspecified, since it is the store's own.
