# Order lifecycle of an e-commerce backend, in Dafny

This project models the order part of a small e-commerce HTTP backend
written in Go. The backend keeps users, products and orders in a relational
store. Customers place orders against the product catalogue, list and fetch
orders, and cancel pending ones. An administrator can set an order's status.

The model has five modules:

- `Outcomes` holds the shared result types. `Bound` is the result of binding
  a JSON request body. `Failure` is an error response (404, 400, 403 or 500,
  each with its message). `Outcome` is a handler's reply (200, 201 or an error).
- `Models` holds the entities of `models/models.go` as datatypes. The status
  and role strings are enumerations. It also states two facts about the store:
  the password hash is never serialised, and email addresses are unique.
- `Middleware` holds the admin gate of `middleware/admin.go`. It is a function
  of the claims attached to the request, and decides whether the request
  passes or is refused with 403.
- `Placement` specifies the order-placement loop as a function, `Process`. It
  walks the request's `(product_id, quantity)` pairs one at a time, over
  longer and longer prefixes. Each pair looks its product up and checks the
  stock. It then lowers the stock, adds quantity times price to the total and
  records a line item. The first pair that fails stops the walk. The lemmas
  say what a completed walk produced and what a failed walk left behind.
- `Orders` holds the handlers of `controllers/order.go`. A `Store` class keeps
  the product table, the order table and the next order id. `PlaceOrder`,
  `CancelOrder` and `UpdateOrderStatus` are methods that update the store.
  Each is proved equal to a specification function: `Process`/`NewOrder`,
  `Cancellation` and `StatusChange`. The line-item loop of `PlaceOrder` is
  the method `Walk`, proved equal to `Process`. The two read-only queries are functions
  of the store. `AdminUpdateOrderStatus` is the status-update route: the admin
  gate runs first, and the handler runs only if the gate lets the request
  through (`routes/routes.go:186`).

Behaviour the model keeps on purpose, as the code has it:

- Each accepted line item's stock decrement is written at once. A later line
  item that fails, or a failed insert of the order, does not undo it
  (`PartialEffect`, `Orders.Store.PlaceOrder`).
- Quantities are never checked for sign. A zero quantity changes nothing
  when the stock is not negative. A negative quantity passes the stock check
  when the stock is at least the quantity (for example, when it is not
  negative), and then raises the stock.
- `GetOrder` and `CancelOrder` do not check who owns the order.
- `UpdateOrderStatus` ignores the prior status. It therefore moves Cancelled
  and Completed orders too (`TerminalStatusReopened`). `CancelOrder`, in
  contrast, accepts only Pending orders (`controllers/order.go:97`).
- The reply of `UpdateOrderStatus` is the order row as loaded without its line
  items. The stored line items are kept.

Money (`Price`, `TotalAmount`) is counted in whole cents as `int`.

## Model

| member | source | states |
|---|---|---|
| `Outcomes.Failure.Code` | controllers/order.go:92-105 | not-found is written as 404, bad-request as 400 and a storage failure as 500; the admin gate's refusal (`middleware/admin.go:15`) is 403; each code belongs to exactly one kind of error |
| `Outcomes.Outcome.Code` | controllers/order.go:56-61 | a reply is 200 exactly when it is Ok, 201 exactly when it is Created (the placed order), and an error reply carries its error's code, 400 or above |
| `Models.RoleName` | models/models.go:10 | the role text is "admin" exactly for the admin role and "user" exactly for the user role |
| `Models.StatusName` | models/models.go:30 | Pending, Completed and Cancelled are named "Pending", "Completed" and "Cancelled", each name belonging to exactly that status |
| `Models.StatusNamesDistinct` | models/models.go:30 | two statuses have the same name only when they are the same status |
| `Models.UserJson` | models/models.go:5-13 | the serialised user has exactly four distinct keys, ID, name, email and role, with their values, and no password field |
| `Models.PasswordNeverSerialized` | models/models.go:9 | changing only the password hash leaves the serialised user unchanged |
| `Models.InsertUser` | models/models.go:8 | an insert is refused exactly when the email is taken; an accepted insert adds only the new row and keeps emails unique |
| `Middleware.AdminMiddleware` | middleware/admin.go:10-21 | the request passes exactly when the role claim is the text "admin"; otherwise the reply is 403 "Admin access required" and the chain stops |
| `Middleware.RoleGate` | middleware/admin.go:13-19 | a role claim carrying a documented role passes exactly for the admin role, whatever the other claims hold |
| `Middleware.UntypedRoleRefused` | middleware/admin.go:12-18 | a missing role claim, or one that is not text, is refused with 403 |
| `Placement.StepOutcome` | controllers/order.go:28-46 | a line item is accepted exactly when its product exists and its quantity is at most the current stock; an unknown product gives not-found and a short stock gives bad-request, with the table unchanged; an accepted item lowers that product's stock by the quantity, never below zero, and leaves every other row alone |
| `Placement.Process` | controllers/order.go:27-47 | the walk keeps the product id set, records at most one line item per pair, and one per pair when it completes |
| `Placement.NewOrder` | controllers/order.go:49-54 | the new order belongs to the caller, is Pending, carries the walk's total, and its line items point back at it with the walk's products and quantities |
| `Placement.FailureIsFinal` | controllers/order.go:29-37 | once a line item fails, the pairs after it change neither the table nor the outcome |
| `Placement.StopsAt` | controllers/order.go:29-37 | when line item k is the first to fail, the walk ends with its failure and with the table, total and line items that the items before k produced |
| `Placement.Completed` | controllers/order.go:27-47 | after a completed walk, every requested product exists, the line items are the request's pairs in order, the total is the sum of quantity times price, and each product's stock is down by exactly the quantity requested of it with no other field changed |
| `Placement.PlacedOrder` | controllers/order.go:42-54 | the placed order is the caller's and Pending, totals quantity times price, and lists the request's pairs in order under its own id |
| `Placement.UntouchedProducts` | controllers/order.go:39-40 | a completed walk leaves every product not named in the request unchanged |
| `Placement.SeesEarlierDecrements` | controllers/order.go:27-40 | line item k is accepted exactly when its quantity is at most the original stock minus what earlier line items took of the same product |
| `Placement.PartialEffect` | controllers/order.go:28-40 | a request failing at line item k fails as a whole, and the table keeps exactly the decrements of the line items before k |
| `Placement.StockStaysNonNegative` | controllers/order.go:34-39 | starting with no negative stock, the walk never makes a stock negative, whether it completes or fails |
| `Placement.StaysKeyed` | controllers/order.go:28-40 | the walk keeps every product row under its own id |
| `Placement.ZeroQuantitiesChangeNothing` | controllers/order.go:34-39 | a request of zero quantities for existing products, none of whose stock is negative, completes with total zero and an unchanged table |
| `Placement.NegativeQuantityRestocks` | controllers/order.go:34-39 | a negative quantity passes the stock check exactly when the stock is at least that quantity (for example, not negative), and then raises the stock |
| `Placement.TwoProductExample` | controllers/order.go:27-47 | quantities 2 and 1 at prices 10 and 5 give total 25 and lower the stocks by 2 and 1 |
| `Placement.SharedStockExample` | controllers/order.go:27-40 | two one-unit items against a stock of one: the second fails with "Insufficient stock" and the stock stays at zero |
| `Orders.ParseTarget` | controllers/order.go:129-132 | a status body is accepted exactly when it is "Completed" or "Cancelled", and never yields Pending |
| `Orders.TargetNamesParse` | controllers/order.go:129-134 | the names of Completed and Cancelled parse back to those statuses; Pending's name is refused |
| `Orders.Cancellation` | controllers/order.go:88-109 | a missing order gives not-found; a status other than Pending gives bad-request; a failed save gives 500 "Failed to cancel order"; all three leave the table unchanged; it succeeds exactly for a Pending order whose save succeeds, which then becomes Cancelled and nothing else changes |
| `Orders.StatusChange` | controllers/order.go:111-141 | a missing order gives not-found before the body is looked at; a bad body or a status other than Completed/Cancelled gives bad-request with no change; a failed save gives 500 "Failed to update order status" with no change; otherwise the status is set whatever it was, no other field or order changes, and the reply is the order without line items |
| `Orders.CancelOnlyOnce` | controllers/order.go:97-102 | after a successful cancel, a second cancel of the same order fails with bad-request |
| `Orders.PendingNeverReentered` | controllers/order.go:97-134 | neither cancel nor status update moves an order back to Pending |
| `Orders.TerminalStatusReopened` | controllers/order.go:129-134 | the status update moves a Completed or Cancelled order to the other terminal status |
| `Orders.Store.ListUserOrders` | controllers/order.go:64-74 | the result holds exactly the stored orders whose owner is the caller, unchanged |
| `Orders.Store.GetOrder` | controllers/order.go:76-86 | any stored order is returned by id whatever its owner; a missing id gives not-found |
| `Orders.Store.Walk` | controllers/order.go:24-47 | after the loop, the product table, the total, the line items and the failure are exactly those of `Process` over the request |
| `Orders.Store.PlaceOrder` | controllers/order.go:11-62 | a bad body gives bad-request and changes nothing; otherwise the table becomes what the walk left; on failure no order is made; on success the order from `NewOrder` is stored under a fresh id and returned with 201; stock never becomes negative |
| `Orders.Store.CancelOrder` | controllers/order.go:88-109 | reply and new order table are those of `Cancellation`; products are unchanged |
| `Orders.Store.UpdateOrderStatus` | controllers/order.go:111-141 | reply and new order table are those of `StatusChange`; products are unchanged |
| `Orders.Store.AdminUpdateOrderStatus` | routes/routes.go:186 | a refused caller gets 403 and nothing changes; an admin gets exactly the status update |

## Left out

- Server start-up, configuration, the database connection and schema migration (`main.go`) are not modelled. They are I/O.
- Route wiring is modelled only for the admin-gated status update. The product routes behind the gate (`routes/routes.go:45`) lead to product handlers that are not part of this model.
- Token verification (`AuthMiddleware`), registration, login and the product handlers are not part of this model. Only the storage's unique-email rule is modelled, as `InsertUser`.
- The caller's user id from the token is a parameter of `PlaceOrder`.
- Store reads and writes are map lookups and updates. A failed write (order insert, order save) is a boolean parameter. The unchecked result of saving a product is a plain update. A failed read in `ListUserOrders` (500) is not modelled.
- JSON binding is abstract: a body is either parsed or a binder error, whose text is echoed with 400.
- Path ids are naturals. Parsing of the id text in the URL is not modelled.
- Floating point: prices and totals are exact integers in cents, so rounding in the running total is not modelled.
- Machine integers: `Stock` and `Quantity` are unbounded, so 64-bit overflow of `Stock - Quantity` is not modelled.
- Status is an enumeration. A stored status text other than the three documented ones cannot be represented.
- Line-item primary keys, timestamps, the loading of each line item's product row and the order's `User` association (`models/models.go:28`, never preloaded, so every order reply carries it zero-valued) are not modelled.
- Concurrency: the model is single-threaded. The race between simultaneous orders for the same product is not modelled.
- Models.InsertUser: emails are compared as exact strings. The store's unique index compares them under the column's collation, which under MySQL's defaults ignores case, so an insert of "Bob@x.com" beside a stored "bob@x.com" is refused by the store but accepted by the model; the collation is not modelled.
- Models.UserJson: the `CreatedAt` and `UpdatedAt` keys that the encoder also writes are not rendered, because timestamps are not modelled.
- Orders.Store.ListUserOrders: returns the caller's orders as a map keyed by order id. The order of the list the store returns is not modelled.
