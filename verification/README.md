# Inventory system: ledger and order store

This project models the two small state machines behind the HTTP handlers of
the inventory system, with the SQLite and FastAPI layers removed, and proves
what the handlers promise.

- **Inventory ledger** (`Inventory`, `InventoryLemmas`). The `inventory` table
  is a finite map from the key `(sku, location)` to an integer quantity.
  `Adjust` is `adjust_inventory`. When a row exists, it rejects a delta that
  would take the row below zero, with "Insufficient stock", and otherwise
  writes `old + delta`. When no row exists, it rejects a negative delta and
  inserts any other delta, 0 included, as a new row. `GetInventory` is
  `get_inventory`: it projects the table onto one sku and gives NotFound when
  the sku has no row. A run of adjustments (`Run`) is a sequence of atomic
  steps.
- **Order store** (`Orders`, `OrderLemmas`). The `orders` and `order_items`
  tables are sequences of rows in insertion order. `lastId` stands for
  SQLite's AUTOINCREMENT counter. `CreateOrder` is `create_order`: it takes a
  fresh id, stores the order as `"pending"` and writes one item row per line.
  `GetOrder` is `get_order`, a lookup that gives NotFound for an unknown id.
  `ListOrders` is `list_orders`. Placing an order reserves no stock: the
  order store never refers to the ledger.

Errors are values (`Results.Error`: `NotFound(detail)` and
`InsufficientStock`), not HTTP responses.

Two behaviours of the code are worth stating plainly:
- A successful adjustment replies with the submitted delta, not the new
  stock level (`services/inventory-service/src/main.py:67`).
- Orders are stored as `"pending"`, and no stock is reserved when an order
  is placed. A TODO at `services/order-service/src/main.py:46-47` marks the
  reservation as future work.

## Model

| member | source | states |
|---|---|---|
| Inventory.GetInventory | services/inventory-service/src/main.py:28-37 | NotFound("SKU not found") exactly when no row has the sku. Otherwise a location is in the reply exactly when the row (sku, location) exists, with that row's quantity. |
| Inventory.Adjust | services/inventory-service/src/main.py:39-67 | Accepted iff the current level plus the delta is non-negative, where a missing row counts as 0. On acceptance the row is set to exactly level + delta, and the reply echoes path sku, location and the delta. On rejection the error is InsufficientStock and the table is unchanged. No other key changes. Non-negativity of every row is preserved. |
| Inventory.Run | services/inventory-service/src/main.py:47-63 | A run of adjustments gives one reply per request. If every row is non-negative before the run, every row is non-negative after it, whichever requests were rejected. |
| InventoryLemmas.AdjustMissingRow | services/inventory-service/src/main.py:56-63 | With no row, a negative delta is rejected and creates no row. A non-negative delta, including 0, creates the row with quantity = delta. |
| InventoryLemmas.AdjustIgnoresBodySku | services/inventory-service/src/main.py:40-63 | The row is keyed by the path sku and the body's location. Two bodies that differ only in their sku give the same table and reply. |
| InventoryLemmas.AdjustThenGet | services/inventory-service/src/main.py:28-63 | After an accepted adjustment, reading the sku shows the location with level + delta. After a rejected one, the read is unchanged. Reads of other skus never change. |
| InventoryLemmas.RunLevelIsAcceptedSum | services/inventory-service/src/main.py:47-63 | After any run, a key's level is its starting level plus the sum of the accepted deltas aimed at it. Rejected deltas contribute nothing. |
| InventoryLemmas.RunUntouchedKey | services/inventory-service/src/main.py:43-63 | A key that no request of a run addresses keeps its level through the whole run. |
| InventoryLemmas.DrainByWithdrawals | services/inventory-service/src/main.py:47-59 | For n one-unit withdrawals from a key holding K units, handled one at a time, exactly min(n, K) succeed and the key ends at K - min(n, K), never below zero. |
| InventoryLemmas.InventoryFlowExample | services/inventory-service/tests/test_api.py:24-55 | On a fresh table, +5 then -3 then -5 reads 5, then 2, then is rejected with the level still 2. Two requests succeed, and the level equals the sum of the accepted deltas. |
| Orders.RowsFor | services/order-service/src/main.py:52-56 | One item row per submitted line, each carrying the order's id. |
| OrderLemmas.RowsForContents | services/order-service/src/main.py:52-56 | Row i written for an order carries the order's id and the sku and quantity of line i. |
| Orders.ItemsOf | services/order-service/src/main.py:86-87 | Every line read back comes from a row of that order. Every row of that order yields a line. |
| Orders.ItemsOfCount | services/order-service/src/main.py:86-87 | The SELECT returns one line per row of the order. Each (sku, quantity) line occurs in the reply exactly as often as a row (id, sku, quantity) occurs in the table. |
| Orders.FindOrder | services/order-service/src/main.py:80-84 | None exactly when no row has the id. Otherwise a row of the table with that id. |
| Orders.CreateOrder | services/order-service/src/main.py:44-59 | Always succeeds, since no quantity is checked against stock or sign, with status "pending" and exactly the submitted lines. The id is above every id handed out so far and becomes the last one. One order row is appended, and existing item rows stay as a prefix. The store's AUTOINCREMENT invariant is preserved. |
| Orders.GetOrder | services/order-service/src/main.py:76-89 | NotFound("Order not found") exactly when no order row has the id. Otherwise the reply has that id and the row's status. Each line occurs exactly as often as a row of that id with its sku and quantity: every stored line is returned, and nothing else. |
| Orders.ListOrders | services/order-service/src/main.py:63-74 | One entry per order row, in table order, with the row's id and status. Each entry holds exactly the lines stored under its own id, each as often as its row occurs. |
| OrderLemmas.ItemsOfRowsFor | services/order-service/src/main.py:52-87 | The rows written for an order read back as exactly its lines under its id, and as nothing under any other id. |
| OrderLemmas.CreateFreshId | services/order-service/src/main.py:50-51 | In a valid store, the new id is held by no existing order and no existing item row. Before creation it reads as NotFound. |
| OrderLemmas.GetAfterCreate | services/order-service/src/main.py:80-89 | Reading a new order back gives its id, "pending" and exactly the submitted lines. No other order's lines are included. |
| OrderLemmas.CreateKeepsOthers | services/order-service/src/main.py:50-57 | Creating an order leaves every other id's reply, status and lines unchanged. |
| OrderLemmas.GetNeverCreated | services/order-service/src/main.py:80-84 | An id AUTOINCREMENT has not handed out reads as NotFound. |
| OrderLemmas.ListAgreesWithGet | services/order-service/src/main.py:63-89 | Each listed order is exactly what get_order returns for its id, and no id is listed twice. |
| OrderLemmas.ListAfterCreate | services/order-service/src/main.py:63-74 | After creating an order, the list is the old list with the new order appended. |
| OrderLemmas.GetOrderAdmissible | services/order-service/src/main.py:86-87 | The table-order reading is one of the replies allowed without ORDER BY. |
| OrderLemmas.AdmissibleAfterCreate | services/order-service/src/main.py:80-89 | Whatever order the lines of a new order come back in, the reply is the pending order. Its lines equal the submitted lines as a multiset. |
| OrderLemmas.ListOrdersAdmissible | services/order-service/src/main.py:63-74 | The table-order listing is one of the replies allowed when neither the orders nor their lines are sorted. |
| OrderLemmas.AdmissibleListAfterCreate | services/order-service/src/main.py:63-74 | In any allowed arrangement of the list after a creation, there is one more entry than before and the new id is listed. Every entry with that id is pending, with the submitted lines as a multiset. |
| OrderLemmas.OrderStoreExample | services/order-service/src/main.py:44-89 | Two orders placed on an empty store get ids 1 and 2. Each reads back with only its own lines, negative quantities included. Id 3 is NotFound. |

## Left out

- SQLite connections, cursors, commits, `init_db` and the startup hooks. The tables are immutable values passed in and returned.
- FastAPI routing and pydantic validation. The mapping of NotFound to HTTP 404 and InsufficientStock to HTTP 400 is left out as well.
- The placeholder for publishing an inventory change event (`services/inventory-service/src/main.py:66`), because it does nothing.
- SQLite's 64-bit INTEGER bound: quantities and ids are unbounded integers. Four inputs fail in the source and are not represented, each raising OverflowError in Python's sqlite3 binding:
  - a new level past 2^63-1 on an existing row (`services/inventory-service/src/main.py:52-55`);
  - a positive delta past 2^63-1 on a missing row (`services/inventory-service/src/main.py:60-62`);
  - an order-line quantity outside the 64-bit range (`services/order-service/src/main.py:53-55`);
  - a get_order id outside the 64-bit range (`services/order-service/src/main.py:80`), for which `GetOrder` answers NotFound instead.

  A delta below -2^63 is rejected with "Insufficient stock" before anything is bound, as in the model. AUTOINCREMENT running out of ids fails in the database and is not represented either.
- The order in which SQLite returns rows without ORDER BY. `GetOrder` and `ListOrders` return table order. `AdmissibleGet` allows get_order's lines in any arrangement. `AdmissibleList` allows list_orders' orders, and each order's lines, in any arrangement. `ListAfterCreate` is stated for table order only.
- Concurrent requests. The model handles requests one at a time. The source takes no locks: adjust_inventory reads the row and writes it back as separate statements. Two concurrent adjustments of one key can therefore lose an update, and the model does not represent that. Non-negativity still holds, because every write is its own read plus a delta that passed the check.
- Listing with filters and pagination, batch adjustment, deletion, credential checks and stock reservation from the order flow. They are not in the modelled code, though the service's tests exercise a `GET /inventory` listing (`services/inventory-service/tests/test_api.py:59-128`).
- The scripts `visualize_data.py`, `insert_data.py` and `view_db.py`: they are plotting, a network client and a database dump.
- `tests/test_inventory.py`: it holds broken duplicate imports and one test of the `GET /inventory` listing, which is not modelled.
