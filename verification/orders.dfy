/** The order store of the order service: an `orders` table of (id, status)
    rows with an AUTOINCREMENT id, and an `order_items` table of
    (order_id, sku, quantity) rows. Both tables are kept as sequences in
    insertion order; the last id handed out plays the part of SQLite's
    sqlite_sequence entry. Placing an order reserves no stock: the store
    holds no reference to the inventory ledger. */
module Orders {
  import opened Results

  /** One line of an order: a sku and the quantity asked for. */
  datatype OrderItem = OrderItem(sku: string, quantity: int)

  /** An order as the handlers return it. */
  datatype Order = Order(id: int, items: seq<OrderItem>, status: string)

  /** A row of the `orders` table. */
  datatype OrderRow = OrderRow(id: int, status: string)

  /** A row of the `order_items` table. */
  datatype ItemRow = ItemRow(orderId: int, sku: string, quantity: int)

  /** Both tables, and the largest id AUTOINCREMENT has handed out so far. */
  datatype OrderDb = OrderDb(orders: seq<OrderRow>, itemRows: seq<ItemRow>, lastId: int)

  /** What placing an order leaves behind: the store after it, and the
      order returned to the client. */
  datatype Created = Created(db: OrderDb, order: Order)

  /** The status every order is stored with. */
  const Pending: string := "pending"

  /** The store as the schema creates it: both tables empty, no id used. */
  const Empty: OrderDb := OrderDb([], [], 0)

  /** What AUTOINCREMENT keeps true of a store: ids are positive, strictly
      increasing in insertion order, never above the last id handed out,
      and every item row refers to an id already handed out. */
  predicate Valid(db: OrderDb)
  {
    && db.lastId >= 0
    && (forall i :: 0 <= i < |db.orders| ==> 1 <= db.orders[i].id <= db.lastId)
    && (forall i, j :: 0 <= i < j < |db.orders| ==> db.orders[i].id < db.orders[j].id)
    && (forall i :: 0 <= i < |db.itemRows| ==> 1 <= db.itemRows[i].orderId <= db.lastId)
  }

  /** The `order_items` rows written for the lines of order `id`, one per
      line, in the order of the lines. */
  function RowsFor(id: int, items: seq<OrderItem>): (rows: seq<ItemRow>)
    ensures |rows| == |items|
    ensures forall i :: 0 <= i < |rows| ==> rows[i].orderId == id
  {
    if |items| == 0 then []
    else [ItemRow(id, items[0].sku, items[0].quantity)] + RowsFor(id, items[1..])
  }

  /** `SELECT sku, quantity FROM order_items WHERE order_id = id`: the lines
      of the rows of order `id`, in table order. Every line returned comes
      from a row of that order, and every such row gives a line. */
  function ItemsOf(rows: seq<ItemRow>, id: int): (items: seq<OrderItem>)
    ensures |items| <= |rows|
    ensures forall x :: x in items ==> ItemRow(id, x.sku, x.quantity) in rows
    ensures forall r :: r in rows && r.orderId == id ==> OrderItem(r.sku, r.quantity) in items
  {
    if |rows| == 0 then []
    else
      var rest := ItemsOf(rows[1..], id);
      assert forall r :: r in rows ==> r == rows[0] || r in rows[1..];
      if rows[0].orderId == id then [OrderItem(rows[0].sku, rows[0].quantity)] + rest
      else rest
  }

  /** `items` holds one line per row of order `id` in `rows`: every line
      occurs exactly as often as a row with its id, sku and quantity. */
  ghost predicate LinesOf(items: seq<OrderItem>, rows: seq<ItemRow>, id: int)
  {
    forall x :: multiset(items)[x] == multiset(rows)[ItemRow(id, x.sku, x.quantity)]
  }

  /** The SELECT returns one line per row of the order: each line occurs
      in the reply exactly as often as its row occurs in the table. */
  lemma {:induction false} ItemsOfCount(rows: seq<ItemRow>, id: int)
    ensures LinesOf(ItemsOf(rows, id), rows, id)
    decreases |rows|
  {
    if |rows| > 0 {
      ItemsOfCount(rows[1..], id);
      assert rows == [rows[0]] + rows[1..];
    }
  }

  /** `ItemsOfCount` for every id at once. */
  lemma ItemsOfCountEvery(rows: seq<ItemRow>)
    ensures forall id: int :: LinesOf(ItemsOf(rows, id), rows, id)
  {
    forall id: int
      ensures LinesOf(ItemsOf(rows, id), rows, id)
    {
      ItemsOfCount(rows, id);
    }
  }

  /** `SELECT status FROM orders WHERE id = ?`: the first row with that id. */
  function FindOrder(orders: seq<OrderRow>, id: int): (r: Option<OrderRow>)
    ensures r.None? <==> forall i :: 0 <= i < |orders| ==> orders[i].id != id
    ensures r.Some? ==> r.value in orders && r.value.id == id
  {
    if |orders| == 0 then None
    else if orders[0].id == id then Some(orders[0])
    else
      assert forall i :: 1 <= i < |orders| ==> orders[i] == orders[1..][i - 1];
      FindOrder(orders[1..], id)
  }

  /** `POST /orders`: take the next AUTOINCREMENT id, store the order as
      pending together with one item row per line, and return the order with
      the submitted lines. No quantity is checked against stock or sign, so
      it never fails; quantities beyond SQLite's 64-bit range, which fail
      in the service's sqlite3 binding, are not represented. */
  function CreateOrder(db: OrderDb, items: seq<OrderItem>): (r: Created)
    ensures r.order.status == Pending && r.order.items == items
    ensures r.order.id > db.lastId && r.db.lastId == r.order.id
    ensures r.db.orders == db.orders + [OrderRow(r.order.id, Pending)]
    ensures |r.db.itemRows| == |db.itemRows| + |items|
    ensures r.db.itemRows[..|db.itemRows|] == db.itemRows
    ensures Valid(db) ==> Valid(r.db)
  {
    var id := db.lastId + 1;
    var db' := OrderDb(db.orders + [OrderRow(id, Pending)], db.itemRows + RowsFor(id, items), id);
    assert db'.itemRows[..|db.itemRows|] == db.itemRows;
    Created(db', Order(id, items, Pending))
  }

  /** `GET /orders/{id}`: the order's status and the lines stored under its
      id, or NotFound when no order has that id. */
  function GetOrder(db: OrderDb, id: int): (r: Result<Order>)
    ensures r.Err? <==> forall i :: 0 <= i < |db.orders| ==> db.orders[i].id != id
    ensures r.Err? ==> r.error == NotFound("Order not found")
    ensures r.Ok? ==>
      && r.value.id == id
      && OrderRow(id, r.value.status) in db.orders
      && (forall x :: x in r.value.items ==> ItemRow(id, x.sku, x.quantity) in db.itemRows)
      && LinesOf(r.value.items, db.itemRows, id)
  {
    match FindOrder(db.orders, id)
    case None => Err(NotFound("Order not found"))
    case Some(row) =>
      ItemsOfCount(db.itemRows, id);
      Ok(Order(id, ItemsOf(db.itemRows, id), row.status))
  }

  /** `GET /orders`: one order per row of the orders table, each with the
      lines stored under its own id. */
  function ListOrders(db: OrderDb): (r: seq<Order>)
    ensures |r| == |db.orders|
    ensures forall i :: 0 <= i < |r| ==>
      && r[i].id == db.orders[i].id
      && r[i].status == db.orders[i].status
      && (forall x :: x in r[i].items ==> ItemRow(r[i].id, x.sku, x.quantity) in db.itemRows)
      && LinesOf(r[i].items, db.itemRows, r[i].id)
  {
    ItemsOfCountEvery(db.itemRows);
    seq(|db.orders|, i requires 0 <= i < |db.orders| =>
      Order(db.orders[i].id, ItemsOf(db.itemRows, db.orders[i].id), db.orders[i].status))
  }

  /** A reply `get_order` may give: the query has no ORDER BY, so the lines
      of an order may come back in any order, and only their multiset is
      fixed. */
  predicate AdmissibleGet(db: OrderDb, id: int, reply: Result<Order>)
  {
    match FindOrder(db.orders, id)
    case None => reply == Err(NotFound("Order not found"))
    case Some(row) =>
      && reply.Ok?
      && reply.value.id == id
      && reply.value.status == row.status
      && multiset(reply.value.items) == multiset(ItemsOf(db.itemRows, id))
  }

  /** The (id, status) row each order of a reply was read from. */
  function ReplyRows(reply: seq<Order>): seq<OrderRow>
  {
    seq(|reply|, i requires 0 <= i < |reply| => OrderRow(reply[i].id, reply[i].status))
  }

  /** A reply `list_orders` may give: neither of its queries has an ORDER
      BY, so the orders may come in any arrangement of the table's rows,
      and each order's lines in any arrangement of its item rows. */
  ghost predicate AdmissibleList(db: OrderDb, reply: seq<Order>)
  {
    && multiset(ReplyRows(reply)) == multiset(db.orders)
    && forall i :: 0 <= i < |reply| ==> LinesOf(reply[i].items, db.itemRows, reply[i].id)
  }
}
