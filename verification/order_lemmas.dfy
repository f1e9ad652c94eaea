/** Properties of the order store that relate placing, reading and listing
    orders. */
module OrderLemmas {
  import opened Results
  import opened Orders

  /** Reading the lines of an order distributes over appending rows. */
  lemma {:induction false} ItemsOfAppend(a: seq<ItemRow>, b: seq<ItemRow>, id: int)
    ensures ItemsOf(a + b, id) == ItemsOf(a, id) + ItemsOf(b, id)
    decreases |a|
  {
    if |a| > 0 {
      assert (a + b)[1..] == a[1..] + b;
      ItemsOfAppend(a[1..], b, id);
    } else {
      assert a + b == b;
    }
  }

  /** No row carries the id, so the order has no lines. */
  lemma {:induction false} ItemsOfAbsent(rows: seq<ItemRow>, id: int)
    requires forall i :: 0 <= i < |rows| ==> rows[i].orderId != id
    ensures ItemsOf(rows, id) == []
    decreases |rows|
  {
    if |rows| > 0 {
      ItemsOfAbsent(rows[1..], id);
    }
  }

  /** Row i written for an order carries the order's id and the sku and
      quantity of line i. */
  lemma {:induction false} RowsForContents(id: int, items: seq<OrderItem>)
    ensures forall i :: 0 <= i < |items| ==> RowsFor(id, items)[i] == ItemRow(id, items[i].sku, items[i].quantity)
    decreases |items|
  {
    if |items| > 0 {
      RowsForContents(id, items[1..]);
      assert forall i :: 1 <= i < |items| ==> items[1..][i - 1] == items[i];
    }
  }

  /** The rows written for an order read back as exactly its lines, in
      their order, and as no lines under any other id. */
  lemma {:induction false} ItemsOfRowsFor(id: int, items: seq<OrderItem>, other: int)
    requires other != id
    ensures ItemsOf(RowsFor(id, items), id) == items
    ensures ItemsOf(RowsFor(id, items), other) == []
    decreases |items|
  {
    if |items| > 0 {
      ItemsOfRowsFor(id, items[1..], other);
      assert RowsFor(id, items)[1..] == RowsFor(id, items[1..]);
      assert items == [items[0]] + items[1..];
    }
  }

  /** In a valid store, the first row carrying an order's id is that order's
      own row: ids do not repeat. */
  lemma {:induction false} FindOrderUnique(orders: seq<OrderRow>, i: int)
    requires 0 <= i < |orders|
    requires forall a, b :: 0 <= a < b < |orders| ==> orders[a].id < orders[b].id
    ensures FindOrder(orders, orders[i].id) == Some(orders[i])
    decreases |orders|
  {
    if i > 0 {
      assert orders[0].id < orders[i].id;
      FindOrderUnique(orders[1..], i - 1);
    }
  }

  /** Looking an id up after appending a row finds the old row when there
      was one, and the appended row otherwise when it carries the id. */
  lemma {:induction false} FindOrderAppend(orders: seq<OrderRow>, row: OrderRow, id: int)
    ensures FindOrder(orders + [row], id)
         == (if FindOrder(orders, id).Some? then FindOrder(orders, id)
             else if row.id == id then Some(row) else None)
    decreases |orders|
  {
    if |orders| > 0 {
      assert (orders + [row])[1..] == orders[1..] + [row];
      FindOrderAppend(orders[1..], row, id);
    }
  }

  /** The id a new order receives is held by no existing order and by no
      existing item row, so it was free before. */
  lemma CreateFreshId(db: OrderDb, items: seq<OrderItem>)
    requires Valid(db)
    ensures var c := CreateOrder(db, items);
      && (forall i :: 0 <= i < |db.orders| ==> db.orders[i].id != c.order.id)
      && (forall i :: 0 <= i < |db.itemRows| ==> db.itemRows[i].orderId != c.order.id)
      && GetOrder(db, c.order.id) == Err(NotFound("Order not found"))
  {
  }

  /** The lines stored under a new order's id are exactly its lines. */
  lemma ItemsOfCreated(db: OrderDb, items: seq<OrderItem>)
    requires Valid(db)
    ensures var c := CreateOrder(db, items);
      ItemsOf(c.db.itemRows, c.order.id) == items
  {
    var id := CreateOrder(db, items).order.id;
    CreateFreshId(db, items);
    ItemsOfAbsent(db.itemRows, id);
    ItemsOfAppend(db.itemRows, RowsFor(id, items), id);
    ItemsOfRowsFor(id, items, id + 1);
  }

  /** Reading a new order back gives its id, the pending status and exactly
      the submitted lines, with no line of another order mixed in. */
  lemma GetAfterCreate(db: OrderDb, items: seq<OrderItem>)
    requires Valid(db)
    ensures var c := CreateOrder(db, items);
      GetOrder(c.db, c.order.id) == Ok(Order(c.order.id, items, Pending))
  {
    var c := CreateOrder(db, items);
    var id := c.order.id;
    ItemsOfCreated(db, items);
    FindOrderAppend(db.orders, OrderRow(id, Pending), id);
    assert FindOrder(c.db.orders, id) == Some(OrderRow(id, Pending));
  }

  /** Placing an order changes no existing order: every other id reads as
      before, status and lines alike. */
  lemma CreateKeepsOthers(db: OrderDb, items: seq<OrderItem>, id: int)
    requires Valid(db)
    requires id != CreateOrder(db, items).order.id
    ensures GetOrder(CreateOrder(db, items).db, id) == GetOrder(db, id)
  {
    var c := CreateOrder(db, items);
    ItemsOfAppend(db.itemRows, RowsFor(c.order.id, items), id);
    ItemsOfRowsFor(c.order.id, items, id);
    assert ItemsOf(c.db.itemRows, id) == ItemsOf(db.itemRows, id);
    FindOrderAppend(db.orders, OrderRow(c.order.id, Pending), id);
    assert FindOrder(c.db.orders, id) == FindOrder(db.orders, id);
  }

  /** An id that AUTOINCREMENT has not handed out reads as NotFound. */
  lemma GetNeverCreated(db: OrderDb, id: int)
    requires Valid(db)
    requires id < 1 || id > db.lastId
    ensures GetOrder(db, id) == Err(NotFound("Order not found"))
  {
  }

  /** Listing agrees with reading one order at a time: each listed order is
      what `get_order` returns for its id, and no id is listed twice. */
  lemma ListAgreesWithGet(db: OrderDb)
    requires Valid(db)
    ensures forall i :: 0 <= i < |ListOrders(db)| ==> GetOrder(db, ListOrders(db)[i].id) == Ok(ListOrders(db)[i])
    ensures forall i, j :: 0 <= i < j < |ListOrders(db)| ==> ListOrders(db)[i].id != ListOrders(db)[j].id
  {
    forall i | 0 <= i < |ListOrders(db)|
      ensures GetOrder(db, ListOrders(db)[i].id) == Ok(ListOrders(db)[i])
    {
      FindOrderUnique(db.orders, i);
    }
  }

  /** Placing an order adds no line under any other id. */
  lemma ItemsOfAfterCreate(db: OrderDb, items: seq<OrderItem>, other: int)
    requires other != CreateOrder(db, items).order.id
    ensures ItemsOf(CreateOrder(db, items).db.itemRows, other) == ItemsOf(db.itemRows, other)
  {
    var id := CreateOrder(db, items).order.id;
    ItemsOfAppend(db.itemRows, RowsFor(id, items), other);
    ItemsOfRowsFor(id, items, other);
  }

  /** Placing an order adds exactly one entry, the new order, to the end of
      the list, and leaves every listed order as it was. */
  lemma ListAfterCreate(db: OrderDb, items: seq<OrderItem>)
    requires Valid(db)
    ensures var c := CreateOrder(db, items);
      ListOrders(c.db) == ListOrders(db) + [c.order]
  {
    var c := CreateOrder(db, items);
    var before := ListOrders(db);
    var after := ListOrders(c.db);
    var id := c.order.id;
    forall i | 0 <= i < |before|
      ensures after[i] == before[i]
    {
      ItemsOfAfterCreate(db, items, db.orders[i].id);
    }
    ItemsOfCreated(db, items);
    assert after[|before|] == c.order;
    assert after == before + [c.order];
  }

  /** The deterministic reading is one of the admissible ones. */
  lemma GetOrderAdmissible(db: OrderDb, id: int)
    ensures AdmissibleGet(db, id, GetOrder(db, id))
  {
  }

  /** Whatever order the lines of a new order come back in, the reply is
      the pending order with the submitted lines as a multiset. */
  lemma AdmissibleAfterCreate(db: OrderDb, items: seq<OrderItem>, reply: Result<Order>)
    requires Valid(db)
    requires AdmissibleGet(CreateOrder(db, items).db, CreateOrder(db, items).order.id, reply)
    ensures reply.Ok?
    ensures reply.value.status == Pending
    ensures multiset(reply.value.items) == multiset(items)
  {
    GetAfterCreate(db, items);
  }

  /** Two orders placed on an empty store get ids 1 and 2, each reads back
      with only its own lines, and id 3 is unknown. */
  lemma OrderStoreExample()
    ensures var first := [OrderItem("SKU001", 2)];
      var second := [OrderItem("SKU002", 1), OrderItem("SKU001", -4)];
      var c1 := CreateOrder(Empty, first);
      var c2 := CreateOrder(c1.db, second);
      && c1.order == Order(1, first, Pending)
      && c2.order == Order(2, second, Pending)
      && GetOrder(c2.db, 1) == Ok(Order(1, first, Pending))
      && GetOrder(c2.db, 2) == Ok(Order(2, second, Pending))
      && GetOrder(c2.db, 3) == Err(NotFound("Order not found"))
      && |ListOrders(c2.db)| == 2
  {
    var first := [OrderItem("SKU001", 2)];
    var second := [OrderItem("SKU002", 1), OrderItem("SKU001", -4)];
    var c1 := CreateOrder(Empty, first);
    GetAfterCreate(Empty, first);
    GetAfterCreate(c1.db, second);
    CreateKeepsOthers(c1.db, second, 1);
    GetNeverCreated(CreateOrder(c1.db, second).db, 3);
  }

  /** The table-order listing is one of the replies allowed without ORDER
      BY. */
  lemma ListOrdersAdmissible(db: OrderDb)
    ensures AdmissibleList(db, ListOrders(db))
  {
    assert ReplyRows(ListOrders(db)) == db.orders;
  }

  /** Whatever arrangement `list_orders` returns after an order is placed,
      it has one more entry than there were orders before. The new id is
      listed, and every entry with that id is pending and carries the
      submitted lines as a multiset. */
  lemma AdmissibleListAfterCreate(db: OrderDb, items: seq<OrderItem>, reply: seq<Order>)
    requires Valid(db)
    requires AdmissibleList(CreateOrder(db, items).db, reply)
    ensures |reply| == |db.orders| + 1
    ensures exists j :: 0 <= j < |reply| && reply[j].id == CreateOrder(db, items).order.id
    ensures forall j :: 0 <= j < |reply| && reply[j].id == CreateOrder(db, items).order.id ==>
      reply[j].status == Pending && multiset(reply[j].items) == multiset(items)
  {
    var c := CreateOrder(db, items);
    var id := c.order.id;
    var rows := ReplyRows(reply);
    assert |multiset(rows)| == |multiset(c.db.orders)|;
    assert OrderRow(id, Pending) in multiset(c.db.orders);
    assert OrderRow(id, Pending) in rows;
    var k :| 0 <= k < |rows| && rows[k] == OrderRow(id, Pending);
    assert reply[k].id == id;
    forall j | 0 <= j < |reply| && reply[j].id == id
      ensures reply[j].status == Pending && multiset(reply[j].items) == multiset(items)
    {
      assert rows[j] in multiset(c.db.orders);
      NewRowIsPending(db, items, rows[j]);
      LinesOfCreated(db, items, reply[j].items);
    }
  }

  /** After placing an order, the only row carrying its id is its own
      pending row. */
  lemma NewRowIsPending(db: OrderDb, items: seq<OrderItem>, row: OrderRow)
    requires Valid(db)
    requires row in CreateOrder(db, items).db.orders
    requires row.id == CreateOrder(db, items).order.id
    ensures row.status == Pending
  {
    assert row !in db.orders;
  }

  /** Any arrangement of a new order's stored lines is the submitted lines
      as a multiset. */
  lemma LinesOfCreated(db: OrderDb, items: seq<OrderItem>, xs: seq<OrderItem>)
    requires Valid(db)
    requires LinesOf(xs, CreateOrder(db, items).db.itemRows, CreateOrder(db, items).order.id)
    ensures multiset(xs) == multiset(items)
  {
    var c := CreateOrder(db, items);
    ItemsOfCount(c.db.itemRows, c.order.id);
    ItemsOfCreated(db, items);
    forall x
      ensures multiset(xs)[x] == multiset(items)[x]
    {
      assert multiset(xs)[x] == multiset(c.db.itemRows)[ItemRow(c.order.id, x.sku, x.quantity)];
    }
  }
}
