/** Properties of the inventory ledger that relate several operations or a
    whole run of adjustments. */
module InventoryLemmas {
  import opened Results
  import opened Inventory

  /** A missing row is created only by a non-negative delta, which becomes
      its quantity (zero included); a negative delta creates no row. */
  lemma AdjustMissingRow(ledger: Ledger, sku: string, stock: Stock)
    requires KeyOf(sku, stock) !in ledger
    ensures Adjust(ledger, sku, stock).reply.Ok? <==> stock.quantity >= 0
    ensures stock.quantity >= 0 ==>
      var k := KeyOf(sku, stock);
      k in Adjust(ledger, sku, stock).ledger && Adjust(ledger, sku, stock).ledger[k] == stock.quantity
    ensures stock.quantity < 0 ==> KeyOf(sku, stock) !in Adjust(ledger, sku, stock).ledger
  {
  }

  /** The sku inside the body is never consulted: two bodies that differ only
      in it give the same table and the same reply. */
  lemma AdjustIgnoresBodySku(ledger: Ledger, sku: string, location: string, delta: int, bodySku1: string, bodySku2: string)
    ensures Adjust(ledger, sku, Stock(bodySku1, location, delta))
         == Adjust(ledger, sku, Stock(bodySku2, location, delta))
  {
  }

  /** A read of the sku after an adjustment: an accepted adjustment is seen
      at its location with the new level, a rejected one changes nothing the
      read can see, and the other skus read as before. */
  lemma AdjustThenGet(ledger: Ledger, sku: string, stock: Stock, other: string)
    requires other != sku
    ensures var a := Adjust(ledger, sku, stock);
      a.reply.Ok? ==>
        && GetInventory(a.ledger, sku).Ok?
        && stock.location in GetInventory(a.ledger, sku).value
        && GetInventory(a.ledger, sku).value[stock.location] == Level(ledger, KeyOf(sku, stock)) + stock.quantity
    ensures var a := Adjust(ledger, sku, stock);
      a.reply.Err? ==> GetInventory(a.ledger, sku) == GetInventory(ledger, sku)
    ensures GetInventory(Adjust(ledger, sku, stock).ledger, other) == GetInventory(ledger, other)
  {
    var a := Adjust(ledger, sku, stock);
    var k := KeyOf(sku, stock);
    if a.reply.Ok? {
      assert k in a.ledger;
    }
    var before := GetInventory(ledger, other);
    var after := GetInventory(a.ledger, other);
    assert forall key: Key :: key.sku == other ==> (key in a.ledger <==> key in ledger);
    if before.Ok? && after.Ok? {
      assert before.value == after.value;
    }
  }

  /** The level of a key after a run is its level before plus the sum of
      the deltas aimed at it that were accepted; rejected deltas count for
      nothing. */
  lemma {:induction false} RunLevelIsAcceptedSum(ledger: Ledger, reqs: seq<Request>, k: Key)
    ensures var t := Run(ledger, reqs);
      Level(t.ledger, k) == Level(ledger, k) + AcceptedSum(reqs, t.replies, k)
    decreases |reqs|
  {
    if |reqs| > 0 {
      var first := Adjust(ledger, reqs[0].sku, reqs[0].stock);
      var t := Run(ledger, reqs);
      var rest := Run(first.ledger, reqs[1..]);
      RunLevelIsAcceptedSum(first.ledger, reqs[1..], k);
      assert t.replies[1..] == rest.replies;
    }
  }

  /** A key that no request of a run addresses keeps its level. */
  lemma {:induction false} RunUntouchedKey(ledger: Ledger, reqs: seq<Request>, k: Key)
    requires forall i :: 0 <= i < |reqs| ==> KeyOf(reqs[i].sku, reqs[i].stock) != k
    ensures Level(Run(ledger, reqs).ledger, k) == Level(ledger, k)
    decreases |reqs|
  {
    if |reqs| > 0 {
      var first := Adjust(ledger, reqs[0].sku, reqs[0].stock);
      RunUntouchedKey(first.ledger, reqs[1..], k);
    }
  }

  /** `n` one-unit withdrawals from a key holding `level` units: exactly
      min(n, level) succeed, the rest are rejected, and the key ends at
      level - min(n, level), never below zero. */
  lemma {:induction false} DrainByWithdrawals(ledger: Ledger, sku: string, location: string, n: nat, level: nat)
    requires Level(ledger, Key(sku, location)) == level
    ensures var t := Run(ledger, Withdrawals(sku, location, n));
      var m := if n <= level then n else level;
      && Successes(t.replies) == m
      && Level(t.ledger, Key(sku, location)) == level - m
    decreases n
  {
    if n > 0 {
      var reqs := Withdrawals(sku, location, n);
      var first := Adjust(ledger, sku, Stock(sku, location, -1));
      assert reqs[0] == Request(sku, Stock(sku, location, -1));
      assert reqs[1..] == Withdrawals(sku, location, n - 1);
      var next: nat := if level > 0 then level - 1 else 0;
      DrainByWithdrawals(first.ledger, sku, location, n - 1, next);
      var t := Run(ledger, reqs);
      var rest := Run(first.ledger, reqs[1..]);
      assert t.replies == [first.reply] + rest.replies;
      assert t.replies[1..] == rest.replies;
    }
  }

  /** The adjustment flow of the service's own test on a fresh table: +5,
      then -3, then -5 at SKU001/store1. The reads show 5 and then 2; the
      last withdrawal is rejected and the level stays 2, the sum of the two
      accepted deltas. */
  lemma InventoryFlowExample()
    ensures var a1 := Adjust(map[], "SKU001", Stock("SKU001", "store1", 5));
      var a2 := Adjust(a1.ledger, "SKU001", Stock("SKU001", "store1", -3));
      var a3 := Adjust(a2.ledger, "SKU001", Stock("SKU001", "store1", -5));
      && a1.reply.Ok? && GetInventory(a1.ledger, "SKU001") == Ok(map["store1" := 5])
      && a2.reply.Ok? && GetInventory(a2.ledger, "SKU001") == Ok(map["store1" := 2])
      && a3.reply == Err(InsufficientStock) && GetInventory(a3.ledger, "SKU001") == Ok(map["store1" := 2])
    ensures var reqs := [Request("SKU001", Stock("SKU001", "store1", 5)),
                         Request("SKU001", Stock("SKU001", "store1", -3)),
                         Request("SKU001", Stock("SKU001", "store1", -5))];
      var t := Run(map[], reqs);
      && Successes(t.replies) == 2
      && Level(t.ledger, Key("SKU001", "store1")) == AcceptedSum(reqs, t.replies, Key("SKU001", "store1")) == 2
  {
    var k := Key("SKU001", "store1");
    var a1 := Adjust(map[], "SKU001", Stock("SKU001", "store1", 5));
    assert a1.ledger == map[k := 5];
    var a2 := Adjust(a1.ledger, "SKU001", Stock("SKU001", "store1", -3));
    assert a2.ledger == map[k := 2];
    var a3 := Adjust(a2.ledger, "SKU001", Stock("SKU001", "store1", -5));
    assert a3.ledger == map[k := 2];
    assert GetInventory(a1.ledger, "SKU001").value == map["store1" := 5];
    assert GetInventory(a2.ledger, "SKU001").value == map["store1" := 2];
    var reqs := [Request("SKU001", Stock("SKU001", "store1", 5)),
                 Request("SKU001", Stock("SKU001", "store1", -3)),
                 Request("SKU001", Stock("SKU001", "store1", -5))];
    var t := Run(map[], reqs);
    assert reqs[1..][1..][1..] == [];
    assert t.replies == [a1.reply, a2.reply, a3.reply];
    assert t.replies[1..] == [a2.reply, a3.reply];
    assert t.replies[1..][1..] == [a3.reply];
    assert Successes([a3.reply]) == 0;
    RunLevelIsAcceptedSum(map[], reqs, k);
  }
}
