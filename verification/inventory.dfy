/** The inventory ledger of the inventory service: a table of quantities
    keyed by (sku, location), read one sku at a time and changed by guarded
    adjustments. The SQL table becomes an immutable map and every handler a
    pure function from the old table to the new one and a reply. */
module Inventory {
  import opened Results

  /** The request and reply body of an adjustment: a sku, a location and a
      quantity (a signed delta in a request). */
  datatype Stock = Stock(sku: string, location: string, quantity: int)

  /** The primary key of the inventory table. */
  datatype Key = Key(sku: string, location: string)

  /** The inventory table: one stored quantity per (sku, location) row. */
  type Ledger = map<Key, int>

  /** What an adjustment leaves behind: the table after it, and its reply. */
  datatype Adjusted = Adjusted(ledger: Ledger, reply: Result<Stock>)

  /** The stock level at a key, reading a missing row as zero. */
  function Level(ledger: Ledger, k: Key): int
  {
    if k in ledger then ledger[k] else 0
  }

  /** Every stored quantity is non-negative. */
  predicate NonNegative(ledger: Ledger)
  {
    forall k :: k in ledger ==> ledger[k] >= 0
  }

  /** The row an adjustment of `sku` addresses: the sku of the request path
      and the location of the body; the body's own sku plays no part. */
  function KeyOf(sku: string, stock: Stock): Key
  {
    Key(sku, stock.location)
  }

  /** `GET /inventory/{sku}`: the location-to-quantity pairs of the rows of
      `sku`, or NotFound when the sku has no row at all. */
  function GetInventory(ledger: Ledger, sku: string): (r: Result<map<string, int>>)
    ensures r.Err? <==> forall k :: k in ledger ==> k.sku != sku
    ensures r.Err? ==> r.error == NotFound("SKU not found")
    ensures r.Ok? ==> forall loc :: loc in r.value <==> Key(sku, loc) in ledger
    ensures r.Ok? ==> forall loc :: loc in r.value ==> r.value[loc] == ledger[Key(sku, loc)]
  {
    var rows := map k | k in ledger && k.sku == sku :: k.location := ledger[k];
    assert forall k :: k in ledger && k.sku == sku ==> k.location in rows;
    if rows == map[] then
      Err(NotFound("SKU not found"))
    else
      Ok(rows)
  }

  /** `POST /inventory/{sku}/adjust`: add the body's signed quantity to the
      row (sku, location). An existing row whose sum would go negative is
      rejected; a missing row is inserted with the delta as its quantity
      unless the delta is negative. A rejected adjustment leaves the table as
      it was; an accepted one echoes the submitted delta back, not the new
      level. Either way the ledger reads as if a missing row held zero. */
  function Adjust(ledger: Ledger, sku: string, stock: Stock): (r: Adjusted)
    ensures r.reply.Ok? <==> Level(ledger, KeyOf(sku, stock)) + stock.quantity >= 0
    ensures r.reply.Ok? ==>
      && r.ledger == ledger[KeyOf(sku, stock) := Level(ledger, KeyOf(sku, stock)) + stock.quantity]
      && r.reply.value == Stock(sku, stock.location, stock.quantity)
    ensures r.reply.Err? ==> r.ledger == ledger && r.reply.error == InsufficientStock
    ensures forall k :: k != KeyOf(sku, stock) ==>
      (k in r.ledger <==> k in ledger) && Level(r.ledger, k) == Level(ledger, k)
    ensures NonNegative(ledger) ==> NonNegative(r.ledger)
  {
    var k := Key(sku, stock.location);
    if k in ledger then
      var newQuantity := ledger[k] + stock.quantity;
      if newQuantity < 0 then
        Adjusted(ledger, Err(InsufficientStock))
      else
        Adjusted(ledger[k := newQuantity], Ok(Stock(sku, stock.location, stock.quantity)))
    else if stock.quantity < 0 then
      Adjusted(ledger, Err(InsufficientStock))
    else
      Adjusted(ledger[k := stock.quantity], Ok(Stock(sku, stock.location, stock.quantity)))
  }

  /** One adjust request: the sku of the path and the body. */
  datatype Request = Request(sku: string, stock: Stock)

  /** The table after a run of requests, and one reply per request. */
  datatype Trace = Trace(ledger: Ledger, replies: seq<Result<Stock>>)

  /** Requests handled one after another, each an atomic step against the
      table the previous one left. */
  function Run(ledger: Ledger, reqs: seq<Request>): (t: Trace)
    ensures |t.replies| == |reqs|
    ensures NonNegative(ledger) ==> NonNegative(t.ledger)
    decreases |reqs|
  {
    if |reqs| == 0 then
      Trace(ledger, [])
    else
      var first := Adjust(ledger, reqs[0].sku, reqs[0].stock);
      var rest := Run(first.ledger, reqs[1..]);
      Trace(rest.ledger, [first.reply] + rest.replies)
  }

  /** The sum of the deltas aimed at `k` whose reply was a success. */
  function AcceptedSum(reqs: seq<Request>, replies: seq<Result<Stock>>, k: Key): int
    requires |replies| == |reqs|
    decreases |reqs|
  {
    if |reqs| == 0 then 0
    else
      (if replies[0].Ok? && KeyOf(reqs[0].sku, reqs[0].stock) == k then reqs[0].stock.quantity else 0)
      + AcceptedSum(reqs[1..], replies[1..], k)
  }

  /** The number of successful replies. */
  function Successes(replies: seq<Result<Stock>>): nat
  {
    if |replies| == 0 then 0
    else (if replies[0].Ok? then 1 else 0) + Successes(replies[1..])
  }

  /** `n` requests that each take one unit from (sku, location). */
  function Withdrawals(sku: string, location: string, n: nat): (reqs: seq<Request>)
  {
    seq(n, _ => Request(sku, Stock(sku, location, -1)))
  }
}
