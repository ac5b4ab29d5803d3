/** Conservation of stock: the stock of a product is what its recorded history says it is. */
module InventoryLedger {
  import opened Wrappers
  import opened Inventory
  import opened InventoryInvariants
  import opened MapSums

  function StockOf(db: Db, p: ProductId): int { if p in db.products then db.products[p].stock else 0 }

  // INCREASE minus DECREASE minus MARK_SOLD over the movement rows of p.
  function MovementTotal(movements: seq<Movement>, p: ProductId): int {
    if movements == [] then 0
    else
      var last := movements[|movements| - 1];
      MovementTotal(movements[..|movements| - 1], p) + if last.product == p then SignedQuantity(last) else 0
  }

  lemma MovedAppended(movements: seq<Movement>, m: Movement, p: ProductId)
    ensures MovementTotal(movements + [m], p)
         == MovementTotal(movements, p) + if m.product == p then SignedQuantity(m) else 0
  {
    assert (movements + [m])[..|movements|] == movements;
  }

  // Quantity an order took out of the stock of p.
  function TakenBy(p: ProductId): Order -> int {
    (o: Order) => if o.product == p && o.status == Completed then o.quantity else 0
  }

  ghost function Taken(db: Db, p: ProductId): int { Sum(db.orders, TakenBy(p)) }

  // Stock written directly, which leaves no row: the stock a product is created with, and edits.
  function CreatedStock(db: Db, op: Op, newId: nat, p: ProductId): int {
    if op.CreateProduct? && newId == p && Exec(db, op, newId).Ok? then op.initial else 0
  }

  function EditDelta(db: Db, op: Op, newId: nat, p: ProductId): int {
    if op.UpdateProduct? && op.product == p && Stock in op.fields && Exec(db, op, newId).Ok? then
      op.stock - StockOf(db, p)
    else 0
  }

  function Direct(db: Db, ops: seq<(Op, nat)>, p: ProductId): int
    decreases |ops|
  {
    if ops == [] then 0
    else
      CreatedStock(db, ops[0].0, ops[0].1, p) + EditDelta(db, ops[0].0, ops[0].1, p)
      + Direct(ExecDb(db, ops[0].0, ops[0].1), ops[1..], p)
  }

  // One operation: the change of stock is the change of its records.
  ghost predicate Conserved(a: Db, b: Db, direct: int, p: ProductId) {
    StockOf(b, p) - StockOf(a, p)
      == direct + (MovementTotal(b.movements, p) - MovementTotal(a.movements, p)) - (Taken(b, p) - Taken(a, p))
  }

  lemma AdjustConserves(db: Db, op: Op, product: Product, p: ProductId)
    requires op.AdjustStock? && LoadOwnedProduct(db, op.product, op.merchant) == Ok(product) && DbInv(db)
    requires DecideAdjust(op, product).Ok?
    ensures Conserved(db, ApplyAll(db, DecideAdjust(op, product).value.0), 0, p)
  {
    var ws := DecideAdjust(op, product).value.0;
    TwoWrites(db, ws[0], ws[1]);
    MovedAppended(db.movements, ws[1].movement, p);
    assert ProductOk(db, op.product, product);
  }

  lemma PlaceConserves(db: Db, op: Op, product: Product, newId: OrderId, p: ProductId)
    requires op.PlaceOrder? && LoadOwnedProduct(db, op.product, op.merchant) == Ok(product) && newId !in db.orders
    requires DecidePlace(op, product, newId).Ok?
    ensures Conserved(db, ApplyAll(db, DecidePlace(op, product, newId).value.0), 0, p)
  {
    var ws := DecidePlace(op, product, newId).value.0;
    ThreeWrites(db, ws[0], ws[1], ws[2]);
    SumUpdate(db.orders, TakenBy(p), newId, ws[0].order);
  }

  lemma MoveConserves(db: Db, op: Op, order: Order, product: Product, p: ProductId)
    requires op.MoveOrder? && LoadOwnedOrder(db, op.order, op.merchant) == Ok(order)
    requires LoadOwnedProduct(db, order.product, op.merchant) == Ok(product)
    requires DecideMove(op, order, product).Ok?
    ensures Conserved(db, ApplyAll(db, DecideMove(op, order, product).value.0), 0, p)
  {
    var ws := DecideMove(op, order, product).value.0;
    if ws != [] {
      ThreeWrites(db, ws[0], ws[1], ws[2]);
      SumUpdate(db.orders, TakenBy(p), op.order, ws[0].order);
    }
  }

  lemma DirectConserves(db: Db, op: Op, newId: nat, p: ProductId)
    requires DbInv(db) && FreshId(db, op, newId) && Exec(db, op, newId).Ok?
    requires op.CreateProduct? || op.UpdateProduct? || op.SetShelf? || op.DeleteProduct?
    ensures Conserved(db, ExecDb(db, op, newId), CreatedStock(db, op, newId, p) + EditDelta(db, op, newId, p), p)
  {
    var ws := DecideOn(db, op, newId).value.0;
    if ws != [] { OneWrite(db, ws[0]); }
  }

  lemma ExecConserves(db: Db, op: Op, newId: nat, p: ProductId)
    requires DbInv(db) && FreshId(db, op, newId)
    ensures Conserved(db, ExecDb(db, op, newId), CreatedStock(db, op, newId, p) + EditDelta(db, op, newId, p), p)
  {
    if Exec(db, op, newId).Ok? {
      if op.AdjustStock? { AdjustConserves(db, op, db.products[op.product], p); }
      else if op.PlaceOrder? { PlaceConserves(db, op, db.products[op.product], newId, p); }
      else if op.MoveOrder? {
        var order := db.orders[op.order];
        MoveConserves(db, op, order, db.products[order.product], p);
      } else { DirectConserves(db, op, newId, p); }
    }
  }

  lemma {:induction false} RunConserves(db: Db, ops: seq<(Op, nat)>, p: ProductId)
    requires DbInv(db) && AllFresh(db, ops)
    ensures Conserved(db, ExecAll(db, ops), Direct(db, ops, p), p)
    decreases |ops|
  {
    if ops != [] {
      var next := ExecDb(db, ops[0].0, ops[0].1);
      ExecKeeps(db, ops[0].0, ops[0].1);
      ExecConserves(db, ops[0].0, ops[0].1, p);
      RunConserves(next, ops[1..], p);
    }
  }

  const EMPTY := Db(map[], map[], [], [])

  /**
   From an empty database, after any run: the stock of a product is the stock it was created with,
   plus its direct edits, plus its movements, minus what its completed orders took.
   */
  lemma StockIsItsHistory(ops: seq<(Op, nat)>, p: ProductId)
    requires AllFresh(EMPTY, ops)
    ensures var db := ExecAll(EMPTY, ops);
      StockOf(db, p) == Direct(EMPTY, ops, p) + MovementTotal(db.movements, p) - Taken(db, p)
  {
    RunConserves(EMPTY, ops, p);
  }

  // Selling all that remains records the whole stock and sells the product out.
  lemma AllRemainingSellsOut(db: Db, op: Op, newId: nat)
    requires DbInv(db) && op.AdjustStock? && op.allRemaining && Exec(db, op, newId).Ok?
    ensures var row := Exec(db, op, newId).value.1.row;
      && row.quantity == StockOf(db, op.product) && row.stockAfter == 0 && row.statusAfter == Sold
      && StockOf(ExecDb(db, op, newId), op.product) == 0
  {
    var ws := DecideOn(db, op, newId).value.0;
    TwoWrites(db, ws[0], ws[1]);
  }
}
