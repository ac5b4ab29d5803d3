/**
 What every operation keeps: stock bounds, one active order per product, the stock ledger, the
 history of each order.
 */
module InventoryInvariants {
  import opened Wrappers
  import opened Inventory

  // ----- products and orders -------------------------------------------------------------------

  ghost predicate ProductOk(db: Db, p: ProductId, row: Product) {
    && 0 <= row.reserved <= row.stock
    && (row.status == Locked <==> row.activeOrder.Some?)
    && (row.activeOrder.None? ==> row.reserved == 0)
    && (row.activeOrder.Some? ==>
          var o := row.activeOrder.value;
          && o in db.orders && db.orders[o].product == p
          && db.orders[o].status == Created && db.orders[o].quantity == row.reserved)
    && (row.status == OnShelf ==> row.stock > row.reserved)
    && (row.status == Sold ==> row.stock == 0)
  }

  ghost predicate OrderOk(db: Db, o: OrderId, row: Order) {
    && row.quantity == 1
    && (row.isActive <==> row.status == Created)
    && row.product in db.products && !db.products[row.product].deleted
    && db.products[row.product].merchant == row.merchant
    && (row.status == Created ==> db.products[row.product].activeOrder == Some(o))
  }

  // The events of one order, oldest first.
  function EventsOf(events: seq<OrderEvent>, o: OrderId): seq<OrderEvent> {
    if events == [] then []
    else
      var last := events[|events| - 1];
      var before := EventsOf(events[..|events| - 1], o);
      if last.order == o then before + [last] else before
  }

  function Story(o: OrderId, status: OrderStatus): seq<OrderEvent> {
    var born := OrderEvent(o, CreateEvent, None, Created);
    match status
    case Created => [born]
    case Completed => [born, OrderEvent(o, CompleteEvent, Some(Created), Completed)]
    case Closed => [born, OrderEvent(o, CloseEvent, Some(Created), Closed)]
  }

  ghost predicate EventsOk(db: Db, o: OrderId) {
    EventsOf(db.events, o) == if o in db.orders then Story(o, db.orders[o].status) else []
  }

  predicate MovementOk(m: Movement) {
    && m.quantity > 0 && m.stockBefore >= 0 && m.stockAfter >= 0
    && m.stockAfter == m.stockBefore + SignedQuantity(m)
    && m.kind != Unknown
  }

  function SignedQuantity(m: Movement): int { if m.kind == Increase then m.quantity else -m.quantity }

  ghost predicate DbInv(db: Db) {
    && (forall p | p in db.products :: ProductOk(db, p, db.products[p]))
    && (forall o | o in db.orders :: OrderOk(db, o, db.orders[o]))
    && (forall o: OrderId :: EventsOk(db, o))
    && (forall i | 0 <= i < |db.movements| :: MovementOk(db.movements[i]))
  }

  lemma EventAppended(events: seq<OrderEvent>, e: OrderEvent, o: OrderId)
    ensures EventsOf(events + [e], o) == EventsOf(events, o) + if e.order == o then [e] else []
  {
    assert (events + [e])[..|events|] == events;
  }

  // One product row is saved; its orders and events stay.
  lemma ProductSaved(db: Db, p: ProductId, row: Product)
    requires DbInv(db)
    requires p in db.products ==>
      row.activeOrder == db.products[p].activeOrder && row.merchant == db.products[p].merchant
    requires row.deleted ==> !HasOrders(db, p)
    requires ProductOk(db, p, row)
    ensures DbInv(Apply(db, SaveProduct(p, row)))
  {
    var b := Apply(db, SaveProduct(p, row));
    forall o | o in b.orders ensures OrderOk(b, o, b.orders[o]) { assert OrderOk(db, o, db.orders[o]); }
    forall q | q in b.products ensures ProductOk(b, q, b.products[q]) {
      if q != p { assert ProductOk(db, q, db.products[q]); }
    }
    forall o: OrderId ensures EventsOk(b, o) { assert EventsOk(db, o); }
  }

  lemma MovementAdded(db: Db, m: Movement)
    requires DbInv(db) && MovementOk(m)
    ensures DbInv(Apply(db, AddMovement(m)))
  {
    var b := Apply(db, AddMovement(m));
    forall o | o in b.orders ensures OrderOk(b, o, b.orders[o]) { assert OrderOk(db, o, db.orders[o]); }
    forall q | q in b.products ensures ProductOk(b, q, b.products[q]) { assert ProductOk(db, q, db.products[q]); }
    forall o: OrderId ensures EventsOk(b, o) { assert EventsOk(db, o); }
  }

  // An order row, its product row and an event are written together.
  lemma OrderAndProductSaved(db: Db, o: OrderId, order: Order, row: Product, e: OrderEvent)
    requires DbInv(db)
    requires order.product in db.products && !row.deleted
    requires o in db.orders ==> db.orders[o].product == order.product
    requires forall j | j in db.orders && j != o && db.orders[j].product == order.product ::
      db.orders[j].status != Created
    requires row.merchant == db.products[order.product].merchant
    requires e.order == o
    requires var b := Db(db.products[order.product := row], db.orders[o := order], db.movements, db.events + [e]);
      ProductOk(b, order.product, row) && OrderOk(b, o, order)
    requires (if o in db.orders then Story(o, db.orders[o].status) else []) + [e] == Story(o, order.status)
    ensures DbInv(Db(db.products[order.product := row], db.orders[o := order], db.movements, db.events + [e]))
  {
    var p := order.product;
    var b := Db(db.products[p := row], db.orders[o := order], db.movements, db.events + [e]);
    forall q | q in b.products ensures ProductOk(b, q, b.products[q]) {
      if q != p { assert ProductOk(db, q, db.products[q]); }
    }
    forall j | j in b.orders ensures OrderOk(b, j, b.orders[j]) {
      if j != o { assert OrderOk(db, j, db.orders[j]); }
    }
    forall j: OrderId ensures EventsOk(b, j) {
      assert EventsOk(db, j);
      EventAppended(db.events, e, j);
    }
  }

  lemma OneWrite(db: Db, a: Write)
    ensures ApplyAll(db, [a]) == Apply(db, a)
  {
    assert ApplyAll(db, [a]) == ApplyAll(Apply(db, a), [a][1..]);
  }

  lemma TwoWrites(db: Db, a: Write, b: Write)
    ensures ApplyAll(db, [a, b]) == Apply(Apply(db, a), b)
  {
    assert [a, b][1..] == [b];
    OneWrite(Apply(db, a), b);
  }

  lemma ThreeWrites(db: Db, a: Write, b: Write, c: Write)
    ensures ApplyAll(db, [a, b, c]) == Apply(Apply(Apply(db, a), b), c)
  {
    assert [a, b, c][1..] == [b, c];
    TwoWrites(Apply(db, a), b, c);
  }

  ghost predicate DecisionKeeps(db: Db, d: Decision) { d.Ok? ==> DbInv(ApplyAll(db, d.value.0)) }

  lemma AdjustKeeps(db: Db, op: Op, product: Product)
    requires DbInv(db) && op.AdjustStock? && LoadOwnedProduct(db, op.product, op.merchant) == Ok(product)
    ensures DecisionKeeps(db, DecideAdjust(op, product))
  {
    match CalculateAdjustment(product, op.kind, op.quantity, op.allRemaining)
    case Err(_) =>
    case Ok((q, after, status)) =>
      assert ProductOk(db, op.product, product);
      var row := Movement(op.product, op.kind, q, product.stock, after, product.status, status);
      var saved := product.(stock := after, status := status);
      TwoWrites(db, SaveProduct(op.product, saved), AddMovement(row));
      ProductSaved(db, op.product, saved);
      MovementAdded(Apply(db, SaveProduct(op.product, saved)), row);
  }

  lemma PlaceKeeps(db: Db, op: Op, product: Product, newId: OrderId)
    requires DbInv(db) && op.PlaceOrder? && newId !in db.orders
    requires LoadOwnedProduct(db, op.product, op.merchant) == Ok(product)
    ensures DecisionKeeps(db, DecidePlace(op, product, newId))
  {
    match DecidePlace(op, product, newId)
    case Err(_) =>
    case Ok((ws, _)) =>
      assert ProductOk(db, op.product, product);
      ThreeWrites(db, ws[0], ws[1], ws[2]);
      forall j | j in db.orders && db.orders[j].product == op.product ensures db.orders[j].status != Created {
        assert OrderOk(db, j, db.orders[j]);
      }
      OrderAndProductSaved(db, newId, ws[0].order, ws[1].row, ws[2].event);
  }

  lemma MoveKeeps(db: Db, op: Op, order: Order, product: Product)
    requires DbInv(db) && op.MoveOrder?
    requires LoadOwnedOrder(db, op.order, op.merchant) == Ok(order)
    requires LoadOwnedProduct(db, order.product, op.merchant) == Ok(product)
    ensures DecisionKeeps(db, DecideMove(op, order, product))
  {
    match DecideMove(op, order, product)
    case Err(_) =>
    case Ok((ws, _)) =>
      if ws != [] {
        assert ProductOk(db, order.product, product) && OrderOk(db, op.order, order);
        ThreeWrites(db, ws[0], ws[1], ws[2]);
        forall j | j in db.orders && j != op.order && db.orders[j].product == order.product
          ensures db.orders[j].status != Created
        {
          assert OrderOk(db, j, db.orders[j]);
        }
        OrderAndProductSaved(db, op.order, ws[0].order, ws[1].row, ws[2].event);
      }
  }

  // Operations that write at most one product row.
  lemma SingleWriteKeeps(db: Db, op: Op, product: Product)
    requires DbInv(db) && (op.UpdateProduct? || op.SetShelf? || op.DeleteProduct?)
    requires LoadOwnedProduct(db, op.product, op.merchant) == Ok(product)
    ensures DecisionKeeps(db, Decide(op, None, Some(product), HasOrders(db, op.product), 0))
  {
    match Decide(op, None, Some(product), HasOrders(db, op.product), 0)
    case Err(_) =>
    case Ok((ws, _)) =>
      if ws != [] {
        assert ProductOk(db, op.product, product);
        OneWrite(db, ws[0]);
        ProductSaved(db, op.product, ws[0].row);
      }
  }

  lemma CreateKeeps(db: Db, op: Op, newId: ProductId)
    requires DbInv(db) && op.CreateProduct? && newId !in db.products
    ensures DecisionKeeps(db, DecideCreate(op, newId))
  {
    match DecideCreate(op, newId)
    case Err(_) =>
    case Ok((ws, _)) =>
      OneWrite(db, ws[0]);
      ProductSaved(db, newId, ws[0].row);
  }

  lemma ExecKeeps(db: Db, op: Op, newId: nat)
    requires DbInv(db) && FreshId(db, op, newId)
    ensures DbInv(ExecDb(db, op, newId))
  {
    if op.CreateProduct? { CreateKeeps(db, op, newId); }
    else if op.MoveOrder? {
      var order := LoadOwnedOrder(db, op.order, op.merchant);
      if order.Ok? {
        var product := LoadOwnedProduct(db, order.value.product, op.merchant);
        if product.Ok? { MoveKeeps(db, op, order.value, product.value); }
      }
    } else {
      var product := LoadOwnedProduct(db, op.product, op.merchant);
      if product.Ok? {
        if op.AdjustStock? { AdjustKeeps(db, op, product.value); }
        else if op.PlaceOrder? { PlaceKeeps(db, op, product.value, newId); }
        else { SingleWriteKeeps(db, op, product.value); }
      }
    }
  }

  lemma {:induction false} ExecAllKeeps(db: Db, ops: seq<(Op, nat)>)
    requires DbInv(db) && AllFresh(db, ops)
    ensures DbInv(ExecAll(db, ops))
    decreases |ops|
  {
    if ops != [] {
      ExecKeeps(db, ops[0].0, ops[0].1);
      ExecAllKeeps(ExecDb(db, ops[0].0, ops[0].1), ops[1..]);
    }
  }

  // ----- the promise, in the words of the schema ---------------------------------------------------

  function ActiveOrders(db: Db, p: ProductId): set<OrderId> {
    set o | o in db.orders && db.orders[o].product == p && db.orders[o].isActive
  }

  /**
   0 <= reserved <= stock; locked, an active order id set and exactly one active order are the same
   thing, and that order is CREATED with the reserved quantity; on shelf means stock to sell; sold
   means none left; a deleted product has no orders.
   */
  ghost predicate ProductPromise(db: Db, p: ProductId) {
    p in db.products ==>
      var row := db.products[p];
      && 0 <= row.reserved <= row.stock
      && (row.status == Locked <==> row.activeOrder.Some?)
      && (row.status == Locked <==> |ActiveOrders(db, p)| == 1)
      && (row.status != Locked <==> ActiveOrders(db, p) == {})
      && (row.activeOrder.Some? ==>
            var o := row.activeOrder.value;
            ActiveOrders(db, p) == {o} && db.orders[o].status == Created && db.orders[o].quantity == row.reserved)
      && (row.status == OnShelf ==> row.stock > row.reserved)
      && (row.status == Sold ==> row.stock == 0)
      && (row.deleted ==> !HasOrders(db, p))
  }

  lemma PromiseHolds(db: Db, p: ProductId)
    requires DbInv(db)
    ensures ProductPromise(db, p)
  {
    if p in db.products {
      var row := db.products[p];
      assert ProductOk(db, p, row);
      var active := ActiveOrders(db, p);
      forall o | o in active ensures row.activeOrder == Some(o) { assert OrderOk(db, o, db.orders[o]); }
      match row.activeOrder
      case Some(o) =>
        assert OrderOk(db, o, db.orders[o]);
        assert active == {o};
      case None => assert active == {};
      forall o | o in db.orders && db.orders[o].product == p
        ensures !row.deleted
      {
        assert OrderOk(db, o, db.orders[o]);
      }
    }
  }

  // ----- how the status of a product moves -----------------------------------------------------------

  // The moves of the shelf, of an order, and of selling out or restocking.
  predicate StatusMove(from: ProductStatus, to: ProductStatus) {
    || from == to
    || CanTransitionProduct(from, to)
    || (from == Locked && (to == Sold || to == OnShelf || to == OffShelf))
    || ((from == OnShelf || from == OffShelf) && to == Sold)
    || (from == Sold && to == OffShelf)
  }

  /**
   An operation moves the status of a product along these moves only; a product that is sold out
   comes back off the shelf and only by an INCREASE, and one in an order only by that order's end.
   */
  lemma StatusMovesAsAllowed(db: Db, op: Op, newId: nat, p: ProductId)
    requires DbInv(db) && FreshId(db, op, newId) && p in db.products
    ensures p in ExecDb(db, op, newId).products
    ensures var was, now := db.products[p], ExecDb(db, op, newId).products[p];
      && StatusMove(was.status, now.status)
      && (was.status == Sold && now.status != Sold ==> op.AdjustStock? && op.kind == Increase && op.product == p)
      && (was.status == Locked && now.status != Locked ==> op.MoveOrder? && was.activeOrder == Some(op.order))
      && (was.deleted ==> now == was)
  {
    if Exec(db, op, newId).Ok? {
      assert ProductOk(db, p, db.products[p]);
      if op.AdjustStock? { AdjustMoves(db, op, newId, p); }
      else if op.PlaceOrder? || op.MoveOrder? { OrderMoves(db, op, newId, p); }
      else {
        var ws := DecideOn(db, op, newId).value.0;
        if ws != [] { OneWrite(db, ws[0]); }
      }
    }
  }

  lemma AdjustMoves(db: Db, op: Op, newId: nat, p: ProductId)
    requires op.AdjustStock? && p in db.products && Exec(db, op, newId).Ok?
    ensures ExecDb(db, op, newId).products.Keys == db.products.Keys
    ensures var was, now := db.products[p], ExecDb(db, op, newId).products[p];
      && (p != op.product || was.deleted ==> now == was)
      && (was.status == Sold && now != was ==> op.kind == Increase)
      && (was.status == Locked ==> now == was) && StatusMove(was.status, now.status)
  {
    var ws := DecideOn(db, op, newId).value.0;
    TwoWrites(db, ws[0], ws[1]);
  }

  lemma OrderMoves(db: Db, op: Op, newId: nat, p: ProductId)
    requires DbInv(db) && (op.PlaceOrder? || op.MoveOrder?) && FreshId(db, op, newId)
    requires p in db.products && Exec(db, op, newId).Ok?
    ensures p in ExecDb(db, op, newId).products
    ensures var was, now := db.products[p], ExecDb(db, op, newId).products[p];
      && StatusMove(was.status, now.status) && (was.deleted ==> now == was)
      && (was.status == Sold ==> now == was)
      && (was.status == Locked && now.status != Locked ==> op.MoveOrder? && was.activeOrder == Some(op.order))
  {
    var ws := DecideOn(db, op, newId).value.0;
    if ws != [] { ThreeWrites(db, ws[0], ws[1], ws[2]); }
  }
}
