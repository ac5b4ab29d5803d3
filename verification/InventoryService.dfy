/**
 The inventory operations as they are written: load a row, change the copy field by field, save it
 whole, append the rows that record the change. Each method does exactly what Exec says of its
 request, and nothing when it fails.
 */
module InventoryService {
  import opened Wrappers
  import opened Inventory
  import opened InventoryInvariants

  // One request as one piece: the response and the whole new state, or the error and no change.
  ghost predicate Follows(before: Db, op: Op, newId: nat, after: Db, r: Result<Response, Error>) {
    match Exec(before, op, newId)
    case Err(e) => r == Err(e) && after == before
    case Ok(done) => r == Ok(done.1) && after == done.0
  }

  // The invariant of products, orders, movements and events survives.
  ghost predicate Keeps(before: Db, op: Op, newId: nat, after: Db) {
    DbInv(before) && FreshId(before, op, newId) ==> DbInv(after)
  }

  lemma KeepsWhatFollows(before: Db, op: Op, newId: nat)
    ensures Keeps(before, op, newId, ExecDb(before, op, newId))
  {
    if DbInv(before) && FreshId(before, op, newId) { ExecKeeps(before, op, newId); }
  }

  class Tables {
    var products: map<ProductId, Product>
    var orders: map<OrderId, Order>
    var movements: seq<Movement>
    var events: seq<OrderEvent>

    constructor ()
      ensures Snapshot() == Db(map[], map[], [], [])
    {
      products, orders, movements, events := map[], map[], [], [];
    }

    function Snapshot(): Db
      reads this
    { Db(products, orders, movements, events) }

    method LoadProduct(id: ProductId, merchant: MerchantId) returns (r: Result<Product, Error>)
      ensures r == LoadOwnedProduct(Snapshot(), id, merchant)
    {
      if id !in products || products[id].deleted { return Err(NotFound); }
      var product := products[id];
      if product.merchant != merchant { return Err(Forbidden); }
      return Ok(product);
    }

    method LoadOrder(id: OrderId, merchant: MerchantId) returns (r: Result<Order, Error>)
      ensures r == LoadOwnedOrder(Snapshot(), id, merchant)
    {
      if id !in orders { return Err(NotFound); }
      var order := orders[id];
      if order.merchant != merchant { return Err(Forbidden); }
      return Ok(order);
    }

    method Create(merchant: MerchantId, initial: int, verdict: Option<Error>, newId: ProductId)
      returns (r: Result<Response, Error>)
      modifies this
      ensures Follows(old(Snapshot()), CreateProduct(merchant, initial, verdict), newId, Snapshot(), r)
      ensures Keeps(old(Snapshot()), CreateProduct(merchant, initial, verdict), newId, Snapshot())
    {
      KeepsWhatFollows(Snapshot(), CreateProduct(merchant, initial, verdict), newId);
      if initial <= 0 { return Err(InvalidArgument); }
      if verdict.Some? { return Err(verdict.value); }
      OneWrite(Snapshot(), SaveProduct(newId, Product(merchant, initial, 0, Draft, None, false)));
      products := products[newId := Product(merchant, initial, 0, Draft, None, false)];
      return Ok(NewProduct(newId));
    }

    method Update(id: ProductId, merchant: MerchantId, fields: set<Field>, stock: int, verdict: Option<Error>)
      returns (r: Result<Response, Error>)
      modifies this
      ensures Follows(old(Snapshot()), UpdateProduct(id, merchant, fields, stock, verdict), 0, Snapshot(), r)
      ensures Keeps(old(Snapshot()), UpdateProduct(id, merchant, fields, stock, verdict), 0, Snapshot())
    {
      KeepsWhatFollows(Snapshot(), UpdateProduct(id, merchant, fields, stock, verdict), 0);
      var loaded := LoadProduct(id, merchant);
      if loaded.Err? { return Err(loaded.error); }
      var product := loaded.value;
      if !(fields <= EditableFields(product.status)) { return Err(InvalidTransition); }
      if Stock in fields {
        if stock <= 0 { return Err(InvalidTransition); }
        product := product.(stock := stock);
      }
      if verdict.Some? { return Err(verdict.value); }
      OneWrite(Snapshot(), SaveProduct(id, product));
      products := products[id := product];
      return Ok(Updated);
    }

    method ChangeStatus(id: ProductId, merchant: MerchantId, on: bool, verdict: Option<Error>)
      returns (r: Result<Response, Error>)
      modifies this
      ensures Follows(old(Snapshot()), SetShelf(id, merchant, on, verdict), 0, Snapshot(), r)
      ensures Keeps(old(Snapshot()), SetShelf(id, merchant, on, verdict), 0, Snapshot())
    {
      KeepsWhatFollows(Snapshot(), SetShelf(id, merchant, on, verdict), 0);
      var loaded := LoadProduct(id, merchant);
      if loaded.Err? { return Err(loaded.error); }
      var product := loaded.value;
      var to := if on then OnShelf else OffShelf;
      var from := product.status;
      if from == to { return Ok(Shelved(from, from, true)); }
      if !CanTransitionProduct(from, to) { return Err(InvalidTransition); }
      if to == OnShelf {
        if verdict.Some? { return Err(verdict.value); }
        if product.stock - product.reserved <= 0 || product.activeOrder.Some? { return Err(InvalidTransition); }
      }
      product := product.(status := to);
      OneWrite(Snapshot(), SaveProduct(id, product));
      products := products[id := product];
      return Ok(Shelved(from, to, false));
    }

    method Delete(id: ProductId, merchant: MerchantId, verdict: Option<Error>) returns (r: Result<Response, Error>)
      modifies this
      ensures Follows(old(Snapshot()), DeleteProduct(id, merchant, verdict), 0, Snapshot(), r)
      ensures Keeps(old(Snapshot()), DeleteProduct(id, merchant, verdict), 0, Snapshot())
    {
      KeepsWhatFollows(Snapshot(), DeleteProduct(id, merchant, verdict), 0);
      var loaded := LoadProduct(id, merchant);
      if loaded.Err? { return Err(loaded.error); }
      var product := loaded.value;
      if (product.status != Draft && product.status != OffShelf) || product.activeOrder.Some? {
        return Err(InvalidTransition);
      }
      if exists o | o in orders :: orders[o].product == id { return Err(InvalidTransition); }
      if verdict.Some? { return Err(verdict.value); }
      product := product.(deleted := true);
      OneWrite(Snapshot(), SaveProduct(id, product));
      products := products[id := product];
      return Ok(Deleted);
    }

    method Adjust(id: ProductId, merchant: MerchantId, kind: AdjustmentType, quantity: int, allRemaining: bool)
      returns (r: Result<Response, Error>)
      modifies this
      ensures Follows(old(Snapshot()), AdjustStock(id, merchant, kind, quantity, allRemaining), 0, Snapshot(), r)
      ensures Keeps(old(Snapshot()), AdjustStock(id, merchant, kind, quantity, allRemaining), 0, Snapshot())
    {
      KeepsWhatFollows(Snapshot(), AdjustStock(id, merchant, kind, quantity, allRemaining), 0);
      var loaded := LoadProduct(id, merchant);
      if loaded.Err? { return Err(loaded.error); }
      var product := loaded.value;
      var stockBefore, statusBefore := product.stock, product.status;
      var calculated := CalculateAdjustment(product, kind, quantity, allRemaining);
      if calculated.Err? { return Err(calculated.error); }
      var (applied, stockAfter, statusAfter) := calculated.value;
      product := product.(stock := stockAfter);
      product := product.(status := statusAfter);
      if statusAfter == Sold && statusBefore != Sold {
        product := product.(activeOrder := None);
      }
      var movement := Movement(id, kind, applied, stockBefore, stockAfter, statusBefore, statusAfter);
      TwoWrites(Snapshot(), SaveProduct(id, product), AddMovement(movement));
      products := products[id := product];
      movements := movements + [movement];
      return Ok(Adjusted(movement));
    }

    method PlaceOrderFor(id: ProductId, merchant: MerchantId, newId: OrderId) returns (r: Result<Response, Error>)
      modifies this
      ensures Follows(old(Snapshot()), PlaceOrder(id, merchant), newId, Snapshot(), r)
      ensures Keeps(old(Snapshot()), PlaceOrder(id, merchant), newId, Snapshot())
    {
      KeepsWhatFollows(Snapshot(), PlaceOrder(id, merchant), newId);
      var loaded := LoadProduct(id, merchant);
      if loaded.Err? { return Err(loaded.error); }
      var product := loaded.value;
      if product.status == Locked && product.activeOrder.Some? { return Err(Conflict); }
      if !CanTransitionProduct(product.status, Locked) { return Err(InvalidTransition); }
      if product.stock - product.reserved < 1 { return Err(InvalidTransition); }
      var order := Order(merchant, id, 1, Created, true);
      product := product.(status := Locked);
      product := product.(reserved := product.reserved + order.quantity);
      product := product.(activeOrder := Some(newId));
      var event := OrderEvent(newId, CreateEvent, None, Created);
      ThreeWrites(Snapshot(), SaveOrder(newId, order), SaveProduct(id, product), AddEvent(event));
      orders := orders[newId := order];
      products := products[id := product];
      events := events + [event];
      return Ok(Placed(newId));
    }

    // The rows an order that completes or closes leaves behind.
    static method MoveRows(id: OrderId, merchant: MerchantId, before: Order, to: OrderStatus, locked: Product)
      returns (order: Order, product: Product, event: OrderEvent)
      requires before.status != to && CanTransitionOrder(before.status, to)
      requires locked.status == Locked && locked.activeOrder == Some(id)
      requires 0 < before.quantity <= locked.reserved && before.quantity <= locked.stock
      ensures DecideMove(MoveOrder(id, merchant, to), before, locked)
           == Ok(([SaveOrder(id, order), SaveProduct(before.product, product), AddEvent(event)],
                  Moved(before.status, to, product.status, false)))
    {
      order, product := before, locked;
      order := order.(status := to);
      order := order.(isActive := false);
      product := product.(reserved := product.reserved - order.quantity);
      if to == Completed {
        product := product.(stock := product.stock - order.quantity);
        product := product.(status := if product.stock == 0 then Sold else OnShelf);
      } else {
        product := product.(status := OffShelf);
      }
      product := product.(activeOrder := None);
      event := OrderEvent(id, if to == Closed then CloseEvent else CompleteEvent, Some(before.status), to);
    }

    method Transition(id: OrderId, merchant: MerchantId, to: OrderStatus) returns (r: Result<Response, Error>)
      modifies this
      ensures Follows(old(Snapshot()), MoveOrder(id, merchant, to), 0, Snapshot(), r)
      ensures Keeps(old(Snapshot()), MoveOrder(id, merchant, to), 0, Snapshot())
    {
      KeepsWhatFollows(Snapshot(), MoveOrder(id, merchant, to), 0);
      var loadedOrder := LoadOrder(id, merchant);
      if loadedOrder.Err? { return Err(loadedOrder.error); }
      var order := loadedOrder.value;
      var from := order.status;
      if from == to {
        var current := LoadProduct(order.product, merchant);
        if current.Err? { return Err(current.error); }
        return Ok(Moved(from, from, current.value.status, true));
      }
      if !CanTransitionOrder(from, to) { return Err(InvalidTransition); }
      var loaded := LoadProduct(order.product, merchant);
      if loaded.Err? { return Err(loaded.error); }
      var product := loaded.value;
      if product.status != Locked || product.activeOrder != Some(id) { return Err(InvalidTransition); }
      if order.quantity <= 0 || product.reserved < order.quantity || product.stock < order.quantity {
        return Err(InvalidTransition);
      }

      var event;
      order, product, event := MoveRows(id, merchant, order, to, product);
      ThreeWrites(Snapshot(), SaveOrder(id, order), SaveProduct(order.product, product), AddEvent(event));
      orders := orders[id := order];
      products := products[order.product := product];
      events := events + [event];
      return Ok(Moved(from, to, product.status, false));
    }
  }
}
