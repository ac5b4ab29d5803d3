/**
 What each operation does, row by row: when exactly it is accepted, with which error it is refused,
 and the whole database afterwards.
 */
module InventoryEffects {
  import opened Wrappers
  import opened Inventory
  import opened InventoryInvariants

  // The merchant's own product, not deleted.
  predicate Owned(db: Db, p: ProductId, merchant: MerchantId) {
    p in db.products && !db.products[p].deleted && db.products[p].merchant == merchant
  }

  // How an operation on a product is answered that is not the merchant's.
  predicate RefusedToOthers(db: Db, p: ProductId, merchant: MerchantId, r: Result<(Db, Response), Error>) {
    !Owned(db, p, merchant) ==>
      r == Err(if p in db.products && !db.products[p].deleted then Forbidden else NotFound)
  }

  // ----- stock adjustments -------------------------------------------------------------------------

  predicate AdjustAccepted(was: Product, kind: AdjustmentType, quantity: int, allRemaining: bool) {
    && was.status != Locked && was.activeOrder.None?
    && match kind
       case Increase => quantity > 0 && !allRemaining
       case Decrease => was.status != Sold && !allRemaining && 0 < quantity <= was.stock
       case MarkSold =>
         && (was.status == OnShelf || was.status == OffShelf) && was.stock > 0 && was.reserved == 0
         && (allRemaining || 0 < quantity <= was.stock)
       case Unknown => false
  }

  // The request itself makes no sense; checked only for products that can be adjusted and are not sold out.
  predicate AdjustMalformed(was: Product, kind: AdjustmentType, quantity: int, allRemaining: bool) {
    && was.status != Locked && was.activeOrder.None? && was.status != Sold
    && (kind == Unknown || (allRemaining && kind != MarkSold) || (quantity <= 0 && !allRemaining))
  }

  // The quantity a movement records: what was asked for, or the whole stock.
  function AdjustQuantity(was: Product, quantity: int, allRemaining: bool): int {
    if allRemaining then was.stock else quantity
  }

  /** An adjustment is accepted exactly under AdjustAccepted; it is malformed or not allowed otherwise. */
  lemma AdjustAcceptedIff(db: Db, op: Op, newId: nat)
    requires op.AdjustStock?
    ensures RefusedToOthers(db, op.product, op.merchant, Exec(db, op, newId))
    ensures Owned(db, op.product, op.merchant) ==>
      var was := db.products[op.product];
      && (Exec(db, op, newId).Ok? <==> AdjustAccepted(was, op.kind, op.quantity, op.allRemaining))
      && (Exec(db, op, newId) == Err(InvalidArgument) <==>
            AdjustMalformed(was, op.kind, op.quantity, op.allRemaining))
      && (Exec(db, op, newId).Err? ==> Exec(db, op, newId).error in {InvalidArgument, InvalidTransition})
  {
  }

  /**
   An INCREASE adds the quantity asked for, a DECREASE and a MARK_SOLD take it away, or all there is;
   the movement records that quantity. The shelf is left when nothing remains on it, a sold-out product
   comes back off the shelf. Nothing else changes.
   */
  lemma AdjustEffect(db: Db, op: Op, newId: nat)
    requires op.AdjustStock? && Exec(db, op, newId).Ok?
    ensures op.product in db.products && op.product in Exec(db, op, newId).value.0.products
    ensures var was, (after, resp) := db.products[op.product], Exec(db, op, newId).value;
      var q := AdjustQuantity(was, op.quantity, op.allRemaining);
      var now := after.products[op.product];
      && now.stock == (if op.kind == Increase then was.stock + q else was.stock - q)
      && now.status == (match op.kind
                        case Increase => if was.status == Sold then OffShelf else was.status
                        case Decrease => if was.status == OnShelf && now.stock == 0 then OffShelf else was.status
                        case MarkSold => if now.stock == 0 then Sold else was.status
                        case Unknown => was.status)
      && now == was.(stock := now.stock, status := now.status)
      && resp == Adjusted(Movement(op.product, op.kind, q, was.stock, now.stock, was.status, now.status))
      && after == db.(products := db.products[op.product := now], movements := db.movements + [resp.row])
  {
    var ws := DecideOn(db, op, newId).value.0;
    TwoWrites(db, ws[0], ws[1]);
  }

  // ----- orders ------------------------------------------------------------------------------------

  /** An order is placed exactly for a product on the shelf with stock beyond the reserved. */
  lemma PlaceEffect(db: Db, op: Op, newId: nat)
    requires op.PlaceOrder?
    ensures RefusedToOthers(db, op.product, op.merchant, Exec(db, op, newId))
    ensures Owned(db, op.product, op.merchant) ==>
      var was := db.products[op.product];
      Exec(db, op, newId) ==
        if was.status == OnShelf && was.stock - was.reserved >= 1 then
          Ok((Db(db.products[op.product := was.(status := Locked, reserved := was.reserved + 1,
                                                activeOrder := Some(newId))],
                 db.orders[newId := Order(op.merchant, op.product, 1, Created, true)],
                 db.movements, db.events + [OrderEvent(newId, CreateEvent, None, Created)]),
              Placed(newId)))
        else Err(if was.status == Locked && was.activeOrder.Some? then Conflict else InvalidTransition)
  {
    if Exec(db, op, newId).Ok? {
      var ws := DecideOn(db, op, newId).value.0;
      ThreeWrites(db, ws[0], ws[1], ws[2]);
    }
  }

  // The product row an order leaves behind: completed, it takes its quantity along; closed, it puts the
  // product off the shelf.
  predicate Released(was: Product, quantity: int, to: OrderStatus, now: Product) {
    && now.reserved == was.reserved - quantity && now.activeOrder == None
    && now.merchant == was.merchant && now.deleted == was.deleted
    && (to == Completed ==>
          now.stock == was.stock - quantity && now.status == if was.stock == quantity then Sold else OnShelf)
    && (to != Completed ==> now.stock == was.stock && now.status == OffShelf)
  }

  predicate MoveAccepted(db: Db, o: OrderId, to: OrderStatus)
    requires o in db.orders && db.orders[o].product in db.products
  {
    var order := db.orders[o];
    var was := db.products[order.product];
    && order.status == Created && to != Created && was.status == Locked && was.activeOrder == Some(o)
    && 0 < order.quantity <= was.reserved && order.quantity <= was.stock
  }

  lemma MoveRefused(db: Db, op: Op, newId: nat)
    requires op.MoveOrder?
    ensures op.order !in db.orders ==> Exec(db, op, newId) == Err(NotFound)
    ensures op.order in db.orders && db.orders[op.order].merchant != op.merchant ==>
      Exec(db, op, newId) == Err(Forbidden)
  {
  }

  /** A repeated request changes nothing and reports where the order and its product are. */
  lemma MoveRepeated(db: Db, op: Op, newId: nat)
    requires op.MoveOrder? && op.order in db.orders && db.orders[op.order].merchant == op.merchant
    requires db.orders[op.order].status == op.to && Owned(db, db.orders[op.order].product, op.merchant)
    ensures Exec(db, op, newId)
         == Ok((db, Moved(op.to, op.to, db.products[db.orders[op.order].product].status, true)))
  {
  }

  /** An order is completed or closed exactly while it is the active order of its locked product. */
  lemma MoveEffect(db: Db, op: Op, newId: nat)
    requires op.MoveOrder? && op.order in db.orders && db.orders[op.order].merchant == op.merchant
    requires db.orders[op.order].status != op.to && Owned(db, db.orders[op.order].product, op.merchant)
    ensures Exec(db, op, newId).Ok? <==> MoveAccepted(db, op.order, op.to)
    ensures Exec(db, op, newId).Err? ==> Exec(db, op, newId).error == InvalidTransition
    ensures Exec(db, op, newId).Ok? ==>
      var order, (after, resp) := db.orders[op.order], Exec(db, op, newId).value;
      && order.product in after.products
      && var was, now := db.products[order.product], after.products[order.product];
      && Released(was, order.quantity, op.to, now)
      && resp == Moved(Created, op.to, now.status, false)
      && after == Db(db.products[order.product := now],
                     db.orders[op.order := order.(status := op.to, isActive := false)], db.movements,
                     db.events + [OrderEvent(op.order, if op.to == Completed then CompleteEvent else CloseEvent,
                                             Some(Created), op.to)])
  {
    if Exec(db, op, newId).Ok? {
      var ws := DecideOn(db, op, newId).value.0;
      ThreeWrites(db, ws[0], ws[1], ws[2]);
    }
  }

  /** In every reachable database the merchant can complete or close an order that is CREATED. */
  lemma CreatedOrdersCanEnd(db: Db, op: Op, newId: nat)
    requires DbInv(db) && op.MoveOrder? && op.order in db.orders && db.orders[op.order].merchant == op.merchant
    ensures Exec(db, op, newId).Ok? <==> db.orders[op.order].status == Created || db.orders[op.order].status == op.to
  {
    var order := db.orders[op.order];
    assert OrderOk(db, op.order, order) && ProductOk(db, order.product, db.products[order.product]);
    if order.status == op.to { MoveRepeated(db, op, newId); } else { MoveEffect(db, op, newId); }
  }

  // ----- the product row ---------------------------------------------------------------------------

  /** A product is created as a draft of the merchant with the stock asked for. */
  lemma CreateEffect(db: Db, op: Op, newId: nat)
    requires op.CreateProduct?
    ensures Exec(db, op, newId) ==
      if op.initial <= 0 then Err(InvalidArgument)
      else if op.verdict.Some? then Err(op.verdict.value)
      else Ok((db.(products := db.products[newId := Product(op.merchant, op.initial, 0, Draft, None, false)]),
               NewProduct(newId)))
  {
    if Exec(db, op, newId).Ok? { OneWrite(db, DecideOn(db, op, newId).value.0[0]); }
  }

  // Drafts and products off the shelf may be edited freely, those on the shelf in text and images only.
  predicate MayEdit(status: ProductStatus, fields: set<Field>) {
    match status
    case Draft => true
    case OffShelf => true
    case OnShelf => fields <= {Description, Images}
    case Locked => fields == {}
    case Sold => fields == {}
  }

  /** An update sets the stock to what is asked for, if it is, and nothing else that is modelled. */
  lemma UpdateEffect(db: Db, op: Op, newId: nat)
    requires op.UpdateProduct?
    ensures RefusedToOthers(db, op.product, op.merchant, Exec(db, op, newId))
    ensures Owned(db, op.product, op.merchant) ==>
      var was := db.products[op.product];
      Exec(db, op, newId) ==
        if !MayEdit(was.status, op.fields) || (Stock in op.fields && op.stock <= 0) then Err(InvalidTransition)
        else if op.verdict.Some? then Err(op.verdict.value)
        else
          var now := if Stock in op.fields then was.(stock := op.stock) else was;
          Ok((db.(products := db.products[op.product := now]), Updated))
  {
    if Owned(db, op.product, op.merchant) { AllFields(op.fields); }
    if Exec(db, op, newId).Ok? { OneWrite(db, DecideOn(db, op, newId).value.0[0]); }
  }

  lemma AllFields(fields: set<Field>)
    ensures fields <= {Title, Description, Category, Price, OriginalPrice, Condition, Stock, Images}
  {
    forall f | f in fields
      ensures f in {Title, Description, Category, Price, OriginalPrice, Condition, Stock, Images}
    {
      match f case Title => case _ =>
    }
  }

  /**
   A product goes on the shelf from a draft or from off the shelf, if it is ready and has stock beyond the
   reserved and no order; it goes off the shelf from the shelf. Being there already is a success.
   */
  lemma ShelfEffect(db: Db, op: Op, newId: nat)
    requires op.SetShelf?
    ensures RefusedToOthers(db, op.product, op.merchant, Exec(db, op, newId))
    ensures Owned(db, op.product, op.merchant) ==>
      var was, to := db.products[op.product], if op.on then OnShelf else OffShelf;
      Exec(db, op, newId) ==
        if was.status == to then Ok((db, Shelved(to, to, true)))
        else if if op.on then was.status != Draft && was.status != OffShelf else was.status != OnShelf then
          Err(InvalidTransition)
        else if op.on && op.verdict.Some? then Err(op.verdict.value)
        else if op.on && (was.stock <= was.reserved || was.activeOrder.Some?) then Err(InvalidTransition)
        else Ok((db.(products := db.products[op.product := was.(status := to)]), Shelved(was.status, to, false)))
  {
    if Exec(db, op, newId).Ok? && DecideOn(db, op, newId).value.0 != [] {
      OneWrite(db, DecideOn(db, op, newId).value.0[0]);
    }
  }

  /** Only a draft or a product off the shelf is deleted, without any order ever placed for it. */
  lemma DeleteEffect(db: Db, op: Op, newId: nat)
    requires op.DeleteProduct?
    ensures RefusedToOthers(db, op.product, op.merchant, Exec(db, op, newId))
    ensures Owned(db, op.product, op.merchant) ==>
      var was := db.products[op.product];
      Exec(db, op, newId) ==
        if (was.status != Draft && was.status != OffShelf) || was.activeOrder.Some?
           || exists o | o in db.orders :: db.orders[o].product == op.product then Err(InvalidTransition)
        else if op.verdict.Some? then Err(op.verdict.value)
        else Ok((db.(products := db.products[op.product := was.(deleted := true)]), Deleted))
  {
    if Exec(db, op, newId).Ok? { OneWrite(db, DecideOn(db, op, newId).value.0[0]); }
  }
}
