/**
 Products, orders, stock movements and order events, and the operations that write them.

 An operation loads its rows, decides on copies of them, and writes whole rows back. `Decide` is
 that middle part; `Exec` runs an operation in one piece. InventoryTransactions.dfy takes the same
 operations apart into lock, read, write and commit steps; InventoryService.dfy runs them
 imperatively.
 */
module Inventory {
  import opened Wrappers

  type ProductId = nat
  type OrderId = nat
  type MerchantId = nat

  datatype ProductStatus = Draft | OnShelf | Locked | OffShelf | Sold

  datatype OrderStatus = Created | Completed | Closed

  datatype Product = Product(
    merchant: MerchantId, stock: int, reserved: int, status: ProductStatus,
    activeOrder: Option<OrderId>, deleted: bool)

  datatype Order = Order(merchant: MerchantId, product: ProductId, quantity: int, status: OrderStatus, isActive: bool)

  datatype AdjustmentType = Increase | Decrease | MarkSold | Unknown

  datatype Movement = Movement(
    product: ProductId, kind: AdjustmentType, quantity: int, stockBefore: int, stockAfter: int,
    statusBefore: ProductStatus, statusAfter: ProductStatus)

  datatype EventType = CreateEvent | CompleteEvent | CloseEvent

  datatype OrderEvent = OrderEvent(order: OrderId, kind: EventType, from: Option<OrderStatus>, to: OrderStatus)

  datatype Db = Db(
    products: map<ProductId, Product>, orders: map<OrderId, Order>,
    movements: seq<Movement>, events: seq<OrderEvent>)

  datatype Error = NotFound | Forbidden | InvalidTransition | InvalidArgument | Conflict

  // ----- transition tables ---------------------------------------------------------------------

  predicate CanTransitionProduct(from: ProductStatus, to: ProductStatus) {
    || (from == Draft && to == OnShelf)
    || (from == OnShelf && (to == OffShelf || to == Locked))
    || (from == OffShelf && to == OnShelf)
  }

  predicate CanTransitionOrder(from: OrderStatus, to: OrderStatus) {
    from == Created && (to == Completed || to == Closed)
  }

  datatype Field = Title | Description | Category | Price | OriginalPrice | Condition | Stock | Images

  function EditableFields(status: ProductStatus): set<Field> {
    match status
    case Draft => {Title, Description, Category, Price, OriginalPrice, Condition, Stock, Images}
    case OffShelf => {Title, Description, Category, Price, OriginalPrice, Condition, Stock, Images}
    case OnShelf => {Description, Images}
    case Locked => {}
    case Sold => {}
  }

  // ----- requests ------------------------------------------------------------------------------

  // `verdict` stands for the checks of an operation on data that is not modelled: images present,
  // no buyer intents, acceptable titles and prices.
  datatype Op =
    | CreateProduct(merchant: MerchantId, initial: int, verdict: Option<Error>)
    | UpdateProduct(product: ProductId, merchant: MerchantId, fields: set<Field>, stock: int, verdict: Option<Error>)
    | SetShelf(product: ProductId, merchant: MerchantId, on: bool, verdict: Option<Error>)
    | DeleteProduct(product: ProductId, merchant: MerchantId, verdict: Option<Error>)
    | AdjustStock(product: ProductId, merchant: MerchantId, kind: AdjustmentType, quantity: int, allRemaining: bool)
    | PlaceOrder(product: ProductId, merchant: MerchantId)
    | MoveOrder(order: OrderId, merchant: MerchantId, to: OrderStatus)

  datatype Response =
    | NewProduct(id: ProductId)
    | Updated
    | Shelved(fromStatus: ProductStatus, toStatus: ProductStatus, repeated: bool)
    | Deleted
    | Adjusted(row: Movement)
    | Placed(order: OrderId)
    | Moved(fromOrder: OrderStatus, toOrder: OrderStatus, productStatus: ProductStatus, repeated: bool)

  datatype Write =
    | SaveProduct(pid: ProductId, row: Product)
    | SaveOrder(oid: OrderId, order: Order)
    | AddMovement(movement: Movement)
    | AddEvent(event: OrderEvent)

  function Apply(db: Db, w: Write): Db {
    match w
    case SaveProduct(p, row) => db.(products := db.products[p := row])
    case SaveOrder(o, row) => db.(orders := db.orders[o := row])
    case AddMovement(m) => db.(movements := db.movements + [m])
    case AddEvent(e) => db.(events := db.events + [e])
  }

  function ApplyAll(db: Db, ws: seq<Write>): Db
    decreases |ws|
  {
    if ws == [] then db else ApplyAll(Apply(db, ws[0]), ws[1..])
  }

  // ----- loading -------------------------------------------------------------------------------

  function LoadOwnedProduct(db: Db, p: ProductId, merchant: MerchantId): Result<Product, Error> {
    if p !in db.products || db.products[p].deleted then Err(NotFound)
    else if db.products[p].merchant != merchant then Err(Forbidden)
    else Ok(db.products[p])
  }

  function LoadOwnedOrder(db: Db, o: OrderId, merchant: MerchantId): Result<Order, Error> {
    if o !in db.orders then Err(NotFound)
    else if db.orders[o].merchant != merchant then Err(Forbidden)
    else Ok(db.orders[o])
  }

  predicate HasOrders(db: Db, p: ProductId) { exists o | o in db.orders :: db.orders[o].product == p }

  // ----- deciding ------------------------------------------------------------------------------

  predicate CanAdjustStock(status: ProductStatus) { status != Locked }

  // (applied quantity, stock after, status after)
  function CalculateAdjustment(product: Product, kind: AdjustmentType, quantity: int, allRemaining: bool)
    : Result<(int, int, ProductStatus), Error>
  {
    if !CanAdjustStock(product.status) || product.activeOrder.Some? then Err(InvalidTransition)
    else if product.status == Sold then
      if kind != Increase || quantity <= 0 || allRemaining then Err(InvalidTransition)
      else Ok((quantity, product.stock + quantity, OffShelf))
    else if allRemaining && kind != MarkSold then Err(InvalidArgument)
    else if quantity <= 0 && !allRemaining then Err(InvalidArgument)
    else match kind
      case Increase => Ok((quantity, product.stock + quantity, product.status))
      case Decrease =>
        if quantity > product.stock then Err(InvalidTransition)
        else
          var after := product.stock - quantity;
          Ok((quantity, after, if product.status == OnShelf && after == 0 then OffShelf else product.status))
      case MarkSold =>
        if (product.status != OnShelf && product.status != OffShelf) || product.stock <= 0 || product.reserved != 0 then
          Err(InvalidTransition)
        else
          var q := if allRemaining then product.stock else quantity;
          if q > product.stock then Err(InvalidTransition)
          else Ok((q, product.stock - q, if product.stock - q == 0 then Sold else product.status))
      case Unknown => Err(InvalidArgument)
  }

  type Decision = Result<(seq<Write>, Response), Error>

  function DecideAdjust(op: Op, product: Product): Decision
    requires op.AdjustStock?
  {
    match CalculateAdjustment(product, op.kind, op.quantity, op.allRemaining)
    case Err(e) => Err(e)
    case Ok((q, after, status)) =>
      var row := Movement(op.product, op.kind, q, product.stock, after, product.status, status);
      var saved := product.(stock := after, status := status);
      Ok(([SaveProduct(op.product, saved), AddMovement(row)], Adjusted(row)))
  }

  function DecideUpdate(op: Op, product: Product): Decision
    requires op.UpdateProduct?
  {
    if !(op.fields <= EditableFields(product.status)) then Err(InvalidTransition)
    else if Stock in op.fields && op.stock <= 0 then Err(InvalidTransition)
    else if op.verdict.Some? then Err(op.verdict.value)
    else Ok(([SaveProduct(op.product, if Stock in op.fields then product.(stock := op.stock) else product)], Updated))
  }

  function DecideShelf(op: Op, product: Product): Decision
    requires op.SetShelf?
  {
    var to := if op.on then OnShelf else OffShelf;
    if product.status == to then Ok(([], Shelved(to, to, true)))
    else if !CanTransitionProduct(product.status, to) then Err(InvalidTransition)
    else if op.on && op.verdict.Some? then Err(op.verdict.value)
    else if op.on && (product.stock - product.reserved <= 0 || product.activeOrder.Some?) then Err(InvalidTransition)
    else Ok(([SaveProduct(op.product, product.(status := to))], Shelved(product.status, to, false)))
  }

  function DecideDelete(op: Op, product: Product, hasOrders: bool): Decision
    requires op.DeleteProduct?
  {
    if (product.status != Draft && product.status != OffShelf) || product.activeOrder.Some? then Err(InvalidTransition)
    else if hasOrders then Err(InvalidTransition)
    else if op.verdict.Some? then Err(op.verdict.value)
    else Ok(([SaveProduct(op.product, product.(deleted := true))], Deleted))
  }

  function DecidePlace(op: Op, product: Product, newId: OrderId): Decision
    requires op.PlaceOrder?
  {
    if product.status == Locked && product.activeOrder.Some? then Err(Conflict)
    else if !CanTransitionProduct(product.status, Locked) then Err(InvalidTransition)
    else if product.stock - product.reserved < 1 then Err(InvalidTransition)
    else
      var order := Order(op.merchant, op.product, 1, Created, true);
      var saved := product.(
        status := Locked, reserved := product.reserved + order.quantity, activeOrder := Some(newId));
      Ok(([SaveOrder(newId, order), SaveProduct(op.product, saved),
           AddEvent(OrderEvent(newId, CreateEvent, None, Created))],
          Placed(newId)))
  }

  // Answered from the order row alone, before the product is locked.
  predicate RefusedByOrder(op: Op, order: Order)
    requires op.MoveOrder?
  { order.status != op.to && !CanTransitionOrder(order.status, op.to) }

  function DecideMove(op: Op, order: Order, product: Product): Decision
    requires op.MoveOrder?
  {
    if order.status == op.to then Ok(([], Moved(op.to, op.to, product.status, true)))
    else if RefusedByOrder(op, order) then Err(InvalidTransition)
    else if product.status != Locked || product.activeOrder != Some(op.order) then Err(InvalidTransition)
    else if order.quantity <= 0 || product.reserved < order.quantity || product.stock < order.quantity then
      Err(InvalidTransition)
    else
      var done := order.(status := op.to, isActive := false);
      var reserved := product.reserved - order.quantity;
      var saved :=
        if op.to == Completed then
          var stock := product.stock - order.quantity;
          product.(stock := stock, reserved := reserved, status := if stock == 0 then Sold else OnShelf,
                   activeOrder := None)
        else product.(reserved := reserved, status := OffShelf, activeOrder := None);
      var event := OrderEvent(
        op.order, if op.to == Closed then CloseEvent else CompleteEvent, Some(order.status), op.to);
      Ok(([SaveOrder(op.order, done), SaveProduct(order.product, saved), AddEvent(event)],
          Moved(order.status, op.to, saved.status, false)))
  }

  function DecideCreate(op: Op, newId: ProductId): Decision
    requires op.CreateProduct?
  {
    if op.initial <= 0 then Err(InvalidArgument)
    else if op.verdict.Some? then Err(op.verdict.value)
    else Ok(([SaveProduct(newId, Product(op.merchant, op.initial, 0, Draft, None, false))], NewProduct(newId)))
  }

  // What an operation decides on the copies it read. CreateProduct reads no row.
  function Decide(op: Op, order: Option<Order>, product: Option<Product>, hasOrders: bool, newId: nat): Decision
    requires op.MoveOrder? ==> order.Some?
    requires !op.CreateProduct? ==> product.Some?
  {
    match op
    case CreateProduct(_, _, _) => DecideCreate(op, newId)
    case UpdateProduct(_, _, _, _, _) => DecideUpdate(op, product.value)
    case SetShelf(_, _, _, _) => DecideShelf(op, product.value)
    case DeleteProduct(_, _, _) => DecideDelete(op, product.value, hasOrders)
    case AdjustStock(_, _, _, _, _) => DecideAdjust(op, product.value)
    case PlaceOrder(_, _) => DecidePlace(op, product.value, newId)
    case MoveOrder(_, _, _) => DecideMove(op, order.value, product.value)
  }

  // ----- one piece -----------------------------------------------------------------------------

  // The product row an operation locks; for an order transition only the order row names it.
  function ProductOf(op: Op, order: Option<Order>): ProductId
    requires !op.CreateProduct? && (op.MoveOrder? ==> order.Some?)
  {
    if op.MoveOrder? then order.value.product else op.product
  }

  function DecideOn(db: Db, op: Op, newId: nat): Decision {
    if op.CreateProduct? then Decide(op, None, None, false, newId)
    else if op.MoveOrder? then
      match LoadOwnedOrder(db, op.order, op.merchant)
      case Err(e) => Err(e)
      case Ok(order) =>
        if RefusedByOrder(op, order) then Err(InvalidTransition)
        else
          match LoadOwnedProduct(db, order.product, op.merchant)
          case Err(e) => Err(e)
          case Ok(product) => Decide(op, Some(order), Some(product), false, newId)
    else
      match LoadOwnedProduct(db, op.product, op.merchant)
      case Err(e) => Err(e)
      case Ok(product) => Decide(op, None, Some(product), HasOrders(db, op.product), newId)
  }

  // New rows get ids nothing used before.
  predicate FreshId(db: Db, op: Op, newId: nat) {
    && (op.CreateProduct? ==> newId !in db.products)
    && (op.PlaceOrder? ==> newId !in db.orders)
  }

  function Exec(db: Db, op: Op, newId: nat): Result<(Db, Response), Error> {
    match DecideOn(db, op, newId)
    case Err(e) => Err(e)
    case Ok((ws, resp)) => Ok((ApplyAll(db, ws), resp))
  }

  // A run of operations in one piece each; failing ones change nothing.
  function ExecDb(db: Db, op: Op, newId: nat): Db {
    match Exec(db, op, newId)
    case Err(_) => db
    case Ok((after, _)) => after
  }

  function ExecAll(db: Db, ops: seq<(Op, nat)>): Db
    decreases |ops|
  {
    if ops == [] then db else ExecAll(ExecDb(db, ops[0].0, ops[0].1), ops[1..])
  }

  predicate AllFresh(db: Db, ops: seq<(Op, nat)>)
    decreases |ops|
  {
    ops == [] || (FreshId(db, ops[0].0, ops[0].1) && AllFresh(ExecDb(db, ops[0].0, ops[0].1), ops[1..]))
  }
}
