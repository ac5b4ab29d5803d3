/**
 The operations of Inventory.dfy as database transactions that interleave.

 A transaction claims its idempotency key, locks and reads its rows one by one, decides on the
 copies, writes whole rows, stores its response in the claim, and commits or rolls back; between
 any two of these steps other transactions run. Row locks and the unique key of the claim table are
 held until the end. Writes become visible at the commit, all at once.
 */
module InventoryTransactions {
  import opened Wrappers
  import opened Inventory

  type TxId = nat

  datatype Scope = Scope(key: string, operator: nat, path: string)

  // The payload stands for its digest.
  datatype Request = Request(op: Op, scope: Option<Scope>, payload: string)

  // `response` is None for the "null" a claim is inserted with.
  datatype Claim = Claim(payload: string, response: Option<Response>)

  datatype Store = Store(db: Db, claims: map<Scope, Claim>)

  datatype Lock = ProductRow(p: ProductId) | OrderRow(o: OrderId) | ClaimKey(s: Scope)

  datatype Pc =
    | Opened
    | Claimed
    | HoldsOrder(row: Order)
    | HoldsRows(order: Option<Order>, product: Option<Product>)
    | Writing(order: Option<Order>, product: Option<Product>, newId: nat,
              todo: seq<Write>, done: seq<Write>, resp: Response, answer: Option<Response>)
    | Conflicted        // duplicate claim: rolled back, the stored result is still to be read

  datatype Tx = Tx(req: Request, pc: Pc)

  datatype Outcome =
    | Done(resp: Response)
    | Replayed(resp: Response)
    | DuplicateSubmit
    | Internal
    | Failed(error: Error)
    | RolledBack

  datatype Entry = Entry(req: Request, newId: nat, outcome: Outcome)

  // `log` is history: how requests ended, in order.
  datatype State = State(store: Store, locks: map<Lock, TxId>, txs: map<TxId, Tx>, log: seq<Entry>)

  // ----- what a transaction holds ----------------------------------------------------------------

  function ClaimLocks(req: Request): set<Lock> { if req.scope.Some? then {ClaimKey(req.scope.value)} else {} }

  function RowLocks(op: Op, order: Option<Order>): set<Lock> {
    if op.CreateProduct? then {}
    else if op.MoveOrder? then if order.Some? then {OrderRow(op.order), ProductRow(order.value.product)} else {}
    else {ProductRow(op.product)}
  }

  function NewLocks(op: Op, newId: nat): set<Lock> {
    if op.CreateProduct? then {ProductRow(newId)} else if op.PlaceOrder? then {OrderRow(newId)} else {}
  }

  function Holds(tx: Tx): set<Lock> {
    match tx.pc
    case Opened => {}
    case Conflicted => {}
    case Claimed => ClaimLocks(tx.req)
    case HoldsOrder(_) => ClaimLocks(tx.req) + if tx.req.op.MoveOrder? then {OrderRow(tx.req.op.order)} else {}
    case HoldsRows(order, _) => ClaimLocks(tx.req) + RowLocks(tx.req.op, order)
    case Writing(order, _, newId, _, _, _, _) =>
      ClaimLocks(tx.req) + RowLocks(tx.req.op, order) + NewLocks(tx.req.op, newId)
  }

  // ----- steps -----------------------------------------------------------------------------------

  function Acquire(s: State, t: TxId, ls: set<Lock>, pc: Pc): State
    requires t in s.txs
  {
    s.(locks := s.locks + (map l | l in ls :: t), txs := s.txs[t := s.txs[t].(pc := pc)])
  }

  function Move(s: State, t: TxId, pc: Pc): State
    requires t in s.txs
  { s.(txs := s.txs[t := s.txs[t].(pc := pc)]) }

  // The transaction is over: its locks are released and its end is recorded.
  function End(s: State, t: TxId, newId: nat, outcome: Outcome): State
    requires t in s.txs
  {
    State(s.store, map l | l in s.locks && s.locks[l] != t :: s.locks[l], s.txs - {t},
          s.log + [Entry(s.txs[t].req, newId, outcome)])
  }

  predicate Free(s: State, l: Lock) { l !in s.locks }

  function ClaimStep(s: State, t: TxId): State
    requires t in s.txs
  {
    match s.txs[t].req.scope
    case None => Move(s, t, Claimed)
    case Some(sc) =>
      if sc in s.store.claims then Move(s, t, Conflicted)
      else if Free(s, ClaimKey(sc)) then Acquire(s, t, {ClaimKey(sc)}, Claimed)
      else s                                               // waits for the other claimant
  }

  function LockOrderStep(s: State, t: TxId): State
    requires t in s.txs && s.txs[t].req.op.MoveOrder?
  {
    var op := s.txs[t].req.op;
    if !Free(s, OrderRow(op.order)) then s
    else match LoadOwnedOrder(s.store.db, op.order, op.merchant)
      case Err(e) => End(s, t, 0, Failed(e))
      case Ok(order) =>
        if RefusedByOrder(op, order) then End(s, t, 0, Failed(InvalidTransition))
        else Acquire(s, t, {OrderRow(op.order)}, HoldsOrder(order))
  }

  function LockProductStep(s: State, t: TxId, order: Option<Order>): State
    requires t in s.txs && !s.txs[t].req.op.CreateProduct? && (s.txs[t].req.op.MoveOrder? ==> order.Some?)
  {
    var op := s.txs[t].req.op;
    var p := ProductOf(op, order);
    if !Free(s, ProductRow(p)) then s
    else match LoadOwnedProduct(s.store.db, p, op.merchant)
      case Err(e) => End(s, t, 0, Failed(e))
      case Ok(product) => Acquire(s, t, {ProductRow(p)}, HoldsRows(order, Some(product)))
  }

  // Loads rows one lock at a time: the order first, then its product.
  function LoadStep(s: State, t: TxId): State
    requires t in s.txs
  {
    var op := s.txs[t].req.op;
    match s.txs[t].pc
    case Claimed =>
      if op.CreateProduct? then Move(s, t, HoldsRows(None, None))
      else if op.MoveOrder? then LockOrderStep(s, t)
      else LockProductStep(s, t, None)
    case HoldsOrder(order) => if op.CreateProduct? then s else LockProductStep(s, t, Some(order))
    case _ => s
  }

  // The row count of a delete, and the checks of every operation, on the rows it holds.
  function DecideStep(s: State, t: TxId, newId: nat): State
    requires t in s.txs && s.txs[t].pc.HoldsRows?
  {
    var op, pc := s.txs[t].req.op, s.txs[t].pc;
    if (op.MoveOrder? && pc.order.None?) || (!op.CreateProduct? && pc.product.None?) then s
    else if !FreshId(s.store.db, op, newId) || exists l | l in NewLocks(op, newId) :: !Free(s, l) then s
    else
      var counted := op.DeleteProduct? && HasOrders(s.store.db, op.product);
      match Decide(op, pc.order, pc.product, counted, newId)
      case Err(e) => End(s, t, newId, Failed(e))
      case Ok((ws, resp)) =>
        Acquire(s, t, NewLocks(op, newId), Writing(pc.order, pc.product, newId, ws, [], resp, None))
  }

  function WriteStep(s: State, t: TxId): State
    requires t in s.txs && s.txs[t].pc.Writing?
  {
    var pc := s.txs[t].pc;
    if pc.todo != [] then Move(s, t, pc.(todo := pc.todo[1..], done := pc.done + [pc.todo[0]]))
    else Move(s, t, pc.(answer := Some(pc.resp)))
  }

  function CommitStep(s: State, t: TxId): State
    requires t in s.txs && s.txs[t].pc.Writing?
  {
    var req, pc := s.txs[t].req, s.txs[t].pc;
    if pc.todo != [] || pc.answer.None? then s
    else
      var claims := if req.scope.Some? then s.store.claims[req.scope.value := Claim(req.payload, pc.answer)]
                    else s.store.claims;
      End(s, t, pc.newId, Done(pc.resp)).(store := Store(ApplyAll(s.store.db, pc.done), claims))
  }

  function ReplayOutcome(s: State, req: Request): Outcome {
    if req.scope.None? || req.scope.value !in s.store.claims then Internal
    else
      var claim := s.store.claims[req.scope.value];
      if claim.payload != req.payload then DuplicateSubmit
      else if claim.response.None? then Internal
      else Replayed(claim.response.value)
  }

  datatype Step =
    | Open(t: TxId, req: Request)
    | TakeClaim(t: TxId)
    | Load(t: TxId)
    | DecideNow(t: TxId, newId: nat)
    | WriteNext(t: TxId)
    | Commit(t: TxId)
    | Replay(t: TxId)
    | Rollback(t: TxId)

  // A step that is not possible, or has to wait for a lock, changes nothing.
  function Next(s: State, a: Step): State {
    if a.Open? then if a.t in s.txs then s else s.(txs := s.txs[a.t := Tx(a.req, Opened)])
    else if a.t !in s.txs then s
    else
      var t, pc := a.t, s.txs[a.t].pc;
      match a
      case TakeClaim(_) => if pc.Opened? then ClaimStep(s, t) else s
      case Load(_) => LoadStep(s, t)
      case DecideNow(_, newId) => if pc.HoldsRows? then DecideStep(s, t, newId) else s
      case WriteNext(_) => if pc.Writing? then WriteStep(s, t) else s
      case Commit(_) => if pc.Writing? then CommitStep(s, t) else s
      case Replay(_) => if pc.Conflicted? then End(s, t, 0, ReplayOutcome(s, s.txs[t].req)) else s
      case Rollback(_) => End(s, t, 0, RolledBack)
      case Open(_, _) => s
  }

  function Run(s: State, steps: seq<Step>): State
    decreases |steps|
  {
    if steps == [] then s else Run(Next(s, steps[0]), steps[1..])
  }

  function Init(db: Db): State { State(Store(db, map[]), map[], map[], []) }

  // The operations that took effect, in commit order, with the ids of their new rows.
  function Effects(log: seq<Entry>): seq<(Op, nat)> {
    if log == [] then []
    else
      var last := log[|log| - 1];
      Effects(log[..|log| - 1]) + if last.outcome.Done? then [(last.req.op, last.newId)] else []
  }
}
