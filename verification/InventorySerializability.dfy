/**
 Every interleaving of transactions is a sequence of whole operations in commit order, and keyed
 requests take effect once.
 */
module InventorySerializability {
  import opened Wrappers
  import opened Inventory
  import opened InventoryInvariants
  import opened InventoryLedger
  import opened InventoryTransactions

  // ----- invariant -------------------------------------------------------------------------------

  function HeldBy(txs: map<TxId, Tx>): map<TxId, set<Lock>> { map t | t in txs :: Holds(txs[t]) }

  // The lock table is exactly what the transactions hold.
  ghost predicate LocksOk(locks: map<Lock, TxId>, held: map<TxId, set<Lock>>) {
    && (forall t, l | t in held && l in held[t] :: l in locks && locks[l] == t)
    && (forall l | l in locks :: locks[l] in held && l in held[locks[l]])
  }

  // The copy of a locked row is the committed row.
  ghost predicate OrderCopy(db: Db, op: Op, order: Option<Order>) {
    && (op.MoveOrder? <==> order.Some?)
    && (op.MoveOrder? ==>
          LoadOwnedOrder(db, op.order, op.merchant) == Ok(order.value) && !RefusedByOrder(op, order.value))
  }

  ghost predicate RowCopies(db: Db, op: Op, order: Option<Order>, product: Option<Product>) {
    && OrderCopy(db, op, order)
    && (op.CreateProduct? <==> product.None?)
    && (!op.CreateProduct? ==> LoadOwnedProduct(db, ProductOf(op, order), op.merchant) == Ok(product.value))
  }

  ghost predicate TxOk(store: Store, tx: Tx) {
    var op := tx.req.op;
    match tx.pc
    case Opened => true
    case Conflicted => tx.req.scope.Some? && tx.req.scope.value in store.claims
    case Claimed => Unclaimed(store, tx.req)
    case HoldsOrder(order) => Unclaimed(store, tx.req) && op.MoveOrder? && OrderCopy(store.db, op, Some(order))
    case HoldsRows(order, product) => Unclaimed(store, tx.req) && RowCopies(store.db, op, order, product)
    case Writing(order, product, newId, todo, done, resp, answer) =>
      && Unclaimed(store, tx.req) && RowCopies(store.db, op, order, product) && FreshId(store.db, op, newId)
      && DecideOn(store.db, op, newId) == Ok((done + todo, resp))
      && (answer.Some? ==> answer.value == resp)
  }

  ghost predicate Unclaimed(store: Store, req: Request) { req.scope.Some? ==> req.scope.value !in store.claims }

  ghost predicate Inv(s: State) {
    LocksOk(s.locks, HeldBy(s.txs)) && (forall t | t in s.txs :: TxOk(s.store, s.txs[t]))
  }

  // ----- what a commit writes ----------------------------------------------------------------------

  // Every write stays within one product and one order of it.
  predicate Within(w: Write, p: ProductId, o: OrderId) {
    match w
    case SaveProduct(q, _) => q == p
    case SaveOrder(j, row) => j == o && row.product == p
    case _ => true
  }

  function ProductWritten(op: Op, order: Option<Order>, newId: nat): ProductId
    requires op.MoveOrder? ==> order.Some?
  { if op.CreateProduct? then newId else ProductOf(op, order) }

  function OrderWritten(op: Op, newId: nat): OrderId { if op.MoveOrder? then op.order else newId }

  lemma DecisionWithin(op: Op, order: Option<Order>, product: Option<Product>, counted: bool, newId: nat)
    requires (op.MoveOrder? ==> order.Some?) && (!op.CreateProduct? ==> product.Some?)
    requires Decide(op, order, product, counted, newId).Ok?
    ensures forall w | w in Decide(op, order, product, counted, newId).value.0 ::
      Within(w, ProductWritten(op, order, newId), OrderWritten(op, newId))
    ensures forall w | w in Decide(op, order, product, counted, newId).value.0 && w.SaveOrder? ::
      op.MoveOrder? || op.PlaceOrder?
  {
  }

  ghost predicate SameOutside(a: Db, b: Db, p: ProductId, o: OrderId) {
    a.products - {p} == b.products - {p} && a.orders - {o} == b.orders - {o}
  }

  lemma {:induction false} WritesSameOutside(a: Db, ws: seq<Write>, p: ProductId, o: OrderId)
    requires forall w | w in ws :: Within(w, p, o)
    ensures SameOutside(a, ApplyAll(a, ws), p, o)
    ensures (forall w | w in ws :: !w.SaveOrder?) ==> ApplyAll(a, ws).orders == a.orders
    ensures var b := ApplyAll(a, ws);
      o in b.orders ==> b.orders[o].product == p || (o in a.orders && b.orders[o] == a.orders[o])
    decreases |ws|
  {
    if ws != [] {
      assert Within(ws[0], p, o);
      var a1 := Apply(a, ws[0]);
      assert a1.products - {p} == a.products - {p} && a1.orders - {o} == a.orders - {o};
      WritesSameOutside(a1, ws[1..], p, o);
    }
  }

  // What committing (p, o) leaves alone: every other product, every other order, every other count.
  ghost predicate OthersKept(a: Db, b: Db, p: ProductId, o: Option<OrderId>) {
    && (forall q | q != p ::
          (q in a.products <==> q in b.products) && (q in a.products ==> a.products[q] == b.products[q]))
    && (forall j | o != Some(j) :: (j in a.orders <==> j in b.orders) && (j in a.orders ==> a.orders[j] == b.orders[j]))
    && (forall q | q != p :: HasOrders(a, q) <==> HasOrders(b, q))
  }

  // The order row a transaction writes, if any.
  function OrderOf(op: Op, newId: nat): Option<OrderId> {
    if op.MoveOrder? then Some(op.order) else if op.PlaceOrder? then Some(newId) else None
  }

  lemma CommitKeepsOthers(
      db: Db, op: Op, order: Option<Order>, product: Option<Product>, newId: nat, ws: seq<Write>, resp: Response)
    requires RowCopies(db, op, order, product) && FreshId(db, op, newId)
    requires DecideOn(db, op, newId) == Ok((ws, resp))
    ensures OthersKept(db, ApplyAll(db, ws), ProductWritten(op, order, newId), OrderOf(op, newId))
  {
    var p, o := ProductWritten(op, order, newId), OrderWritten(op, newId);
    var b := ApplyAll(db, ws);
    DecisionWithin(op, order, product, !op.MoveOrder? && !op.CreateProduct? && HasOrders(db, op.product), newId);
    WritesSameOutside(db, ws, p, o);
    forall q | q != p
      ensures (q in db.products <==> q in b.products) && (q in db.products ==> db.products[q] == b.products[q])
    {
      assert q in db.products <==> q in db.products - {p};
      assert q in b.products <==> q in b.products - {p};
    }
    forall j | j != o ensures (j in db.orders <==> j in b.orders) && (j in db.orders ==> db.orders[j] == b.orders[j]) {
      assert j in db.orders <==> j in db.orders - {o};
      assert j in b.orders <==> j in b.orders - {o};
    }
    forall q | q != p ensures HasOrders(db, q) <==> HasOrders(b, q) {
      if HasOrders(db, q) {
        var j :| j in db.orders && db.orders[j].product == q;
        assert j in b.orders && b.orders[j].product == q;
      }
      if HasOrders(b, q) {
        var j :| j in b.orders && b.orders[j].product == q;
        assert j in db.orders && db.orders[j].product == q;
      }
    }
  }

  // ----- invariance ----------------------------------------------------------------------------------

  // Another transaction's facts survive a commit of rows it does not hold.
  lemma OtherTxKept(a: Store, b: Store, tx: Tx, p: ProductId, o: Option<OrderId>, claim: Option<Scope>)
    requires TxOk(a, tx) && OthersKept(a.db, b.db, p, o)
    requires ProductRow(p) !in Holds(tx) && (o.Some? ==> OrderRow(o.value) !in Holds(tx))
    requires claim.Some? ==> ClaimKey(claim.value) !in Holds(tx)
    requires a.claims.Keys <= b.claims.Keys
    requires forall sc | sc in b.claims && sc !in a.claims :: claim == Some(sc)
    ensures TxOk(b, tx)
  {
    var op := tx.req.op;
    if tx.pc.HoldsRows? || tx.pc.Writing? {
      if !op.CreateProduct? {
        var q := ProductOf(op, tx.pc.order);
        assert ProductRow(q) in Holds(tx) && q != p;
      }
    }
  }

  lemma LocksGrow(locks: map<Lock, TxId>, held: map<TxId, set<Lock>>, t: TxId, ls: set<Lock>)
    requires LocksOk(locks, held) && forall l | l in ls :: l !in locks
    ensures LocksOk(locks + (map l | l in ls :: t), held[t := (if t in held then held[t] else {}) + ls])
  {
  }

  lemma LocksOpened(locks: map<Lock, TxId>, held: map<TxId, set<Lock>>, t: TxId)
    requires LocksOk(locks, held) && t !in held
    ensures LocksOk(locks, held[t := {}])
  {
    forall l | l in locks ensures locks[l] != t { assert locks[l] in held; }
  }

  lemma LocksReleased(locks: map<Lock, TxId>, held: map<TxId, set<Lock>>, t: TxId)
    requires LocksOk(locks, held)
    ensures LocksOk(map l | l in locks && locks[l] != t :: locks[l], held - {t})
  {
  }

  lemma AcquireInv(s: State, t: TxId, ls: set<Lock>, pc: Pc)
    requires Inv(s) && t in s.txs
    requires forall l | l in ls :: Free(s, l)
    requires Holds(Tx(s.txs[t].req, pc)) == Holds(s.txs[t]) + ls
    requires TxOk(s.store, Tx(s.txs[t].req, pc))
    ensures Inv(Acquire(s, t, ls, pc))
  {
    LocksGrow(s.locks, HeldBy(s.txs), t, ls);
    assert HeldBy(Acquire(s, t, ls, pc).txs) == HeldBy(s.txs)[t := HeldBy(s.txs)[t] + ls];
  }

  lemma MoveInv(s: State, t: TxId, pc: Pc)
    requires Inv(s) && t in s.txs
    requires Holds(Tx(s.txs[t].req, pc)) == Holds(s.txs[t])
    requires TxOk(s.store, Tx(s.txs[t].req, pc))
    ensures Inv(Move(s, t, pc))
  {
    assert HeldBy(Move(s, t, pc).txs) == HeldBy(s.txs);
  }

  lemma OpenInv(s: State, t: TxId, req: Request)
    requires Inv(s) && t !in s.txs
    ensures Inv(s.(txs := s.txs[t := Tx(req, Opened)]))
  {
    LocksOpened(s.locks, HeldBy(s.txs), t);
    assert HeldBy(s.txs[t := Tx(req, Opened)]) == HeldBy(s.txs)[t := {}];
  }

  lemma EndInv(s: State, t: TxId, newId: nat, outcome: Outcome)
    requires Inv(s) && t in s.txs
    ensures Inv(End(s, t, newId, outcome))
  {
    LocksReleased(s.locks, HeldBy(s.txs), t);
    assert HeldBy(s.txs - {t}) == HeldBy(s.txs) - {t};
  }

  // No lock has two holders.
  lemma HeldApart(s: State, t: TxId, u: TxId, l: Lock)
    requires Inv(s) && t in s.txs && u in s.txs && t != u && l in Holds(s.txs[t])
    ensures l !in Holds(s.txs[u])
  {
    var held := HeldBy(s.txs);
    assert t in held && l in held[t] && s.locks[l] == t;
    assert u in held && held[u] == Holds(s.txs[u]);
  }

  lemma LoadInv(s: State, t: TxId)
    requires Inv(s) && t in s.txs
    ensures Inv(LoadStep(s, t))
  {
    var op := s.txs[t].req.op;
    assert TxOk(s.store, s.txs[t]);
    match s.txs[t].pc
    case Claimed =>
      if op.CreateProduct? { MoveInv(s, t, HoldsRows(None, None)); }
      else if op.MoveOrder? { LockOrderInv(s, t); }
      else { LockProductInv(s, t, None); }
    case HoldsOrder(order) => if !op.CreateProduct? { LockProductInv(s, t, Some(order)); }
    case _ =>
  }

  lemma LockOrderInv(s: State, t: TxId)
    requires Inv(s) && t in s.txs && s.txs[t].req.op.MoveOrder? && s.txs[t].pc.Claimed?
    ensures Inv(LockOrderStep(s, t))
  {
    var op := s.txs[t].req.op;
    assert TxOk(s.store, s.txs[t]);
    if Free(s, OrderRow(op.order)) {
      match LoadOwnedOrder(s.store.db, op.order, op.merchant)
      case Err(e) => EndInv(s, t, 0, Failed(e));
      case Ok(order) =>
        if RefusedByOrder(op, order) { EndInv(s, t, 0, Failed(InvalidTransition)); }
        else { AcquireInv(s, t, {OrderRow(op.order)}, HoldsOrder(order)); }
    }
  }

  lemma LockProductInv(s: State, t: TxId, order: Option<Order>)
    requires Inv(s) && t in s.txs && !s.txs[t].req.op.CreateProduct? && (s.txs[t].req.op.MoveOrder? <==> order.Some?)
    requires if order.Some? then s.txs[t].pc == HoldsOrder(order.value) else s.txs[t].pc.Claimed?
    ensures Inv(LockProductStep(s, t, order))
  {
    var op := s.txs[t].req.op;
    var p := ProductOf(op, order);
    assert TxOk(s.store, s.txs[t]);
    if Free(s, ProductRow(p)) {
      match LoadOwnedProduct(s.store.db, p, op.merchant)
      case Err(e) => EndInv(s, t, 0, Failed(e));
      case Ok(product) =>
        assert Holds(Tx(s.txs[t].req, HoldsRows(order, Some(product)))) == Holds(s.txs[t]) + {ProductRow(p)};
        AcquireInv(s, t, {ProductRow(p)}, HoldsRows(order, Some(product)));
    }
  }

  lemma DecideInv(s: State, t: TxId, newId: nat)
    requires Inv(s) && t in s.txs && s.txs[t].pc.HoldsRows?
    ensures Inv(DecideStep(s, t, newId))
  {
    var op, pc := s.txs[t].req.op, s.txs[t].pc;
    assert TxOk(s.store, s.txs[t]);
    if FreshId(s.store.db, op, newId) && (forall l | l in NewLocks(op, newId) :: Free(s, l)) {
      var counted := op.DeleteProduct? && HasOrders(s.store.db, op.product);
      assert DecideOn(s.store.db, op, newId) == Decide(op, pc.order, pc.product, counted, newId);
      match Decide(op, pc.order, pc.product, counted, newId)
      case Err(e) => EndInv(s, t, newId, Failed(e));
      case Ok((ws, resp)) =>
        assert [] + ws == ws;
        AcquireInv(s, t, NewLocks(op, newId), Writing(pc.order, pc.product, newId, ws, [], resp, None));
    }
  }

  lemma WriteInv(s: State, t: TxId)
    requires Inv(s) && t in s.txs && s.txs[t].pc.Writing?
    ensures Inv(WriteStep(s, t))
  {
    var pc := s.txs[t].pc;
    assert TxOk(s.store, s.txs[t]);
    if pc.todo != [] {
      assert pc.done + [pc.todo[0]] + pc.todo[1..] == pc.done + pc.todo;
      MoveInv(s, t, pc.(todo := pc.todo[1..], done := pc.done + [pc.todo[0]]));
    } else {
      MoveInv(s, t, pc.(answer := Some(pc.resp)));
    }
  }

  lemma CommitInv(s: State, t: TxId)
    requires Inv(s) && t in s.txs && s.txs[t].pc.Writing?
    ensures Inv(CommitStep(s, t))
  {
    var req, pc := s.txs[t].req, s.txs[t].pc;
    var op := req.op;
    assert TxOk(s.store, s.txs[t]);
    if pc.todo == [] && pc.answer.Some? {
      assert pc.done + pc.todo == pc.done;
      EndInv(s, t, pc.newId, Done(pc.resp));
      var b := CommitStep(s, t);
      var p, o := ProductWritten(op, pc.order, pc.newId), OrderOf(op, pc.newId);
      CommitKeepsOthers(s.store.db, op, pc.order, pc.product, pc.newId, pc.done, pc.resp);
      assert ProductRow(p) in Holds(s.txs[t]) && (o.Some? ==> OrderRow(o.value) in Holds(s.txs[t]));
      forall u | u in b.txs ensures TxOk(b.store, b.txs[u]) {
        assert TxOk(s.store, s.txs[u]);
        HeldApart(s, t, u, ProductRow(p));
        if o.Some? { HeldApart(s, t, u, OrderRow(o.value)); }
        if req.scope.Some? { HeldApart(s, t, u, ClaimKey(req.scope.value)); }
        OtherTxKept(s.store, b.store, s.txs[u], p, o, req.scope);
      }
    }
  }

  lemma NextInv(s: State, a: Step)
    requires Inv(s)
    ensures Inv(Next(s, a))
  {
    if a.Open? {
      if a.t !in s.txs {
        OpenInv(s, a.t, a.req);
      }
    } else if a.t in s.txs {
      var t := a.t;
      assert TxOk(s.store, s.txs[t]);
      match a
      case TakeClaim(_) => if s.txs[t].pc.Opened? { ClaimInv(s, t); }
      case Load(_) => LoadInv(s, t);
      case DecideNow(_, newId) => if s.txs[t].pc.HoldsRows? { DecideInv(s, t, newId); }
      case WriteNext(_) => if s.txs[t].pc.Writing? { WriteInv(s, t); }
      case Commit(_) => if s.txs[t].pc.Writing? { CommitInv(s, t); }
      case Replay(_) => EndInv(s, t, 0, ReplayOutcome(s, s.txs[t].req));
      case Rollback(_) => EndInv(s, t, 0, RolledBack);
      case Open(_, _) =>
    }
  }

  lemma ClaimInv(s: State, t: TxId)
    requires Inv(s) && t in s.txs && s.txs[t].pc.Opened?
    ensures Inv(ClaimStep(s, t))
  {
    match s.txs[t].req.scope
    case None => MoveInv(s, t, Claimed);
    case Some(sc) =>
      if sc in s.store.claims { MoveInv(s, t, Conflicted); }
      else if Free(s, ClaimKey(sc)) { AcquireInv(s, t, {ClaimKey(sc)}, Claimed); }
  }

  // ----- serializability ---------------------------------------------------------------------------

  lemma EffectsAppended(log: seq<Entry>, e: Entry)
    ensures Effects(log + [e]) == Effects(log) + if e.outcome.Done? then [(e.req.op, e.newId)] else []
  {
    assert (log + [e])[..|log|] == log;
  }

  lemma {:induction false} ExecAllAppend(db: Db, ops: seq<(Op, nat)>, x: (Op, nat))
    ensures ExecAll(db, ops + [x]) == ExecDb(ExecAll(db, ops), x.0, x.1)
    ensures AllFresh(db, ops) && FreshId(ExecAll(db, ops), x.0, x.1) ==> AllFresh(db, ops + [x])
    decreases |ops|
  {
    if ops == [] {
      assert ops + [x] == [x];
      assert ExecAll(db, [x]) == ExecAll(ExecDb(db, x.0, x.1), [x][1..]);
    } else {
      assert (ops + [x])[0] == ops[0] && (ops + [x])[1..] == ops[1..] + [x];
      ExecAllAppend(ExecDb(db, ops[0].0, ops[0].1), ops[1..], x);
    }
  }

  // The committed database is the one reached by whole operations in commit order.
  ghost predicate Serial(s: State, db: Db) {
    s.store.db == ExecAll(db, Effects(s.log)) && AllFresh(db, Effects(s.log))
  }

  // A step that ends no transaction successfully leaves the store and the effects alone.
  ghost predicate NoEffect(s: State, b: State) { b.store == s.store && Effects(b.log) == Effects(s.log) }

  lemma EndNoEffect(s: State, t: TxId, newId: nat, outcome: Outcome)
    requires t in s.txs && !outcome.Done?
    ensures NoEffect(s, End(s, t, newId, outcome))
  {
    EffectsAppended(s.log, Entry(s.txs[t].req, newId, outcome));
  }

  lemma LoadNoEffect(s: State, t: TxId)
    requires t in s.txs
    ensures NoEffect(s, LoadStep(s, t))
  {
    var op := s.txs[t].req.op;
    var order := if s.txs[t].pc.HoldsOrder? then Some(s.txs[t].pc.row) else None;
    if op.MoveOrder? && s.txs[t].pc.Claimed? {
      var row := LoadOwnedOrder(s.store.db, op.order, op.merchant);
      if row.Err? { EndNoEffect(s, t, 0, Failed(row.error)); } else { EndNoEffect(s, t, 0, Failed(InvalidTransition)); }
    } else if !op.CreateProduct? && (op.MoveOrder? ==> order.Some?) {
      var row := LoadOwnedProduct(s.store.db, ProductOf(op, order), op.merchant);
      if row.Err? { EndNoEffect(s, t, 0, Failed(row.error)); }
    }
  }

  lemma DecideNoEffect(s: State, t: TxId, newId: nat)
    requires t in s.txs && s.txs[t].pc.HoldsRows?
    ensures NoEffect(s, DecideStep(s, t, newId))
  {
    var b := DecideStep(s, t, newId);
    if b.log != s.log { EndNoEffect(s, t, newId, b.log[|s.log|].outcome); }
  }

  lemma CommitSerial(s: State, t: TxId, db: Db)
    requires Inv(s) && Serial(s, db) && t in s.txs && s.txs[t].pc.Writing?
    ensures Serial(CommitStep(s, t), db)
  {
    var req, pc := s.txs[t].req, s.txs[t].pc;
    if pc.todo == [] && pc.answer.Some? {
      assert TxOk(s.store, s.txs[t]) && pc.done + pc.todo == pc.done;
      EffectsAppended(s.log, Entry(req, pc.newId, Done(pc.resp)));
      ExecAllAppend(db, Effects(s.log), (req.op, pc.newId));
    }
  }

  lemma NextSerial(s: State, a: Step, db: Db)
    requires Inv(s) && Serial(s, db)
    ensures Serial(Next(s, a), db)
  {
    if !a.Open? && a.t in s.txs {
      var t := a.t;
      match a
      case Load(_) => LoadNoEffect(s, t);
      case DecideNow(_, newId) => if s.txs[t].pc.HoldsRows? { DecideNoEffect(s, t, newId); }
      case Commit(_) => if s.txs[t].pc.Writing? { CommitSerial(s, t, db); }
      case Replay(_) => EndNoEffect(s, t, 0, ReplayOutcome(s, s.txs[t].req));
      case Rollback(_) => EndNoEffect(s, t, 0, RolledBack);
      case _ =>
    }
  }

  lemma {:induction false} RunSerial(s: State, steps: seq<Step>, db: Db)
    requires Inv(s) && Serial(s, db)
    ensures Inv(Run(s, steps)) && Serial(Run(s, steps), db)
    decreases |steps|
  {
    if steps != [] {
      NextInv(s, steps[0]);
      NextSerial(s, steps[0], db);
      RunSerial(Next(s, steps[0]), steps[1..], db);
    }
  }

  /**
   Any interleaving of transactions, with waits, rollbacks and crashes anywhere, ends in the
   database that the committed operations produce one after the other, each in one piece.
   */
  lemma InterleavingsAreSerial(db: Db, steps: seq<Step>)
    ensures var s := Run(Init(db), steps);
      s.store.db == ExecAll(db, Effects(s.log)) && AllFresh(db, Effects(s.log))
  {
    RunSerial(Init(db), steps, db);
  }

  // Hence every committed state keeps the promises about products and orders.
  lemma CommittedStatesKeepPromises(db: Db, steps: seq<Step>, p: ProductId)
    requires DbInv(db)
    ensures DbInv(Run(Init(db), steps).store.db)
    ensures ProductPromise(Run(Init(db), steps).store.db, p)
  {
    InterleavingsAreSerial(db, steps);
    ExecAllKeeps(db, Effects(Run(Init(db), steps).log));
    PromiseHolds(Run(Init(db), steps).store.db, p);
  }

  /** And at every committed point the stock of a product is what its records say. */
  lemma CommittedStockIsItsHistory(steps: seq<Step>, p: ProductId)
    ensures var s := Run(Init(EMPTY), steps);
      StockOf(s.store.db, p)
        == Direct(EMPTY, Effects(s.log), p) + MovementTotal(s.store.db.movements, p) - Taken(s.store.db, p)
  {
    InterleavingsAreSerial(EMPTY, steps);
    StockIsItsHistory(Effects(Run(Init(EMPTY), steps).log), p);
  }
}
