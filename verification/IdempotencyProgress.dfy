/**
 What the outcomes of interleaved requests say, and that requests get them: every answer is the one the
 operation gives on the database at that moment, and a request whose rows are free is answered as by the
 wrapper run alone.
 */
module IdempotencyProgress {
  import opened Wrappers
  import opened Inventory
  import opened InventoryTransactions
  import opened InventorySerializability
  import opened IdempotencyService

  // ----- outcomes are truthful ---------------------------------------------------------------------

  // The answer of an operation on this database.
  predicate Truthful(db: Db, after: Db, e: Entry) {
    match e.outcome
    case Done(resp) => Exec(db, e.req.op, e.newId) == Ok((after, resp))
    case Failed(error) => Exec(db, e.req.op, e.newId) == Err(error) && after == db
    case _ => after == db
  }

  ghost predicate Ends(s: State, u: State, e: Entry) {
    u.log == s.log + [e] && Truthful(s.store.db, u.store.db, e)
  }

  lemma LoadIsTruthful(s: State, t: TxId)
    requires Inv(s) && t in s.txs && LoadStep(s, t).log != s.log
    ensures exists e :: Ends(s, LoadStep(s, t), e)
  {
    assert TxOk(s.store, s.txs[t]);
    var u := LoadStep(s, t);
    assert Ends(s, u, u.log[|s.log|]);
  }

  lemma DecideIsTruthful(s: State, t: TxId, newId: nat)
    requires Inv(s) && t in s.txs && s.txs[t].pc.HoldsRows? && DecideStep(s, t, newId).log != s.log
    ensures exists e :: Ends(s, DecideStep(s, t, newId), e)
  {
    assert TxOk(s.store, s.txs[t]);
    var u := DecideStep(s, t, newId);
    assert Ends(s, u, u.log[|s.log|]);
  }

  lemma CommitIsTruthful(s: State, t: TxId)
    requires Inv(s) && t in s.txs && s.txs[t].pc.Writing? && CommitStep(s, t).log != s.log
    ensures exists e :: Ends(s, CommitStep(s, t), e)
  {
    var pc := s.txs[t].pc;
    assert TxOk(s.store, s.txs[t]) && pc.done + pc.todo == pc.done;
    var u := CommitStep(s, t);
    assert Ends(s, u, u.log[|s.log|]);
  }

  /**
   Whenever a request ends, in any interleaving, its response or error is what its operation gives on the
   database at that moment, and the database becomes what the operation makes of it.
   */
  lemma OutcomesAreTruthful(db: Db, steps: seq<Step>, a: Step)
    ensures var s := Run(Init(db), steps);
      Next(s, a).log == s.log || exists e :: Ends(s, Next(s, a), e)
  {
    RunSerial(Init(db), steps, db);
    NextIsTruthful(Run(Init(db), steps), a);
  }

  lemma NextIsTruthful(s: State, a: Step)
    requires Inv(s)
    ensures Next(s, a).log == s.log || exists e :: Ends(s, Next(s, a), e)
  {
    if !a.Open? && a.t in s.txs && Next(s, a).log != s.log {
      match a
      case Load(t) => LoadIsTruthful(s, t);
      case DecideNow(t, newId) => DecideIsTruthful(s, t, newId);
      case Commit(t) => CommitIsTruthful(s, t);
      case Replay(t) => assert Ends(s, Next(s, a), Entry(s.txs[t].req, 0, ReplayOutcome(s, s.txs[t].req)));
      case Rollback(t) => assert Ends(s, Next(s, a), Entry(s.txs[t].req, 0, RolledBack));
      case _ =>
    }
  }

  // ----- a request whose rows are free -------------------------------------------------------------

  // The rows the operation is going to lock.
  function Needs(db: Db, op: Op, newId: nat): set<Lock> {
    NewLocks(op, newId)
    + if op.CreateProduct? then {}
      else if op.MoveOrder? then
        {OrderRow(op.order)} + if op.order in db.orders then {ProductRow(db.orders[op.order].product)} else {}
      else {ProductRow(op.product)}
  }

  predicate AllFree(s: State, locks: set<Lock>) { forall l | l in locks :: Free(s, l) }

  // The transaction at this point, with nothing else changed but the locks it took.
  ghost predicate At(s: State, u: State, t: TxId, req: Request, pc: Pc) {
    && u.store == s.store && u.log == s.log && t in u.txs && u.txs[t] == Tx(req, pc)
    && forall l | l in u.locks :: l in s.locks || l in Holds(u.txs[t])
  }

  // The request has been answered.
  ghost predicate Answered(s: State, u: State, t: TxId, req: Request, o: Outcome) {
    t !in u.txs && |u.log| == |s.log| + 1 && u.log[..|s.log|] == s.log
    && u.log[|s.log|].req == req && u.log[|s.log|].outcome == o
  }

  function Claim2(s: State, t: TxId, req: Request): State { Next(Next(s, Open(t, req)), TakeClaim(t)) }

  function LoadBoth(s: State, t: TxId): State { Next(Next(s, Load(t)), Load(t)) }

  // At most three rows are written, then the response is stored.
  function WriteAll(s: State, t: TxId): State {
    Next(Next(Next(Next(s, WriteNext(t)), WriteNext(t)), WriteNext(t)), WriteNext(t))
  }

  // All steps of one request, one after the other; those that are not possible change nothing.
  function Alone(s: State, t: TxId, req: Request, newId: nat): State {
    Next(Next(WriteAll(Next(LoadBoth(Claim2(s, t, req), t), DecideNow(t, newId)), t), Commit(t)), Replay(t))
  }

  lemma ClaimTaken(s: State, t: TxId, req: Request)
    requires t !in s.txs
    requires req.scope.Some? ==> req.scope.value !in s.store.claims && Free(s, ClaimKey(req.scope.value))
    ensures At(s, Claim2(s, t, req), t, req, Claimed)
  {
  }

  lemma ClaimConflicts(s: State, t: TxId, req: Request)
    requires t !in s.txs && req.scope.Some? && req.scope.value in s.store.claims
    ensures At(s, Claim2(s, t, req), t, req, Conflicted)
  {
  }

  // Loading ends at the rows the operation decides on, or with the error of a row.
  lemma RowsLoaded(s: State, u: State, t: TxId, req: Request, newId: nat)
    requires At(s, u, t, req, Claimed) && AllFree(s, Needs(s.store.db, req.op, newId))
    ensures var v, db, op := LoadBoth(u, t), s.store.db, req.op;
      v.store == s.store &&
      (|| (DecideOn(db, op, newId).Err? && Answered(s, v, t, req, Failed(DecideOn(db, op, newId).error)))
       || (exists order, product :: Loaded(s, v, t, req, newId, order, product)))
  {
    var op, v := req.op, LoadBoth(u, t);
    if op.CreateProduct? {
      assert Loaded(s, v, t, req, newId, None, None);
    } else if op.MoveOrder? {
      OrderLoaded(s, u, t, req, newId);
    } else {
      var p := LoadOwnedProduct(s.store.db, op.product, op.merchant);
      if p.Ok? { assert Loaded(s, v, t, req, newId, None, Some(p.value)); }
    }
  }

  lemma OrderLoaded(s: State, u: State, t: TxId, req: Request, newId: nat)
    requires At(s, u, t, req, Claimed) && AllFree(s, Needs(s.store.db, req.op, newId)) && req.op.MoveOrder?
    ensures var v, db, op := LoadBoth(u, t), s.store.db, req.op;
      v.store == s.store &&
      (|| (DecideOn(db, op, newId).Err? && Answered(s, v, t, req, Failed(DecideOn(db, op, newId).error)))
       || (exists order, product :: Loaded(s, v, t, req, newId, order, product)))
  {
    var op, db, v := req.op, s.store.db, LoadBoth(u, t);
    var o := LoadOwnedOrder(db, op.order, op.merchant);
    if o.Ok? && !RefusedByOrder(op, o.value) {
      var p := LoadOwnedProduct(db, o.value.product, op.merchant);
      if p.Ok? { assert Loaded(s, v, t, req, newId, Some(o.value), Some(p.value)); }
    }
  }

  ghost predicate Loaded(
      s: State, v: State, t: TxId, req: Request, newId: nat, order: Option<Order>, product: Option<Product>)
  {
    && At(s, v, t, req, HoldsRows(order, product)) && v.store == s.store
    && (req.op.MoveOrder? ==> order.Some?) && (!req.op.CreateProduct? ==> product.Some?)
    && DecideOn(s.store.db, req.op, newId)
       == Decide(req.op, order, product, req.op.DeleteProduct? && HasOrders(s.store.db, req.op.product), newId)
  }

  lemma Decided(s: State, v: State, t: TxId, req: Request, newId: nat, order: Option<Order>, product: Option<Product>)
    requires Loaded(s, v, t, req, newId, order, product)
    requires FreshId(s.store.db, req.op, newId) && AllFree(s, Needs(s.store.db, req.op, newId))
    ensures var w := Next(v, DecideNow(t, newId));
      match DecideOn(s.store.db, req.op, newId)
      case Err(e) => w.store == s.store && Answered(s, w, t, req, Failed(e))
      case Ok((ws, resp)) => At(s, w, t, req, Writing(order, product, newId, ws, [], resp, None))
  {
    NewRowsFree(s, v, t, req, newId, order, product);
  }

  lemma NewRowsFree(
      s: State, v: State, t: TxId, req: Request, newId: nat, order: Option<Order>, product: Option<Product>)
    requires At(s, v, t, req, HoldsRows(order, product)) && AllFree(s, Needs(s.store.db, req.op, newId))
    ensures AllFree(v, NewLocks(req.op, newId))
  {
    forall l | l in NewLocks(req.op, newId) ensures Free(v, l) {
      assert l in Needs(s.store.db, req.op, newId) && l !in Holds(v.txs[t]);
    }
  }

  // The program point after one more row is written, or the response is stored.
  function Advance(pc: Pc): Pc
    requires pc.Writing?
  {
    if pc.todo == [] then pc.(answer := Some(pc.resp))
    else pc.(todo := pc.todo[1..], done := pc.done + [pc.todo[0]])
  }

  lemma WrittenOne(s: State, w: State, t: TxId, req: Request, pc: Pc)
    requires At(s, w, t, req, pc) && pc.Writing?
    ensures At(s, Next(w, WriteNext(t)), t, req, Advance(pc))
  {
  }

  lemma AdvanceToTheEnd(pc: Pc)
    requires pc.Writing? && |pc.todo| <= 3 && pc.done == []
    ensures Advance(Advance(Advance(Advance(pc)))) == pc.(todo := [], done := pc.todo, answer := Some(pc.resp))
  {
    var ws := pc.todo;
    if |ws| == 1 {
      assert ws[1..] == [] && [] + [ws[0]] == ws;
    } else if |ws| == 2 {
      assert ws[1..] == [ws[1]] && ws[1..][1..] == [] && [] + [ws[0]] + [ws[1]] == ws;
    } else if |ws| == 3 {
      assert ws[1..] == [ws[1], ws[2]] && ws[1..][1..] == [ws[2]] && ws[1..][1..][1..] == [];
      assert [] + [ws[0]] + [ws[1]] + [ws[2]] == ws;
    }
  }

  lemma WrittenAll(s: State, w: State, t: TxId, req: Request, pc: Pc)
    requires At(s, w, t, req, pc) && pc.Writing? && |pc.todo| <= 3 && pc.done == []
    ensures At(s, WriteAll(w, t), t, req, pc.(todo := [], done := pc.todo, answer := Some(pc.resp)))
  {
    var w1 := Next(w, WriteNext(t));
    var w2 := Next(w1, WriteNext(t));
    var w3 := Next(w2, WriteNext(t));
    WrittenOne(s, w, t, req, pc);
    WrittenOne(s, w1, t, req, Advance(pc));
    WrittenOne(s, w2, t, req, Advance(Advance(pc)));
    WrittenOne(s, w3, t, req, Advance(Advance(Advance(pc))));
    AdvanceToTheEnd(pc);
  }

  lemma Committed(s: State, w: State, t: TxId, req: Request, pc: Pc)
    requires At(s, w, t, req, pc) && pc.Writing? && pc.todo == [] && pc.answer == Some(pc.resp)
    ensures var u := Next(w, Commit(t));
      && Answered(s, u, t, req, Done(pc.resp)) && u.store.db == ApplyAll(s.store.db, pc.done)
      && u.store.claims == if req.scope.None? then s.store.claims
                           else s.store.claims[req.scope.value := Claim(req.payload, Some(pc.resp))]
  {
  }

  lemma FewWrites(db: Db, op: Op, newId: nat)
    requires DecideOn(db, op, newId).Ok?
    ensures |DecideOn(db, op, newId).value.0| <= 3
  {
  }

  // Once answered, the remaining steps change nothing.
  lemma Over(u: State, t: TxId, newId: nat)
    requires t !in u.txs
    ensures LoadBoth(u, t) == u && Next(u, DecideNow(t, newId)) == u && WriteAll(u, t) == u
    ensures Next(u, Commit(t)) == u && Next(u, Replay(t)) == u
  {
  }

  // A transaction waiting to answer from a claim loads, decides and writes nothing.
  lemma Waiting(s: State, u: State, t: TxId, req: Request, newId: nat)
    requires At(s, u, t, req, Conflicted)
    ensures LoadBoth(u, t) == u && Next(u, DecideNow(t, newId)) == u && WriteAll(u, t) == u && Next(u, Commit(t)) == u
  {
  }

  /**
   A request whose rows nobody holds is answered, whatever other transactions are open: by its steps alone,
   with the outcome and the store of the wrapper of IdempotencyService.dfy.
   */
  lemma FreeRequestsAreAnswered(s: State, t: TxId, req: Request, newId: nat)
    requires t !in s.txs && FreshId(s.store.db, req.op, newId) && AllFree(s, Needs(s.store.db, req.op, newId))
    requires req.scope.Some? ==> Free(s, ClaimKey(req.scope.value))
    ensures var u, (after, o) := Alone(s, t, req, newId), Answer(s.store, req, newId, false);
      u.store == after && Answered(s, u, t, req, o)
  {
    var u := Claim2(s, t, req);
    if req.scope.Some? && req.scope.value in s.store.claims {
      ClaimConflicts(s, t, req);
      Waiting(s, u, t, req, newId);
    } else {
      ClaimTaken(s, t, req);
      RowsLoaded(s, u, t, req, newId);
      LoadedIsAnswered(s, LoadBoth(u, t), t, req, newId);
    }
  }

  lemma LoadedIsAnswered(s: State, v: State, t: TxId, req: Request, newId: nat)
    requires FreshId(s.store.db, req.op, newId) && AllFree(s, Needs(s.store.db, req.op, newId))
    requires req.scope.Some? ==> req.scope.value !in s.store.claims
    requires v.store == s.store
    requires (DecideOn(s.store.db, req.op, newId).Err?
              && Answered(s, v, t, req, Failed(DecideOn(s.store.db, req.op, newId).error)))
          || (exists order, product :: Loaded(s, v, t, req, newId, order, product))
    ensures var u := Next(Next(WriteAll(Next(v, DecideNow(t, newId)), t), Commit(t)), Replay(t));
      var (after, o) := Answer(s.store, req, newId, false);
      u.store == after && Answered(s, u, t, req, o)
  {
    var w := Next(v, DecideNow(t, newId));
    if order, product :| Loaded(s, v, t, req, newId, order, product) {
      Decided(s, v, t, req, newId, order, product);
      if DecideOn(s.store.db, req.op, newId).Ok? {
        var pc := w.txs[t].pc;
        FewWrites(s.store.db, req.op, newId);
        WrittenAll(s, w, t, req, pc);
        Committed(s, WriteAll(w, t), t, req, pc.(todo := [], done := pc.todo, answer := Some(pc.resp)));
        Over(Next(WriteAll(w, t), Commit(t)), t, newId);
      } else {
        Over(w, t, newId);
      }
    } else {
      Over(v, t, newId);
    }
  }
}
