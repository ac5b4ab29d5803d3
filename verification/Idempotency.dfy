/**
 Requests that carry an idempotency key take effect once per (key, operator, path), however often
 they are retried, whichever duplicates run at the same time, and wherever they roll back.
 */
module Idempotency {
  import opened Wrappers
  import opened Inventory
  import opened InventoryTransactions
  import opened InventorySerializability

  predicate SameScope(a: Entry, b: Entry) { a.req.scope.Some? && a.req.scope == b.req.scope }

  // Entry e was answered from the claim of the completed entry d.
  predicate AnsweredBy(e: Entry, d: Entry) {
    && SameScope(e, d) && d.outcome.Done?
    && match e.outcome
       case Replayed(resp) => resp == d.outcome.resp && e.req.payload == d.req.payload
       case DuplicateSubmit => e.req.payload != d.req.payload
       case _ => false
  }

  ghost predicate HasSource(log: seq<Entry>, j: nat)
    requires j < |log|
  {
    exists i :: 0 <= i < j && AnsweredBy(log[j], log[i])
  }

  ghost predicate LogOk(log: seq<Entry>) {
    && (forall i, j :: 0 <= i < j < |log| && log[i].outcome.Done? && log[j].outcome.Done? ==>
          !SameScope(log[i], log[j]))
    && (forall j :: 0 <= j < |log| && (log[j].outcome.Replayed? || log[j].outcome.DuplicateSubmit?) ==>
          HasSource(log, j))
    && (forall j :: 0 <= j < |log| ==> !log[j].outcome.Internal?)
  }

  // The entry that made a claim.
  predicate Made(e: Entry, sc: Scope, claim: Claim) {
    e.req.scope == Some(sc) && e.outcome.Done? && claim == Claim(e.req.payload, Some(e.outcome.resp))
  }

  // The claim table holds exactly the completed keyed requests, each with its response.
  ghost predicate ClaimsOk(claims: map<Scope, Claim>, log: seq<Entry>) {
    && (forall sc | sc in claims :: exists i :: 0 <= i < |log| && Made(log[i], sc, claims[sc]))
    && (forall i :: 0 <= i < |log| && log[i].outcome.Done? && log[i].req.scope.Some? ==>
          log[i].req.scope.value in claims && Made(log[i], log[i].req.scope.value, claims[log[i].req.scope.value]))
  }

  ghost predicate Once(s: State) { LogOk(s.log) && ClaimsOk(s.store.claims, s.log) }

  // Entries that ran no operation and read no claim.
  predicate Plain(o: Outcome) { o.Failed? || o.RolledBack? }

  lemma AppendAnswered(log: seq<Entry>, e: Entry, claims: map<Scope, Claim>)
    requires LogOk(log) && ClaimsOk(claims, log)
    requires Plain(e.outcome) || (exists i :: 0 <= i < |log| && AnsweredBy(e, log[i]))
    ensures LogOk(log + [e]) && ClaimsOk(claims, log + [e])
  {
    var l := log + [e];
    forall j | 0 <= j < |l| && (l[j].outcome.Replayed? || l[j].outcome.DuplicateSubmit?) ensures HasSource(l, j) {
      if j < |log| {
        assert HasSource(log, j);
        var i :| 0 <= i < j && AnsweredBy(log[j], log[i]);
        assert AnsweredBy(l[j], l[i]);
      } else {
        var i :| 0 <= i < |log| && AnsweredBy(e, log[i]);
        assert AnsweredBy(l[j], l[i]);
      }
    }
    forall sc | sc in claims ensures exists i :: 0 <= i < |l| && Made(l[i], sc, claims[sc]) {
      var i :| 0 <= i < |log| && Made(log[i], sc, claims[sc]);
      assert Made(l[i], sc, claims[sc]);
    }
  }

  lemma AppendDone(log: seq<Entry>, e: Entry, claims: map<Scope, Claim>)
    requires LogOk(log) && ClaimsOk(claims, log) && e.outcome.Done?
    requires e.req.scope.Some? ==> e.req.scope.value !in claims
    ensures LogOk(log + [e])
    ensures ClaimsOk(if e.req.scope.Some? then claims[e.req.scope.value := Claim(e.req.payload, Some(e.outcome.resp))]
                     else claims, log + [e])
  {
    var l := log + [e];
    var after := if e.req.scope.Some? then claims[e.req.scope.value := Claim(e.req.payload, Some(e.outcome.resp))]
                 else claims;
    forall j | 0 <= j < |l| && (l[j].outcome.Replayed? || l[j].outcome.DuplicateSubmit?) ensures HasSource(l, j) {
      assert HasSource(log, j);
      var i :| 0 <= i < j && AnsweredBy(log[j], log[i]);
      assert AnsweredBy(l[j], l[i]);
    }
    forall sc | sc in after ensures exists i :: 0 <= i < |l| && Made(l[i], sc, after[sc]) {
      if e.req.scope == Some(sc) {
        assert Made(l[|log|], sc, after[sc]);
      } else {
        var i :| 0 <= i < |log| && Made(log[i], sc, claims[sc]);
        assert Made(l[i], sc, after[sc]);
      }
    }
  }

  lemma ReplayOnce(s: State, t: TxId)
    requires Inv(s) && Once(s) && t in s.txs && s.txs[t].pc.Conflicted?
    ensures Once(End(s, t, 0, ReplayOutcome(s, s.txs[t].req)))
  {
    var req := s.txs[t].req;
    assert TxOk(s.store, s.txs[t]);
    var sc := req.scope.value;
    var i :| 0 <= i < |s.log| && Made(s.log[i], sc, s.store.claims[sc]);
    var e := Entry(req, 0, ReplayOutcome(s, req));
    assert AnsweredBy(e, s.log[i]);
    AppendAnswered(s.log, e, s.store.claims);
  }

  lemma PlainOnce(s: State, b: State)
    requires Once(s) && b.store == s.store
    requires b.log == s.log
          || (|b.log| == |s.log| + 1 && b.log == s.log + [b.log[|s.log|]] && Plain(b.log[|s.log|].outcome))
    ensures Once(b)
  {
    if b.log != s.log { AppendAnswered(s.log, b.log[|s.log|], s.store.claims); }
  }

  lemma CommitOnce(s: State, t: TxId)
    requires Inv(s) && Once(s) && t in s.txs && s.txs[t].pc.Writing?
    ensures Once(CommitStep(s, t))
  {
    var req, pc := s.txs[t].req, s.txs[t].pc;
    assert TxOk(s.store, s.txs[t]);
    if pc.todo == [] && pc.answer.Some? {
      AppendDone(s.log, Entry(req, pc.newId, Done(pc.resp)), s.store.claims);
    }
  }

  lemma NextOnce(s: State, a: Step)
    requires Inv(s) && Once(s)
    ensures Once(Next(s, a))
  {
    if !a.Open? && a.t in s.txs {
      var t := a.t;
      match a
      case Load(_) => PlainOnce(s, LoadStep(s, t));
      case DecideNow(_, newId) => if s.txs[t].pc.HoldsRows? { PlainOnce(s, DecideStep(s, t, newId)); }
      case Commit(_) => if s.txs[t].pc.Writing? { CommitOnce(s, t); }
      case Replay(_) => if s.txs[t].pc.Conflicted? { ReplayOnce(s, t); }
      case Rollback(_) => PlainOnce(s, End(s, t, 0, RolledBack));
      case _ =>
    }
  }

  lemma {:induction false} RunOnce(s: State, steps: seq<Step>)
    requires Inv(s) && Once(s)
    ensures Once(Run(s, steps))
    decreases |steps|
  {
    if steps != [] {
      NextInv(s, steps[0]);
      NextOnce(s, steps[0]);
      RunOnce(Next(s, steps[0]), steps[1..]);
    }
  }

  // ----- main results ----------------------------------------------------------------------------

  predicate Succeeded(e: Entry) { e.outcome.Done? || e.outcome.Replayed? }

  ghost predicate SucceededBefore(log: seq<Entry>, e: Entry) {
    exists i :: 0 <= i < |log| && Succeeded(log[i]) && SameScope(log[i], e)
  }

  // The operations of the successful requests, keeping of each scope the first one only.
  ghost function FirstEffects(log: seq<Entry>): seq<(Op, nat)> {
    if log == [] then []
    else
      var before, last := log[..|log| - 1], log[|log| - 1];
      FirstEffects(before)
      + if Succeeded(last) && !SucceededBefore(before, last) then [(last.req.op, last.newId)] else []
  }

  lemma LogOkPrefix(log: seq<Entry>)
    requires LogOk(log) && log != []
    ensures LogOk(log[..|log| - 1])
  {
    var before := log[..|log| - 1];
    forall j | 0 <= j < |before| && (before[j].outcome.Replayed? || before[j].outcome.DuplicateSubmit?)
      ensures HasSource(before, j)
    {
      assert HasSource(log, j);
      var i :| 0 <= i < j && AnsweredBy(log[j], log[i]);
      assert AnsweredBy(before[j], before[i]);
    }
  }

  // A completed keyed request is the first success of its scope.
  lemma DoneIsFirst(log: seq<Entry>, n: nat)
    requires LogOk(log) && n < |log| && log[n].outcome.Done?
    ensures !SucceededBefore(log[..n], log[n])
  {
    forall i | 0 <= i < n && Succeeded(log[i]) ensures !SameScope(log[i], log[n]) {
      if log[i].outcome.Replayed? {
        assert HasSource(log, i);
        var k :| 0 <= k < i && AnsweredBy(log[i], log[k]);
        assert !SameScope(log[k], log[n]);
      }
    }
  }

  lemma {:induction false} FirstEffectsAreEffects(log: seq<Entry>)
    requires LogOk(log)
    ensures FirstEffects(log) == Effects(log)
  {
    if log != [] {
      var n := |log| - 1;
      var before, last := log[..n], log[n];
      LogOkPrefix(log);
      FirstEffectsAreEffects(before);
      if last.outcome.Replayed? {
        assert HasSource(log, n);
        var i :| 0 <= i < n && AnsweredBy(log[n], log[i]);
        assert Succeeded(before[i]) && SameScope(before[i], last);
      } else if last.outcome.Done? {
        DoneIsFirst(log, n);
      }
    }
  }

  /**
   For any interleaving of keyed requests with retries, duplicates in flight, rollbacks and crashes,
   the database is the one produced by the successful requests when only the first success of each
   scope is run, each in one piece.
   */
  lemma ExactlyOnce(db: Db, steps: seq<Step>)
    ensures var s := Run(Init(db), steps);
      s.store.db == ExecAll(db, FirstEffects(s.log)) && AllFresh(db, FirstEffects(s.log))
  {
    InterleavingsAreSerial(db, steps);
    RunOnce(Init(db), steps);
    FirstEffectsAreEffects(Run(Init(db), steps).log);
  }

  /**
   Every replay with the same payload returns the response of the one completed request of its
   scope, a different payload is refused, and a claim conflict never ends in an internal error: the
   conflicting claim is committed and holds a response.
   */
  lemma ReplaysReturnTheFirstResponse(db: Db, steps: seq<Step>)
    ensures LogOk(Run(Init(db), steps).log)
  {
    RunSerial(Init(db), steps, db);
    RunOnce(Init(db), steps);
  }

  // A request that did not complete leaves no claim: every claim was made by a completed request.
  lemma FailuresLeaveNoClaim(db: Db, steps: seq<Step>)
    ensures ClaimsOk(Run(Init(db), steps).store.claims, Run(Init(db), steps).log)
    ensures forall sc | sc in Run(Init(db), steps).store.claims :: Run(Init(db), steps).store.claims[sc].response.Some?
  {
    RunOnce(Init(db), steps);
    var s := Run(Init(db), steps);
    forall sc | sc in s.store.claims ensures s.store.claims[sc].response.Some? {
      var i :| 0 <= i < |s.log| && Made(s.log[i], sc, s.store.claims[sc]);
    }
  }

  // ----- progress ----------------------------------------------------------------------------------

  // The step a transaction waits to take, for some choice of a new id.
  function NextStepOf(tx: Tx, t: TxId, newId: nat): Step {
    match tx.pc
    case Opened => TakeClaim(t)
    case Claimed => Load(t)
    case HoldsOrder(_) => Load(t)
    case HoldsRows(_, _) => DecideNow(t, newId)
    case Writing(_, _, _, todo, _, _, answer) => if todo == [] && answer.Some? then Commit(t) else WriteNext(t)
    case Conflicted => Replay(t)
  }

  // Claims are taken before orders, orders before products: the highest holder waits for nobody.
  function Rank(pc: Pc): nat {
    match pc
    case Opened => 0
    case Claimed => 1
    case HoldsOrder(_) => 2
    case HoldsRows(_, _) => 3
    case Writing(_, _, _, _, _, _, _) => 3
    case Conflicted => 3
  }

  lemma UnusedId(used: set<nat>) returns (n: nat)
    ensures n !in used
  {
    n := 0;
    var left := used;
    while left != {}
      invariant forall m | m in used && m !in left :: m < n
    {
      var m :| m in left;
      left := left - {m};
      n := if m < n then n else m + 1;
    }
  }

  lemma Highest(s: State) returns (t: TxId)
    requires s.txs != map[]
    ensures t in s.txs && forall u | u in s.txs :: Rank(s.txs[u].pc) <= Rank(s.txs[t].pc)
  {
    t :| t in s.txs;
    var left := s.txs.Keys - {t};
    while left != {}
      invariant t in s.txs && left <= s.txs.Keys
      invariant forall u | u in s.txs && u !in left :: Rank(s.txs[u].pc) <= Rank(s.txs[t].pc)
    {
      var u :| u in left;
      left := left - {u};
      if Rank(s.txs[t].pc) < Rank(s.txs[u].pc) { t := u; }
    }
  }

  // A lock that is taken is held by a transaction that has come further.
  lemma HolderIsHigher(s: State, l: Lock) returns (u: TxId)
    requires Inv(s) && !Free(s, l)
    ensures u in s.txs && l in Holds(s.txs[u])
    ensures l.ClaimKey? ==> Rank(s.txs[u].pc) >= 1
    ensures l.OrderRow? ==> Rank(s.txs[u].pc) >= 2
    ensures l.ProductRow? ==> Rank(s.txs[u].pc) >= 3
  {
    u := s.locks[l];
    assert l in HeldBy(s.txs)[u];
  }

  lemma HighestMoves(s: State, t: TxId, newId: nat)
    requires Inv(s) && t in s.txs && forall u | u in s.txs :: Rank(s.txs[u].pc) <= Rank(s.txs[t].pc)
    requires newId !in s.store.db.products && newId !in s.store.db.orders
    requires Free(s, ProductRow(newId)) && Free(s, OrderRow(newId))
    ensures Next(s, NextStepOf(s.txs[t], t, newId)) != s
  {
    var tx := s.txs[t];
    var op := tx.req.op;
    assert TxOk(s.store, tx);
    match tx.pc
    case Opened =>
      if tx.req.scope.Some? && !Free(s, ClaimKey(tx.req.scope.value)) {
        var u := HolderIsHigher(s, ClaimKey(tx.req.scope.value));
      }
    case Claimed =>
      if op.MoveOrder? { if !Free(s, OrderRow(op.order)) { var u := HolderIsHigher(s, OrderRow(op.order)); } }
      else if !op.CreateProduct? {
        if !Free(s, ProductRow(op.product)) { var u := HolderIsHigher(s, ProductRow(op.product)); }
      }
    case HoldsOrder(order) =>
      if !Free(s, ProductRow(order.product)) { var u := HolderIsHigher(s, ProductRow(order.product)); }
    case HoldsRows(_, _) => assert NewLocks(op, newId) <= {ProductRow(newId), OrderRow(newId)};
    case _ =>
  }

  // The locking order admits no deadlock: while transactions are open, one of them can go on.
  lemma NoDeadlock(db: Db, steps: seq<Step>)
    requires Run(Init(db), steps).txs != map[]
    ensures var s := Run(Init(db), steps);
      exists t, newId :: t in s.txs && Next(s, NextStepOf(s.txs[t], t, newId)) != s
  {
    RunSerial(Init(db), steps, db);
    var s := Run(Init(db), steps);
    var t := Highest(s);
    var taken := set l | l in s.locks :: match l case ProductRow(p) => p case OrderRow(o) => o case ClaimKey(_) => 0;
    var newId := UnusedId(s.store.db.products.Keys + s.store.db.orders.Keys + taken);
    assert Free(s, ProductRow(newId)) && Free(s, OrderRow(newId));
    HighestMoves(s, t, newId);
  }
}
