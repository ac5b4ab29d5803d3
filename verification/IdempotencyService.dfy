/**
 The wrapper around keyed requests as it is written: insert the claim, run the operation, store its
 response in the claim; roll all of it back when any part fails; answer from the claim when there is
 one. Idempotency.dfy takes the same wrapper apart into steps that interleave.
 */
module IdempotencyService {
  import opened Wrappers
  import opened Inventory
  import opened InventoryTransactions
  import opened InventoryService

  // The answer of one request that runs alone. `lost` tells that storing the response fails.
  function Answer(store: Store, req: Request, newId: nat, lost: bool): (Store, Outcome) {
    if req.scope.Some? && req.scope.value in store.claims then
      (store, FromClaim(store.claims[req.scope.value], req.payload))
    else
      match Exec(store.db, req.op, newId)
      case Err(e) => (store, Failed(e))
      case Ok((after, resp)) =>
        if req.scope.None? then (Store(after, store.claims), Done(resp))
        else if lost then (store, Internal)
        else (Store(after, store.claims[req.scope.value := Claim(req.payload, Some(resp))]), Done(resp))
  }

  function FromClaim(claim: Claim, payload: string): Outcome {
    if claim.payload != payload then DuplicateSubmit
    else if claim.response.None? then Internal
    else Replayed(claim.response.value)
  }

  /** A scope that is claimed is answered from its claim, and nothing is changed. */
  lemma ClaimedScopes(store: Store, req: Request, newId: nat, lost: bool)
    requires req.scope.Some? && req.scope.value in store.claims
    ensures var claim, (after, o) := store.claims[req.scope.value], Answer(store, req, newId, lost);
      && after == store
      && (claim.payload != req.payload <==> o == DuplicateSubmit)
      && (claim.payload == req.payload && claim.response.Some? ==> o == Replayed(claim.response.value))
      && (claim.payload == req.payload && claim.response.None? ==> o == Internal)
  {
  }

  /** One that is not claimed runs its operation, and claims the scope with the response when it succeeds. */
  lemma UnclaimedScopes(store: Store, req: Request, newId: nat, lost: bool)
    requires req.scope.Some? ==> req.scope.value !in store.claims
    ensures var r, (after, o) := Exec(store.db, req.op, newId), Answer(store, req, newId, lost);
      && (r.Err? ==> o == Failed(r.error) && after == store)
      && (r.Ok? && req.scope.Some? && lost ==> o == Internal && after == store)
      && (r.Ok? && !(req.scope.Some? && lost) ==>
            && o == Done(r.value.1) && after.db == r.value.0
            && after.claims == if req.scope.None? then store.claims
                               else store.claims[req.scope.value := Claim(req.payload, Some(r.value.1))])
  {
  }

  predicate Keyed(req: Request) { req.scope.Some? }

  // Retries of a request, each with its own fresh ids and failures.
  function Retries(store: Store, req: Request, tries: seq<(nat, bool)>): (Store, seq<Outcome>)
    decreases |tries|
  {
    if tries == [] then (store, [])
    else
      var (after, o) := Answer(store, req, tries[0].0, tries[0].1);
      var (final, os) := Retries(after, req, tries[1..]);
      (final, [o] + os)
  }

  /**
   However often a keyed request is retried, it takes effect at most once: the tries before the
   first success change nothing, and the tries after it change nothing and repeat its response.
   */
  lemma {:induction false} RetriesTakeEffectOnce(store: Store, req: Request, tries: seq<(nat, bool)>)
    requires Keyed(req) && req.scope.value !in store.claims
    ensures var (final, os) := Retries(store, req, tries);
      |os| == |tries| && (
        (final == store && forall k | 0 <= k < |os| :: os[k].Failed? || os[k].Internal?)
        || (exists n, resp :: 0 <= n < |os| && FirstSuccess(store, req, tries, os, final, n, resp)))
    decreases |tries|
  {
    if tries != [] {
      var (after, o) := Answer(store, req, tries[0].0, tries[0].1);
      var (final, os) := Retries(store, req, tries);
      var (_, rest) := Retries(after, req, tries[1..]);
      assert os == [o] + rest;
      if o.Done? {
        LaterTriesReplay(after, req, tries[1..], o.resp);
        assert FirstSuccess(store, req, tries, os, final, 0, o.resp);
      } else {
        RetriesTakeEffectOnce(store, req, tries[1..]);
        if n, resp :| 0 <= n < |rest| && FirstSuccess(store, req, tries[1..], rest, final, n, resp) {
          assert FirstSuccess(store, req, tries, os, final, n + 1, resp);
        }
      }
    }
  }

  // Try n did it: the state is that of the one operation, later tries repeat its response.
  predicate FirstSuccess(
      store: Store, req: Request, tries: seq<(nat, bool)>, os: seq<Outcome>, final: Store, n: nat, resp: Response)
    requires |os| == |tries| && n < |os|
  {
    && (final, Done(resp)) == Answer(store, req, tries[n].0, tries[n].1) && os[n] == Done(resp)
    && (forall k | 0 <= k < n :: os[k].Failed? || os[k].Internal?)
    && (forall k | n < k < |os| :: os[k] == Replayed(resp))
  }

  lemma {:induction false} LaterTriesReplay(store: Store, req: Request, tries: seq<(nat, bool)>, resp: Response)
    requires Keyed(req) && req.scope.value in store.claims
    requires store.claims[req.scope.value] == Claim(req.payload, Some(resp))
    ensures var (final, os) := Retries(store, req, tries);
      final == store && |os| == |tries| && forall k | 0 <= k < |os| :: os[k] == Replayed(resp)
    decreases |tries|
  {
    if tries != [] { LaterTriesReplay(store, req, tries[1..], resp); }
  }

  class Service {
    const tables: Tables
    var claims: map<Scope, Claim>

    function Snapshot(): Store
      reads this, tables
    { Store(tables.Snapshot(), claims) }

    constructor ()
      ensures fresh(tables) && claims == map[]
    {
      tables := new Tables();
      claims := map[];
    }

    method RunOperation(op: Op, newId: nat) returns (r: Result<Response, Error>)
      modifies tables
      ensures Follows(old(tables.Snapshot()), op, newId, tables.Snapshot(), r)
      ensures Keeps(old(tables.Snapshot()), op, newId, tables.Snapshot())
    {
      match op
      case CreateProduct(m, initial, verdict) => r := tables.Create(m, initial, verdict, newId);
      case UpdateProduct(p, m, fields, stock, verdict) => r := tables.Update(p, m, fields, stock, verdict);
      case SetShelf(p, m, on, verdict) => r := tables.ChangeStatus(p, m, on, verdict);
      case DeleteProduct(p, m, verdict) => r := tables.Delete(p, m, verdict);
      case AdjustStock(p, m, kind, q, all) => r := tables.Adjust(p, m, kind, q, all);
      case PlaceOrder(p, m) => r := tables.PlaceOrderFor(p, m, newId);
      case MoveOrder(o, m, to) => r := tables.Transition(o, m, to);
    }

    method Replay(req: Request) returns (o: Outcome)
      requires Keyed(req) && req.scope.value in claims
      ensures o == FromClaim(claims[req.scope.value], req.payload)
    {
      var record := claims[req.scope.value];
      if record.payload != req.payload { return DuplicateSubmit; }
      if record.response.None? { return Internal; }
      return Replayed(record.response.value);
    }

    // Back to the state at the start of the transaction.
    method Rollback(store: Store)
      modifies this, tables
      ensures Snapshot() == store
    {
      tables.products, tables.orders := store.db.products, store.db.orders;
      tables.movements, tables.events := store.db.movements, store.db.events;
      claims := store.claims;
    }

    method RunWithIdempotency(req: Request, newId: nat, lost: bool) returns (o: Outcome)
      modifies this, tables
      ensures (Snapshot(), o) == Answer(old(Snapshot()), req, newId, lost)
      ensures Keeps(old(tables.Snapshot()), req.op, newId, tables.Snapshot())
    {
      if req.scope.None? {
        var r := RunOperation(req.op, newId);
        return if r.Ok? then Done(r.value) else Failed(r.error);
      }
      var scope := req.scope.value;
      if scope in claims {
        o := Replay(req);
        return;
      }
      var before := Snapshot();
      claims := claims[scope := Claim(req.payload, None)];
      var r := RunOperation(req.op, newId);
      if r.Err? {
        Rollback(before);
        return Failed(r.error);
      }
      if lost {
        Rollback(before);
        return Internal;
      }
      claims := claims[scope := Claim(req.payload, Some(r.value))];
      assert claims == before.claims[scope := Claim(req.payload, Some(r.value))];
      return Done(r.value);
    }
  }
}
