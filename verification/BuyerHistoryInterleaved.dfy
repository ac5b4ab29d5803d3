/**
 Views and merges of histories side by side. Neither takes a lock on what it reads: a request reads
 its rows at one moment and later writes, in one transaction, what it computed from them. So a view
 can be counted twice; this file says exactly which writes keep the counts honest.
 */
module BuyerHistoryInterleaved {
  import opened Wrappers
  import opened MapSums
  import opened BuyerHistory
  import opened BuyerHistoryProofs

  // ----- the write of a view -----------------------------------------------------------------------

  // The write adds a view: it is no duplicate of what was read, and the database takes it. Creating a
  // row that another request created meanwhile violates the unique index and changes nothing.
  predicate ViewCounts(rows: Rows, k: Key, at: int, seen: Option<Row>) {
    match seen
    case None => k !in rows
    case Some(row) => k in rows && !(row.active && at - row.last < DEDUP)
  }

  // The columns named in the update take what was computed; the others keep what is stored now.
  function WriteView(rows: Rows, k: Key, merchant: MerchantId, at: int, seen: Option<Row>): Rows {
    if !ViewCounts(rows, k, at, seen) then rows
    else
      match seen
      case None => rows[k := Row(merchant, at, at, 1, true, None)]
      case Some(row) =>
        rows[k := rows[k].(active := true, merchant := merchant, last := at, target := None,
                           first := if row.active then rows[k].first else at,
                           count := if row.active then row.count + 1 else 1)]
  }

  // ----- the write of a merge ----------------------------------------------------------------------

  // What a merge has read of one product: the device's row and the buyer's, if there is one.
  datatype Pair = Pair(src: Row, dst: Option<Row>)

  type Plan = map<ProductId, Pair>

  function ReadMerge(rows: Rows, d: DeviceId, b: BuyerId): Plan {
    map p | p in Sources(rows, d) :: Pair(rows[(Device(d), p)], Find(rows, (Buyer(b), p)))
  }

  // The transaction goes through: no row it wants to create exists by now.
  predicate Fits(rows: Rows, d: DeviceId, b: BuyerId, plan: Plan) {
    forall p | p in plan :: (Device(d), p) in rows && (plan[p].dst.Some? <==> (Buyer(b), p) in rows)
  }

  function BuyerRow(rows: Rows, to: Key, pair: Pair): Row
    requires pair.dst.Some? ==> to in rows
  {
    match pair.dst
    case None => Combined(None, pair.src)
    case Some(seen) =>
      rows[to].(active := true, merchant := pair.src.merchant, first := Min(pair.src.first, seen.first),
                last := Max(pair.src.last, seen.last), count := seen.count + pair.src.count)
  }

  function WriteMerge(rows: Rows, d: DeviceId, b: BuyerId, plan: Plan): Rows {
    if !Fits(rows, d, b, plan) then rows
    else
      map k | k in rows.Keys + (set p | p in plan :: (Buyer(b), p)) ::
        if k.0 == Buyer(b) && k.1 in plan then BuyerRow(rows, k, plan[k.1])
        else if k.0 == Device(d) && k.1 in plan then rows[k].(active := false, target := Some(b))
        else rows[k]
  }

  lemma WholeViewIsView(rows: Rows, k: Key, merchant: MerchantId, at: int)
    ensures WriteView(rows, k, merchant, at, Find(rows, k)) == View(rows, k, merchant, at)
  {
  }

  lemma WholeMergeIsMerge(rows: Rows, d: DeviceId, b: BuyerId)
    ensures WriteMerge(rows, d, b, ReadMerge(rows, d, b)) == Merge(rows, d, b)
  {
    var plan := ReadMerge(rows, d, b);
    assert plan.Keys == Sources(rows, d) && Fits(rows, d, b, plan);
    var x, y := WriteMerge(rows, d, b, plan), Merge(rows, d, b);
    assert x.Keys == y.Keys;
    forall k | k in x ensures x[k] == y[k] {
      if k.0 == Buyer(b) && k.1 in plan { assert plan[k.1].dst == Find(rows, k); }
    }
  }

  /** A request that reads and writes in one piece is the request of the sequential model. */
  lemma WholeRequests(rows: Rows, k: Key, merchant: MerchantId, at: int, d: DeviceId, b: BuyerId)
    ensures WriteView(rows, k, merchant, at, Find(rows, k)) == View(rows, k, merchant, at)
    ensures WriteMerge(rows, d, b, ReadMerge(rows, d, b)) == Merge(rows, d, b)
  {
    WholeViewIsView(rows, k, merchant, at);
    WholeMergeIsMerge(rows, d, b);
  }

  // ----- when a write is honest --------------------------------------------------------------------

  function WeightAt(rows: Rows, k: Key): int { if k in rows then Weight(rows[k]) else 0 }

  // The count that was read is still in the row.
  predicate ViewHonest(rows: Rows, k: Key, seen: Option<Row>) {
    seen.None? || !seen.value.active || seen.value.count <= WeightAt(rows, k)
  }

  // The counts that were read are still in the two rows.
  predicate MergeHonest(rows: Rows, d: DeviceId, b: BuyerId, p: ProductId, pair: Pair) {
    (if pair.dst.Some? then pair.dst.value.count else 0) + pair.src.count
      <= WeightAt(rows, (Device(d), p)) + WeightAt(rows, (Buyer(b), p))
  }

  predicate PlanHonest(rows: Rows, d: DeviceId, b: BuyerId, plan: Plan) {
    forall p | p in plan :: MergeHonest(rows, d, b, p, plan[p])
  }

  lemma ViewHolds(rows: Rows, k: Key, m: MerchantId, at: int, seen: Option<Row>, p: ProductId)
    requires Inv(rows) && ViewCounts(rows, k, at, seen)
    ensures Held(WriteView(rows, k, m, at, seen), p) - Held(rows, p)
         == if k.1 != p then 0
            else (if seen.Some? && seen.value.active then seen.value.count + 1 else 1) - WeightAt(rows, k)
  {
    HeldUpdate(rows, k, WriteView(rows, k, m, at, seen)[k], p);
  }

  /** The write of a view adds at most one view exactly when the count it read is still there. */
  lemma ViewAddsOneIffHonest(rows: Rows, k: Key, m: MerchantId, at: int, seen: Option<Row>)
    requires Inv(rows) && ViewCounts(rows, k, at, seen)
    ensures (forall p :: Held(WriteView(rows, k, m, at, seen), p) <= Held(rows, p) + if k.1 == p then 1 else 0)
       <==> ViewHonest(rows, k, seen)
  {
    assert WeightAt(rows, k) >= 0;
    ViewHolds(rows, k, m, at, seen, k.1);
    forall p: ProductId | p != k.1 ensures Held(WriteView(rows, k, m, at, seen), p) == Held(rows, p) {
      ViewHolds(rows, k, m, at, seen, p);
    }
  }

  lemma MergeHeldBy(rows: Rows, d: DeviceId, b: BuyerId, plan: Plan, p: ProductId)
    requires Inv(rows) && Fits(rows, d, b, plan)
    ensures Held(WriteMerge(rows, d, b, plan), p) - Held(rows, p)
         == if p !in plan then 0
            else (if plan[p].dst.Some? then plan[p].dst.value.count else 0) + plan[p].src.count
                 - WeightAt(rows, (Device(d), p)) - WeightAt(rows, (Buyer(b), p))
  {
    var after := WriteMerge(rows, d, b, plan);
    var from, to: Key := (Device(d), p), (Buyer(b), p);
    if p in plan {
      var mine := ProductRows(rows, p);
      var buyer, device := BuyerRow(rows, to, plan[p]), rows[from].(active := false, target := Some(b));
      assert ProductRows(after, p) == mine[to := buyer][from := device];
      SumUpdate(mine, Weight, to, buyer);
      SumUpdate(mine[to := buyer], Weight, from, device);
    } else {
      assert ProductRows(after, p) == ProductRows(rows, p);
    }
  }

  /** The write of a merge adds no view exactly when, for each product, the counts it read are there. */
  lemma MergeAddsNoneIffHonest(rows: Rows, d: DeviceId, b: BuyerId, plan: Plan)
    requires Inv(rows) && Fits(rows, d, b, plan)
    ensures (forall p :: Held(WriteMerge(rows, d, b, plan), p) <= Held(rows, p)) <==> PlanHonest(rows, d, b, plan)
  {
    forall p: ProductId
      ensures Held(WriteMerge(rows, d, b, plan), p) <= Held(rows, p)
         <==> (p in plan ==> MergeHonest(rows, d, b, p, plan[p]))
    {
      MergeHeldBy(rows, d, b, plan, p);
    }
  }

  /** Rows nobody wrote since they were read make an honest write. */
  lemma UnchangedRowsAreHonest(rows: Rows, k: Key, d: DeviceId, b: BuyerId)
    requires Inv(rows)
    ensures ViewHonest(rows, k, Find(rows, k)) && PlanHonest(rows, d, b, ReadMerge(rows, d, b))
  {
  }

  // ----- runs --------------------------------------------------------------------------------------

  datatype Pending =
    | PendingView(key: Key, merchant: MerchantId, at: int, seen: Option<Row>)
    | PendingMerge(device: DeviceId, buyer: BuyerId, plan: Plan)

  datatype State = State(rows: Rows, open: map<nat, Pending>)

  datatype Step =
    | StartView(t: nat, k: Key, m: MerchantId, viewedAt: int)
    | StartMerge(t: nat, d: DeviceId, b: BuyerId)
    | Write(t: nat)
    | GiveUp(t: nat)
    | DeleteNow(owner: Owner, shop: MerchantId, product: Option<ProductId>)

  function Written(rows: Rows, r: Pending): Rows {
    match r
    case PendingView(k, m, at, seen) => WriteView(rows, k, m, at, seen)
    case PendingMerge(d, b, plan) => WriteMerge(rows, d, b, plan)
  }

  function NextState(s: State, a: Step): State {
    match a
    case StartView(t, k, m, at) =>
      if t in s.open then s else s.(open := s.open[t := PendingView(k, m, at, Find(s.rows, k))])
    case StartMerge(t, d, b) =>
      if t in s.open then s else s.(open := s.open[t := PendingMerge(d, b, ReadMerge(s.rows, d, b))])
    case Write(t) => if t in s.open then State(Written(s.rows, s.open[t]), s.open - {t}) else s
    case GiveUp(t) => s.(open := s.open - {t})
    case DeleteNow(owner, shop, product) => s.(rows := Delete(s.rows, owner, shop, product))
  }

  function RunSteps(s: State, steps: seq<Step>): State
    decreases |steps|
  {
    if steps == [] then s else RunSteps(NextState(s, steps[0]), steps[1..])
  }

  // The views a step adds to a product that are no duplicates.
  function Adds(s: State, a: Step, p: ProductId): nat {
    if a.Write? && a.t in s.open && s.open[a.t].PendingView? && s.open[a.t].key.1 == p
       && ViewCounts(s.rows, s.open[a.t].key, s.open[a.t].at, s.open[a.t].seen) then 1 else 0
  }

  function Added(s: State, steps: seq<Step>, p: ProductId): nat
    decreases |steps|
  {
    if steps == [] then 0 else Adds(s, steps[0], p) + Added(NextState(s, steps[0]), steps[1..], p)
  }

  // A write that goes through finds what it read.
  predicate Honest(s: State, a: Step) {
    a.Write? && a.t in s.open ==>
      match s.open[a.t]
      case PendingView(k, _, at, seen) => ViewCounts(s.rows, k, at, seen) ==> ViewHonest(s.rows, k, seen)
      case PendingMerge(d, b, plan) => Fits(s.rows, d, b, plan) ==> PlanHonest(s.rows, d, b, plan)
  }

  predicate AllHonest(s: State, steps: seq<Step>)
    decreases |steps|
  {
    steps == [] || (Honest(s, steps[0]) && AllHonest(NextState(s, steps[0]), steps[1..]))
  }

  // A step adds no more to the counts than the views it adds.
  ghost predicate Covered(s: State, a: Step) {
    forall p :: Held(NextState(s, a).rows, p) <= Held(s.rows, p) + Adds(s, a, p)
  }

  ghost predicate AllCovered(s: State, steps: seq<Step>)
    decreases |steps|
  {
    steps == [] || (Covered(s, steps[0]) && AllCovered(NextState(s, steps[0]), steps[1..]))
  }

  // What was read has views in it.
  predicate PendingOk(r: Pending) {
    match r
    case PendingView(_, _, _, seen) => seen.Some? ==> seen.value.count >= 1
    case PendingMerge(_, _, plan) =>
      forall p | p in plan :: plan[p].src.count >= 1 && (plan[p].dst.Some? ==> plan[p].dst.value.count >= 1)
  }

  ghost predicate StateOk(s: State) { Inv(s.rows) && forall t | t in s.open :: PendingOk(s.open[t]) }

  lemma WrittenOk(rows: Rows, r: Pending)
    requires Inv(rows) && PendingOk(r)
    ensures Inv(Written(rows, r))
  {
  }

  lemma NextOk(s: State, a: Step)
    requires StateOk(s)
    ensures StateOk(NextState(s, a))
  {
    match a
    case Write(t) => if t in s.open { WrittenOk(s.rows, s.open[t]); }
    case _ =>
  }

  lemma DeleteHolds(rows: Rows, owner: Owner, shop: MerchantId, product: Option<ProductId>, p: ProductId)
    ensures Held(Delete(rows, owner, shop, product), p) <= Held(rows, p)
  {
    SumAtMost(ProductRows(Delete(rows, owner, shop, product), p), ProductRows(rows, p), Weight, Weight);
  }

  lemma CoveredIffHonest(s: State, a: Step)
    requires StateOk(s)
    ensures Covered(s, a) <==> Honest(s, a)
  {
    match a
    case Write(t) => if t in s.open { WriteCoveredIffHonest(s, t); }
    case DeleteNow(owner, shop, product) =>
      forall p: ProductId ensures Held(NextState(s, a).rows, p) <= Held(s.rows, p) {
        DeleteHolds(s.rows, owner, shop, product, p);
      }
    case _ =>
  }

  lemma WriteCoveredIffHonest(s: State, t: nat)
    requires StateOk(s) && t in s.open
    ensures Covered(s, Write(t)) <==> Honest(s, Write(t))
  {
    match s.open[t]
    case PendingView(k, m, at, seen) =>
      if ViewCounts(s.rows, k, at, seen) { ViewAddsOneIffHonest(s.rows, k, m, at, seen); }
    case PendingMerge(d, b, plan) =>
      if Fits(s.rows, d, b, plan) { MergeAddsNoneIffHonest(s.rows, d, b, plan); }
  }

  /** In a run of interleaved requests every write adds only its own view, if and only if all are honest. */
  lemma {:induction false} RunCoveredIffHonest(s: State, steps: seq<Step>)
    requires StateOk(s)
    ensures AllCovered(s, steps) <==> AllHonest(s, steps)
    decreases |steps|
  {
    if steps != [] {
      NextOk(s, steps[0]);
      CoveredIffHonest(s, steps[0]);
      RunCoveredIffHonest(NextState(s, steps[0]), steps[1..]);
    }
  }

  lemma {:induction false} CoveredRunHolds(s: State, steps: seq<Step>, p: ProductId)
    requires StateOk(s) && AllCovered(s, steps)
    ensures StateOk(RunSteps(s, steps)) && Held(RunSteps(s, steps).rows, p) <= Held(s.rows, p) + Added(s, steps, p)
    decreases |steps|
  {
    if steps != [] {
      NextOk(s, steps[0]);
      assert Covered(s, steps[0]);
      CoveredRunHolds(NextState(s, steps[0]), steps[1..], p);
    }
  }

  const EMPTY := State(map[], map[])

  /** In every interleaved run whose writes are honest no view is counted twice. */
  lemma NoViewIsCountedTwiceIfHonest(steps: seq<Step>, p: ProductId)
    requires AllHonest(EMPTY, steps)
    ensures ActiveViews(RunSteps(EMPTY, steps).rows, p) <= Added(EMPTY, steps, p)
  {
    RunCoveredIffHonest(EMPTY, steps);
    CoveredRunHolds(EMPTY, steps, p);
    assert ProductRows(map[], p) == map[];
    var rows := ProductRows(RunSteps(EMPTY, steps).rows, p);
    SumAtMost(rows, rows, Shown, Weight);
  }

  // ----- the interleavings that are not ------------------------------------------------------------

  /** A merge inside a view: what the device handed over is counted once more with the view. */
  lemma MergeInsideAView(rows: Rows, d: DeviceId, b: BuyerId, p: ProductId, m: MerchantId, at: int)
    requires Inv(rows) && IsSource(rows, d, p) && at - rows[(Device(d), p)].last >= DEDUP
    ensures var from: Key := (Device(d), p);
      Held(WriteView(Merge(rows, d, b), from, m, at, Some(rows[from])), p) == Held(rows, p) + 1 + rows[from].count
  {
    var from: Key := (Device(d), p);
    MergeHolds(rows, d, b, Sources(rows, d), p);
    StepKeepsInv(rows, MergeEvent(d, b));
    ViewHolds(Merge(rows, d, b), from, m, at, Some(rows[from]), p);
  }

  /** Two merges of one device that both read before either writes: both buyers get its views. */
  lemma MergeInsideAMerge(rows: Rows, d: DeviceId, b: BuyerId, c: BuyerId, p: ProductId)
    requires Inv(rows) && IsSource(rows, d, p) && b != c
    ensures Held(WriteMerge(Merge(rows, d, b), d, c, ReadMerge(rows, d, c)), p)
         == Held(rows, p) + rows[(Device(d), p)].count
  {
    var plan, after := ReadMerge(rows, d, c), Merge(rows, d, b);
    MergeHolds(rows, d, b, Sources(rows, d), p);
    StepKeepsInv(rows, MergeEvent(d, b));
    StillFits(rows, d, b, c);
    MergeHeldBy(after, d, c, plan, p);
  }

  lemma StillFits(rows: Rows, d: DeviceId, b: BuyerId, c: BuyerId)
    requires b != c
    ensures Fits(Merge(rows, d, b), d, c, ReadMerge(rows, d, c))
    ensures forall q | q in Sources(rows, d) ::
      && Find(Merge(rows, d, b), (Buyer(c), q)) == Find(rows, (Buyer(c), q))
      && (Device(d), q) in Merge(rows, d, b) && Merge(rows, d, b)[(Device(d), q)].target == Some(b)
  {
  }

  /** A stale view over a row that was deleted and viewed anew brings the deleted views back. */
  lemma RestartInsideAView(rows: Rows, k: Key, shop: MerchantId, m: MerchantId, at: int, again: int)
    requires Inv(rows) && k in rows && rows[k].active && rows[k].merchant == shop && at - rows[k].last >= DEDUP
    ensures var fresh_ := View(Delete(rows, k.0, shop, None), k, m, again);
      Held(WriteView(fresh_, k, m, at, Some(rows[k])), k.1) == Held(fresh_, k.1) + rows[k].count
  {
    StepKeepsInv(rows, DeleteEvent(k.0, shop, None));
    var fresh_ := View(Delete(rows, k.0, shop, None), k, m, again);
    StepKeepsInv(Delete(rows, k.0, shop, None), ViewEvent(k, m, again));
    ViewHolds(fresh_, k, m, at, Some(rows[k]), k.1);
  }

  // One view by the device, then a second one with a merge between its read and its write.
  const GUEST: Key := (Device("d"), 0)
  const MEMBER: Key := (Buyer(0), 0)
  const SEEN := Row(0, 0, 0, 1, true, None)

  function Raced(): Rows { WriteView(Merge(map[GUEST := SEEN], "d", 0), GUEST, 0, DEDUP, Some(SEEN)) }

  lemma RacedRows()
    ensures Raced() == map[MEMBER := SEEN, GUEST := Row(0, 0, DEDUP, 2, true, None)]
  {
    var start: Rows := map[GUEST := SEEN];
    assert Sources(start, "d") == {0} by { assert IsSource(start, "d", 0); }
    assert Merge(start, "d", 0) == map[MEMBER := SEEN, GUEST := SEEN.(active := false, target := Some(0))];
  }

  /** So two views can be shown as three. */
  lemma MergeInsideAViewCountsTwice()
    ensures View(map[], GUEST, 0, 0) == map[GUEST := SEEN]
    ensures CountedViews(map[], [ViewEvent(GUEST, 0, 0), ViewEvent(GUEST, 0, DEDUP)], 0) == 2
    ensures ActiveViews(Raced(), 0) == 3
  {
    RacedRows();
    var none: Rows := map[];
    var final := Row(0, 0, DEDUP, 2, true, None);
    assert Raced() == none[MEMBER := SEEN][GUEST := final] && ProductRows(Raced(), 0) == Raced();
    SumUpdate(none, Shown, MEMBER, SEEN);
    SumUpdate(none[MEMBER := SEEN], Shown, GUEST, final);
    var events := [ViewEvent(GUEST, 0, 0), ViewEvent(GUEST, 0, DEDUP)];
    assert events[1..] == [ViewEvent(GUEST, 0, DEDUP)] && events[1..][1..] == [];
    assert Counts(none, events[0], 0) == 1 && Counts(BuyerHistoryProofs.Step(none, events[0]), events[1], 0) == 1;
    var one := BuyerHistoryProofs.Step(none, events[0]);
    assert CountedViews(one, events[1..], 0)
        == Counts(one, events[1..][0], 0) + CountedViews(BuyerHistoryProofs.Step(one, events[1..][0]), [], 0);
  }
}
