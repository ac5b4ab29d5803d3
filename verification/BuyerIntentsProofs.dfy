/**
 What holds while the uniqueness migration of buyer intents runs, stops, and is rerun beside the
 requests that create, contact and close intents.
 */
module BuyerIntentsProofs {
  import opened Wrappers
  import opened BuyerIntents

  // ----- the invariant -----------------------------------------------------------------------------

  predicate Known(schema: Schema) { schema == LEGACY || schema == MARKED || schema == BOTH || schema == FINAL }

  ghost predicate RowsOk(rows: map<IntentId, Intent>, schema: Schema) {
    && (forall k | k in rows :: ValidState(rows[k]) && rows[k] == Generated(rows[k], schema))
    && (schema.legacy ==> NoClash(rows, ClashLegacy))
    && (schema.open ==> NoClash(rows, ClashOpen))
  }

  ghost predicate TableOk(t: Table) { Known(t.schema) && RowsOk(t.rows, t.schema) }

  // The schema only moves forward.
  predicate Forward(a: Schema, b: Schema) { (a.marker ==> b.marker) && (a.open ==> b.open) && (b.legacy ==> a.legacy) }

  predicate PcOk(schema: Schema, pc: Pc) {
    match pc
    case CountInvalid(seen) => Forward(seen, schema)
    case CountDuplicates(seen) => Forward(seen, schema)
    case RunAddMarker(seen) => Forward(seen, schema)
    case CheckMarker(seen) => Forward(seen, schema) && schema.marker
    case RunAddKey(seen) => Forward(seen, schema) && schema.marker
    case CheckKey(seen) => Forward(seen, schema) && schema.open
    case RunDropLegacy => schema.open
    case FinalInvalid => schema == FINAL
    case FinalDuplicates => schema == FINAL
    case Done => schema == FINAL
    case _ => true
  }

  ghost predicate Inv(s: State) { TableOk(s.table) && forall m | m in s.runs :: PcOk(s.table.schema, s.runs[m]) }

  /** A buyer has at most one open intent for a product, and open means not closed. */
  ghost predicate OneOpenPerPair(t: Table) {
    && (forall k | k in t.rows :: t.rows[k].isOpen <==> t.rows[k].status == New || t.rows[k].status == Contacted)
    && (forall i, j | i in t.rows && j in t.rows && i != j && t.rows[i].isOpen && t.rows[j].isOpen ::
          t.rows[i].buyer != t.rows[j].buyer || t.rows[i].product != t.rows[j].product)
  }

  lemma OkIsUnique(t: Table)
    requires TableOk(t)
    ensures OneOpenPerPair(t) && !SomeInvalid(t) && !SomeDuplicate(t)
  {
    forall i, j | i in t.rows && j in t.rows && i != j && t.rows[i].isOpen && t.rows[j].isOpen
      ensures t.rows[i].buyer != t.rows[j].buyer || t.rows[i].product != t.rows[j].product
    {
      assert !(t.schema.legacy && ClashLegacy(t.rows[i], t.rows[j]));
      assert !(t.schema.open && ClashOpen(t.rows[i], t.rows[j]));
    }
  }

  lemma WriteOk(t: Table, id: IntentId, row: Intent)
    requires TableOk(t) && ValidState(row) && Write(t, id, row).Some?
    ensures TableOk(Write(t, id, row).value)
  {
    var stored, after := Generated(row, t.schema), Write(t, id, row).value;
    forall i, j | i in after.rows && j in after.rows && i != j
      ensures t.schema.legacy ==> !ClashLegacy(after.rows[i], after.rows[j])
      ensures t.schema.open ==> !ClashOpen(after.rows[i], after.rows[j])
    {
      assert i != id ==> after.rows[i] == t.rows[i];
      assert j != id ==> after.rows[j] == t.rows[j];
    }
  }

  lemma ServeOk(t: Table, r: Request)
    requires TableOk(t)
    ensures TableOk(Serve(t, r)) && Serve(t, r).schema == t.schema
  {
    match r
    case CreateIntent(id, b, p, m, lookup) =>
      if Respond(t, r).Ok? { WriteOk(t, id, Intent(b, p, m, New, true, NoColumn)); }
    case ContactIntent(id, m) =>
      if Respond(t, r).Ok? && t.rows[id].status == New { WriteOk(t, id, t.rows[id].(status := Contacted)); }
    case CloseIntent(id, m) =>
      if Respond(t, r).Ok? && t.rows[id].status != Closed {
        WriteOk(t, id, t.rows[id].(status := Closed, isOpen := false));
      }
    case OtherWriter(id, row) =>
      if Respond(t, r).Ok? { WriteOk(t, id, row); }
  }

  lemma AddMarkerOk(t: Table)
    requires TableOk(t) && AddMarker(t).Some?
    ensures TableOk(AddMarker(t).value)
  {
    var after := AddMarker(t).value;
    forall i, j | i in after.rows && j in after.rows && i != j ensures !ClashLegacy(after.rows[i], after.rows[j]) {
      assert !ClashLegacy(t.rows[i], t.rows[j]);
    }
  }

  // No duplicate can stop the new index: the legacy index still forbids two open intents.
  lemma AddOpenKeyOk(t: Table)
    requires TableOk(t) && t.schema.marker && !t.schema.open
    ensures AddOpenKey(t).Some? && TableOk(AddOpenKey(t).value)
  {
    forall i, j | i in t.rows && j in t.rows && i != j ensures !ClashOpen(t.rows[i], t.rows[j]) {
      assert !ClashLegacy(t.rows[i], t.rows[j]);
    }
  }

  lemma MigrateStepOk(t: Table, pc: Pc)
    requires TableOk(t) && PcOk(t.schema, pc)
    ensures var (after, next) := MigrateStep(t, pc);
      TableOk(after) && PcOk(after.schema, next) && Forward(t.schema, after.schema)
  {
    match pc
    case RunAddMarker(_) => if !t.schema.marker { AddMarkerOk(t); }
    case RunAddKey(_) => if !t.schema.open { AddOpenKeyOk(t); }
    case _ =>
  }

  lemma NextKeepsInv(s: State, step: Step)
    requires Inv(s)
    ensures Inv(Next(s, step))
  {
    match step
    case Serving(r) => ServeOk(s.table, r);
    case Statement(m) => if m in s.runs { MigrateStepOk(s.table, s.runs[m]); }
    case _ =>
  }

  lemma {:induction false} RunKeepsInv(s: State, steps: seq<Step>)
    requires Inv(s)
    ensures Inv(Run(s, steps))
    decreases |steps|
  {
    if steps != [] {
      NextKeepsInv(s, steps[0]);
      RunKeepsInv(Next(s, steps[0]), steps[1..]);
    }
  }

  // ----- safety ------------------------------------------------------------------------------------

  /** At every point of every run: one open intent per pair, whatever the migrations do. */
  lemma OneOpenIntentAlways(s: State, steps: seq<Step>)
    requires Init(s)
    ensures OneOpenPerPair(Run(s, steps).table)
  {
    RunKeepsInv(s, steps);
    OkIsUnique(Run(s, steps).table);
  }

  /** Wherever earlier migrations stopped, the next one recognises the schema and the rows. */
  lemma EveryStopCanBeResumed(s: State, steps: seq<Step>)
    requires Init(s)
    ensures var t := Run(s, steps).table;
      !Resume(t).Failed? && !SomeInvalid(t) && !SomeDuplicate(t)
  {
    RunKeepsInv(s, steps);
    OkIsUnique(Run(s, steps).table);
  }

  /** A migration that reported success leaves the verified schema, for good. */
  lemma {:induction false} DoneIsFinal(s: State, steps: seq<Step>, more: seq<Step>, m: nat)
    requires Init(s) && m in Run(s, steps).runs && Run(s, steps).runs[m].Done?
    ensures Run(Run(s, steps), more).table.schema == FINAL
  {
    RunKeepsInv(s, steps);
    FinalStays(Run(s, steps), more);
  }

  lemma {:induction false} FinalStays(s: State, steps: seq<Step>)
    requires Inv(s) && s.table.schema == FINAL
    ensures Run(s, steps).table.schema == FINAL
    decreases |steps|
  {
    if steps != [] {
      NextKeepsInv(s, steps[0]);
      if steps[0].Serving? { ServeOk(s.table, steps[0].request); }
      FinalStays(Next(s, steps[0]), steps[1..]);
    }
  }

  // ----- data --------------------------------------------------------------------------------------

  // What is stored, without the generated column.
  function Stored(t: Table): map<IntentId, Intent> { map k | k in t.rows :: t.rows[k].(marker := NoColumn) }

  lemma MigrationStepKeepsTheData(s: State, step: Step)
    requires !step.Serving?
    ensures Stored(Next(s, step).table) == Stored(s.table)
  {
  }

  /** No run of migrations, crashes and reruns changes, adds or removes a stored row. */
  lemma {:induction false} MigrationsKeepTheData(s: State, steps: seq<Step>)
    requires forall k | 0 <= k < |steps| :: !steps[k].Serving?
    ensures Stored(Run(s, steps).table) == Stored(s.table)
    decreases |steps|
  {
    if steps != [] {
      MigrationStepKeepsTheData(s, steps[0]);
      MigrationsKeepTheData(Next(s, steps[0]), steps[1..]);
    }
  }

  // ----- the life of an intent ---------------------------------------------------------------------

  function Stage(status: IntentStatus): nat {
    match status
    case New => 0
    case Contacted => 1
    case Closed => 2
  }

  // The same intent, later.
  predicate Later(a: Intent, b: Intent) {
    a.buyer == b.buyer && a.product == b.product && a.merchant == b.merchant && Stage(a.status) <= Stage(b.status)
  }

  lemma NextMovesForward(s: State, step: Step, id: IntentId)
    requires id in s.table.rows
    ensures id in Next(s, step).table.rows && Later(s.table.rows[id], Next(s, step).table.rows[id])
  {
    if !step.Serving? {
      MigrationStepKeepsTheData(s, step);
      assert id in Stored(s.table) && id in Stored(Next(s, step).table);
      assert Stored(s.table)[id] == Stored(Next(s, step).table)[id];
    }
  }

  /** Whatever happens, an intent is never removed or given away, and moves NEW, CONTACTED, CLOSED. */
  lemma {:induction false} IntentsOnlyMoveForward(s: State, steps: seq<Step>, id: IntentId)
    requires id in s.table.rows
    ensures id in Run(s, steps).table.rows && Later(s.table.rows[id], Run(s, steps).table.rows[id])
    decreases |steps|
  {
    if steps != [] {
      NextMovesForward(s, steps[0], id);
      IntentsOnlyMoveForward(Next(s, steps[0]), steps[1..], id);
    }
  }

  /** A transition that is answered with success has happened, and is answered alike when repeated. */
  lemma TransitionsTakeEffect(t: Table, id: IntentId, merchant: nat)
    requires TableOk(t)
    ensures Contact(t, id, merchant).Ok? ==>
      var after := Contact(t, id, merchant).value;
      after.rows[id].status == Contacted && after.rows[id].isOpen && Contact(after, id, merchant) == Ok(after)
    ensures Close(t, id, merchant).Ok? ==>
      var after := Close(t, id, merchant).value;
      after.rows[id].status == Closed && !after.rows[id].isOpen && Close(after, id, merchant) == Ok(after)
      && Contact(after, id, merchant) == Err(InvalidTransition)
  {
    var r := CloseIntent(id, merchant);
    if Close(t, id, merchant).Ok? { ServeOk(t, r); }
    if Contact(t, id, merchant).Ok? { ServeOk(t, ContactIntent(id, merchant)); }
  }

  // ----- progress ----------------------------------------------------------------------------------

  // What a migration knows when no other one changes the schema.
  predicate InStep(schema: Schema, pc: Pc) {
    match pc
    case Inspect => true
    case CountInvalid(seen) => seen == schema && seen != FINAL
    case CountDuplicates(seen) => seen == schema && seen != FINAL
    case RunAddMarker(seen) => seen == schema == LEGACY
    case CheckMarker(seen) => seen == LEGACY && schema == MARKED
    case RunAddKey(seen) => (seen == LEGACY || seen == MARKED) && schema == MARKED
    case CheckKey(seen) => (seen == LEGACY || seen == MARKED) && schema == BOTH
    case RunDropLegacy => schema == BOTH
    case Failed => false
    case _ => schema == FINAL
  }

  // An upper bound on the statements left.
  function Left(pc: Pc): nat {
    match pc
    case Inspect => 11
    case CountInvalid(_) => 10
    case CountDuplicates(_) => 9
    case RunAddMarker(_) => 8
    case CheckMarker(_) => 7
    case RunAddKey(_) => 6
    case CheckKey(_) => 5
    case RunDropLegacy => 4
    case FinalInspect => 3
    case FinalInvalid => 2
    case FinalDuplicates => 1
    case Done => 0
    case Failed => 0
  }

  lemma StatementSucceeds(t: Table, pc: Pc)
    requires TableOk(t) && InStep(t.schema, pc)
    ensures var (after, next) := MigrateStep(t, pc);
      InStep(after.schema, next) && TableOk(after) && (pc != Done ==> Left(next) < Left(pc))
  {
    OkIsUnique(t);
    match pc
    case RunAddMarker(_) => AddMarkerOk(t);
    case RunAddKey(_) => AddOpenKeyOk(t);
    case _ =>
  }

  // Only requests and the statements of one migration.
  predicate Undisturbed(steps: seq<Step>, m: nat) {
    forall k | 0 <= k < |steps| :: steps[k].Serving? || steps[k] == Statement(m)
  }

  function Statements(steps: seq<Step>): nat {
    if steps == [] then 0 else (if steps[0].Statement? then 1 else 0) + Statements(steps[1..])
  }

  lemma {:induction false} StaysInStep(s: State, steps: seq<Step>, m: nat)
    requires Inv(s) && m in s.runs && InStep(s.table.schema, s.runs[m]) && Undisturbed(steps, m)
    ensures var after := Run(s, steps);
      m in after.runs && InStep(after.table.schema, after.runs[m])
      && (Left(after.runs[m]) == 0 || Left(after.runs[m]) + Statements(steps) <= Left(s.runs[m]))
    decreases |steps|
  {
    if steps != [] {
      NextKeepsInv(s, steps[0]);
      if steps[0].Serving? { ServeOk(s.table, steps[0].request); } else { StatementSucceeds(s.table, s.runs[m]); }
      StaysInStep(Next(s, steps[0]), steps[1..], m);
    }
  }

  /**
   After any history of crashes and reruns, a migration that is started and not disturbed by
   another one ends well after at most eleven statements, whatever requests come in between.
   */
  lemma RerunCompletes(s: State, steps: seq<Step>, m: nat, more: seq<Step>)
    requires Init(s) && m !in Run(s, steps).runs && Undisturbed(more, m) && Statements(more) >= 11
    ensures var after := Run(Next(Run(s, steps), Start(m)), more);
      m in after.runs && after.runs[m] == Done && after.table.schema == FINAL && OneOpenPerPair(after.table)
  {
    RunKeepsInv(s, steps);
    var started := Next(Run(s, steps), Start(m));
    NextKeepsInv(Run(s, steps), Start(m));
    StaysInStep(started, more, m);
    RunKeepsInv(started, more);
    OkIsUnique(Run(started, more).table);
  }

  // ----- requests ----------------------------------------------------------------------------------

  // Another intent of the same buyer and product was closed before.
  predicate ClosedBefore(t: Table, id: IntentId)
    requires id in t.rows
  {
    exists k | k in t.rows ::
      k != id && t.rows[k].buyer == t.rows[id].buyer && t.rows[k].product == t.rows[id].product && !t.rows[k].isOpen
  }

  /** Closing an open intent fails exactly while the legacy index exists and one was closed before. */
  lemma CloseFailsIffLegacyIndexClashes(t: Table, id: IntentId)
    requires TableOk(t) && id in t.rows && t.rows[id].isOpen
    ensures Close(t, id, t.rows[id].merchant).Err? <==> t.schema.legacy && ClosedBefore(t, id)
  {
    var row := t.rows[id].(status := Closed, isOpen := false);
    var stored := Generated(row, t.schema);
    if t.schema.legacy && ClosedBefore(t, id) {
      var k :| k in t.rows && k != id
            && t.rows[k].buyer == row.buyer && t.rows[k].product == row.product && !t.rows[k].isOpen;
      assert ClashLegacy(t.rows[k], stored);
    }
  }

  const ON_SHELF := Some(ProductRow(0, true))

  // A buyer asks, is answered, asks again, and the merchant closes both.
  function SecondClose(): seq<Step> {
    [Serving(CreateIntent(0, 0, 0, 0, ON_SHELF)), Serving(CloseIntent(0, 0)),
     Serving(CreateIntent(1, 0, 0, 0, ON_SHELF))]
  }

  predicate CloseRefused(t: Table, id: IntentId) {
    t.schema == LEGACY && id in t.rows && t.rows[id].isOpen && Close(t, id, t.rows[id].merchant) == Err(Internal)
  }

  /** Under the legacy schema such a state is reached by ordinary requests. */
  lemma SecondCloseFails()
    ensures exists s :: Init(s) && CloseRefused(Run(s, SecondClose()).table, 1)
  {
    var s := State(Table(map[], LEGACY), map[]);
    var first, second := Intent(0, 0, 0, Closed, false, NoColumn), Intent(0, 0, 0, New, true, NoColumn);
    var s1 := Next(s, SecondClose()[0]);
    assert s1.table.rows == map[0 := second];
    var s2 := Next(s1, SecondClose()[1]);
    assert s2.table.rows == map[0 := first];
    var s3 := Next(s2, SecondClose()[2]);
    assert s3.table.rows == map[0 := first, 1 := second];
    var steps := SecondClose();
    assert steps[1..][0] == steps[1] && steps[1..][1..] == [steps[2]] && [steps[2]][1..] == [];
    assert Run(s2, [steps[2]]) == Run(s3, []) == s3;
    assert Run(s1, steps[1..]) == Run(s2, steps[1..][1..]);
    assert Run(s, steps) == Run(s1, steps[1..]) == s3;
    assert ClosedBefore(s3.table, 1) by { assert !s3.table.rows[0].isOpen; }
    var row := second.(status := Closed, isOpen := false);
    assert ClashLegacy(s3.table.rows[0], Generated(row, LEGACY));
  }

  /** An intent is created exactly when the product is the merchant's, on the shelf, and not open yet. */
  lemma CreateSucceedsIff(t: Table, id: IntentId, b: nat, p: nat, m: nat, lookup: Option<ProductRow>)
    requires TableOk(t) && id !in t.rows
    ensures Create(t, id, b, p, m, lookup).Ok? <==>
      lookup.Some? && lookup.value.shop == m && lookup.value.onShelf && OpenOf(t, b, p) == {}
    ensures Create(t, id, b, p, m, lookup) != Err(Internal)
  {
    if OpenOf(t, b, p) == {} {
      var stored := Generated(Intent(b, p, m, New, true, NoColumn), t.schema);
      forall k | k in t.rows
        ensures !(ClashLegacy(t.rows[k], stored) || (t.schema.open && ClashOpen(t.rows[k], stored)))
      {
        assert k !in OpenOf(t, b, p);
      }
    }
  }
}
