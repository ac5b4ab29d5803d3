/**
 Buyer intents and the migration of their uniqueness index on MySQL.

 The legacy schema allows one open and one closed intent per buyer and product. The migration adds a
 stored generated column that is NULL for closed intents, a unique index over it, and drops the
 legacy index. It runs statement by statement while requests go on, may stop anywhere and is rerun.
 */
module BuyerIntents {
  import opened Wrappers

  type IntentId = nat

  datatype IntentStatus = New | Contacted | Closed

  datatype Marker = NoColumn | Null | One

  datatype Intent = Intent(buyer: nat, product: nat, merchant: nat, status: IntentStatus, isOpen: bool, marker: Marker)

  // Which of the two unique indexes and whether the generated column exist.
  datatype Schema = Schema(marker: bool, legacy: bool, open: bool)

  datatype Table = Table(rows: map<IntentId, Intent>, schema: Schema)

  datatype Error = NotFound | Forbidden | InvalidTransition | Conflict | Internal

  // ----- the database ------------------------------------------------------------------------------

  // uk_buyer_product_open (buyer_id, product_id, is_open)
  predicate ClashLegacy(a: Intent, b: Intent) { a.buyer == b.buyer && a.product == b.product && a.isOpen == b.isOpen }

  // uk_buyer_intent_open (buyer_id, product_id, open_marker): NULL is equal to nothing
  predicate ClashOpen(a: Intent, b: Intent) {
    a.buyer == b.buyer && a.product == b.product && a.marker == b.marker == One
  }

  function Generated(row: Intent, schema: Schema): Intent {
    row.(marker := if !schema.marker then NoColumn else if row.isOpen then One else Null)
  }

  // No other row has the key of this one under an index that exists.
  predicate Unique(t: Table, id: IntentId, row: Intent) {
    forall k | k in t.rows && k != id ::
      !(t.schema.legacy && ClashLegacy(t.rows[k], row)) && !(t.schema.open && ClashOpen(t.rows[k], row))
  }

  // INSERT and UPDATE of one row; None is a duplicate key.
  function Write(t: Table, id: IntentId, row: Intent): Option<Table> {
    var stored := Generated(row, t.schema);
    if Unique(t, id, stored) then Some(t.(rows := t.rows[id := stored])) else None
  }

  predicate NoClash(rows: map<IntentId, Intent>, clash: (Intent, Intent) -> bool) {
    forall i, j | i in rows && j in rows && i != j :: !clash(rows[i], rows[j])
  }

  // ALTER TABLE statements; None is an SQL error.
  function AddMarker(t: Table): Option<Table> {
    if t.schema.marker then None
    else
      var schema := t.schema.(marker := true);
      Some(Table(map k | k in t.rows :: Generated(t.rows[k], schema), schema))
  }

  function AddOpenKey(t: Table): Option<Table> {
    if t.schema.open || !t.schema.marker || !NoClash(t.rows, ClashOpen) then None
    else Some(t.(schema := t.schema.(open := true)))
  }

  function DropLegacyKey(t: Table): Option<Table> {
    if !t.schema.legacy then None else Some(t.(schema := t.schema.(legacy := false)))
  }

  // ----- requests ----------------------------------------------------------------------------------

  predicate ValidState(row: Intent) { row.isOpen <==> row.status != Closed }

  // The product row as read under its lock.
  datatype ProductRow = ProductRow(shop: nat, onShelf: bool)

  function OpenOf(t: Table, buyer: nat, product: nat): set<IntentId> {
    set k | k in t.rows && t.rows[k].buyer == buyer && t.rows[k].product == product && t.rows[k].isOpen
  }

  function Create(
      t: Table, id: IntentId, buyer: nat, product: nat, merchant: nat, lookup: Option<ProductRow>): Result<Table, Error>
  {
    if lookup.None? || lookup.value.shop != merchant then Err(NotFound)
    else if !lookup.value.onShelf then Err(InvalidTransition)
    else if OpenOf(t, buyer, product) != {} then
      Err(if forall k | k in OpenOf(t, buyer, product) :: ValidState(t.rows[k]) then Conflict else Internal)
    else
      match Write(t, id, Intent(buyer, product, merchant, New, true, NoColumn))
      case None => Err(Internal)
      case Some(after) => Ok(after)
  }

  function LoadOwned(t: Table, id: IntentId, merchant: nat): Result<Intent, Error> {
    if id !in t.rows then Err(NotFound)
    else if t.rows[id].merchant != merchant then Err(Forbidden)
    else if !ValidState(t.rows[id]) then Err(Internal)
    else Ok(t.rows[id])
  }

  function Contact(t: Table, id: IntentId, merchant: nat): Result<Table, Error> {
    match LoadOwned(t, id, merchant)
    case Err(e) => Err(e)
    case Ok(row) =>
      if row.status == Contacted then Ok(t)
      else if row.status != New then Err(InvalidTransition)
      else
        match Write(t, id, row.(status := Contacted))
        case None => Err(Internal)
        case Some(after) => Ok(after)
  }

  function Close(t: Table, id: IntentId, merchant: nat): Result<Table, Error> {
    match LoadOwned(t, id, merchant)
    case Err(e) => Err(e)
    case Ok(row) =>
      if row.status == Closed then Ok(t)
      else
        match Write(t, id, row.(status := Closed, isOpen := false))
        case None => Err(Internal)
        case Some(after) => Ok(after)
  }

  datatype Request =
    | CreateIntent(id: IntentId, buyer: nat, product: nat, merchant: nat, lookup: Option<ProductRow>)
    | ContactIntent(id: IntentId, merchant: nat)
    | CloseIntent(id: IntentId, merchant: nat)
    | OtherWriter(id: IntentId, row: Intent)      // any consistent insert from outside the application

  function Respond(t: Table, r: Request): Result<Table, Error> {
    match r
    case CreateIntent(id, b, p, m, lookup) => if id in t.rows then Err(Internal) else Create(t, id, b, p, m, lookup)
    case ContactIntent(id, m) => Contact(t, id, m)
    case CloseIntent(id, m) => Close(t, id, m)
    case OtherWriter(id, row) =>
      if id in t.rows || !ValidState(row) then Err(Internal)
      else
        match Write(t, id, row)
        case None => Err(Internal)
        case Some(after) => Ok(after)
  }

  function Serve(t: Table, r: Request): Table {
    match Respond(t, r)
    case Err(_) => t
    case Ok(after) => after
  }

  // ----- the migration -----------------------------------------------------------------------------

  // The statements still to run; `seen` is the schema inspected at the start of the run.
  datatype Pc =
    | Inspect
    | CountInvalid(seen: Schema)
    | CountDuplicates(seen: Schema)
    | RunAddMarker(seen: Schema)
    | CheckMarker(seen: Schema)
    | RunAddKey(seen: Schema)
    | CheckKey(seen: Schema)
    | RunDropLegacy
    | FinalInspect
    | FinalInvalid
    | FinalDuplicates
    | Done
    | Failed

  const LEGACY := Schema(false, true, false)
  const MARKED := Schema(true, true, false)
  const BOTH := Schema(true, true, true)
  const FINAL := Schema(true, false, true)

  // The switch over the inspected state.
  function Resume(t: Table): Pc {
    if t.schema == Schema(false, false, false) && |t.rows| == 0 then CountInvalid(t.schema)
    else if t.schema == LEGACY || t.schema == MARKED || t.schema == BOTH then CountInvalid(t.schema)
    else if t.schema == FINAL then FinalInspect
    else Failed
  }

  predicate SomeInvalid(t: Table) { exists k | k in t.rows :: !ValidState(t.rows[k]) }

  predicate SomeDuplicate(t: Table) {
    exists i, j | i in t.rows && j in t.rows ::
      i != j && ClashLegacy(t.rows[i], t.rows[j]) && t.rows[i].isOpen
  }

  function AfterMarker(seen: Schema): Pc { if !seen.open then RunAddKey(seen) else AfterKey(seen) }

  function AfterKey(seen: Schema): Pc { if seen.legacy then RunDropLegacy else FinalInspect }

  function AfterDdl(t: Table, change: Option<Table>, next: Pc): (Table, Pc) {
    match change
    case None => (t, Failed)
    case Some(after) => (after, next)
  }

  function MigrateStep(t: Table, pc: Pc): (Table, Pc) {
    match pc
    case Inspect => (t, Resume(t))
    case CountInvalid(seen) => (t, if SomeInvalid(t) then Failed else CountDuplicates(seen))
    case CountDuplicates(seen) =>
      (t, if SomeDuplicate(t) then Failed else if !seen.marker then RunAddMarker(seen) else AfterMarker(seen))
    case RunAddMarker(seen) => AfterDdl(t, AddMarker(t), CheckMarker(seen))
    case CheckMarker(seen) => (t, if t.schema.marker then AfterMarker(seen) else Failed)
    case RunAddKey(seen) => AfterDdl(t, AddOpenKey(t), CheckKey(seen))
    case CheckKey(seen) => (t, if t.schema.open then AfterKey(seen) else Failed)
    case RunDropLegacy => AfterDdl(t, DropLegacyKey(t), FinalInspect)
    case FinalInspect => (t, if t.schema == FINAL then FinalInvalid else Failed)
    case FinalInvalid => (t, if SomeInvalid(t) then Failed else FinalDuplicates)
    case FinalDuplicates => (t, if SomeDuplicate(t) then Failed else Done)
    case Done => (t, Done)
    case Failed => (t, Failed)
  }

  // Any number of migration runs at once, each possibly stopped for good.
  datatype State = State(table: Table, runs: map<nat, Pc>)

  datatype Step = Serving(request: Request) | Start(run: nat) | Statement(run: nat) | Crash(run: nat)

  function Next(s: State, step: Step): State {
    match step
    case Serving(r) => s.(table := Serve(s.table, r))
    case Start(m) => if m in s.runs then s else s.(runs := s.runs[m := Inspect])
    case Statement(m) =>
      if m !in s.runs then s
      else
        var (after, pc) := MigrateStep(s.table, s.runs[m]);
        State(after, s.runs[m := pc])
    case Crash(m) => s.(runs := s.runs - {m})
  }

  function Run(s: State, steps: seq<Step>): State
    decreases |steps|
  {
    if steps == [] then s else Run(Next(s, steps[0]), steps[1..])
  }

  // The formal legacy schema with consistent rows.
  ghost predicate Init(s: State) {
    && s.table.schema == LEGACY && s.runs == map[]
    && (forall k | k in s.table.rows :: ValidState(s.table.rows[k]) && s.table.rows[k].marker == NoColumn)
    && NoClash(s.table.rows, ClashLegacy)
  }
}
