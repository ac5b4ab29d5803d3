/**
 Product images across the `files` table, the upload directory and crashes.

 Uploads, product deletes and one backfill command act on the same three stores (file records,
 objects on disk, backfill items). No step touches the database and the disk together, so every
 database write and every file operation is one step here, steps of all actors interleave freely,
 and any actor may stop for good between two of its steps.

 Object keys carry the id of the record they were issued for, which states that issued keys are
 never reused. A digest is represented by the content it was computed from, which states that the
 digest function is injective.
 */
module ProductImages {
  import opened Wrappers

  type FileId = nat
  type RunId = nat
  type Blob = string

  datatype Key =
    | Legacy(file: FileId)             // a product image stored before the detail profile
    | Issued(file: FileId, ext: nat)   // handed out by presign, possibly with its extension replaced
    | Target(file: FileId)             // product_image/detail-v1/F<id>.jpg

  datatype Kind = ProductImage | OtherKind

  datatype Meta = Meta(url: Option<Key>, jpeg: bool, size: nat)

  datatype FileRecord = FileRecord(kind: Kind, key: Key, pass: bool, meta: Meta)

  datatype Status = Pending | Processing | Staged | Committed | Failed

  datatype CleanupStatus = NotScheduled | CleanupPending | CleanupDone | CleanupFailed

  datatype Item = Item(
    source: Key, target: Key, sourceSha: Option<Blob>, outputSha: Option<Blob>,
    status: Status, cleanup: CleanupStatus, cleanupAfter: int)

  const CLEANUP_DELAY := 24 * 60 * 60

  predicate InFlight(it: Item) { it.status == Processing || it.status == Staged }

  datatype Store = Store(
    files: map<FileId, FileRecord>,
    disk: map<Key, Blob>,
    items: map<(RunId, FileId), Item>,
    // history, read by no step
    issued: set<FileId>,              // every file id ever created
    original: map<FileId, Blob>,      // bytes a record was accepted with
    outputs: set<(Blob, Blob)>)       // (input, validated output) of every successful processing

  function PutObject(db: Store, k: Key, b: Blob): Store { db.(disk := db.disk[k := b]) }

  function Unlink(db: Store, k: Key): Store { db.(disk := db.disk - {k}) }

  // A write through a descriptor is visible under the key only while the key still exists.
  function WriteThrough(db: Store, k: Key, b: Blob): Store { if k in db.disk then PutObject(db, k, b) else db }

  function PutItem(db: Store, run: RunId, f: FileId, it: Item): Store { db.(items := db.items[(run, f) := it]) }

  predicate HashIs(db: Store, k: Key, expected: Option<Blob>) {
    k in db.disk && expected.Some? && db.disk[k] == expected.value
  }

  // ----- the actors -------------------------------------------------------------------------

  datatype Upload =
    | Loaded(file: FileId, key: Key, content: Blob)
    | Writing(file: FileId, key: Key, content: Blob)    // created exclusively, not yet fully written
    | Published(file: FileId, key: Key, content: Blob)
    | Undoing(file: FileId, key: Key, content: Blob)    // the record update failed, object still there

  datatype Removal =
    | Collected(keys: map<FileId, Key>)   // read inside the product-delete transaction
    | Removing(objects: set<Key>)         // records gone, objects still to be unlinked

  // Program points of `apply`. `recovering` tells whether a failing commit marks the item.
  datatype ApplyPc =
    | Loop
    | Inspect(f: FileId, it: Item)
    | SetPending(f: FileId)
    | SetStaged(f: FileId, it: Item)
    | SetFailed(f: FileId)
    | CheckTarget(f: FileId, it: Item, recovering: bool)
    | ReadRecord(f: FileId, it: Item, recovering: bool)
    | CheckSource(f: FileId, it: Item, recovering: bool)
    | Switch(f: FileId, it: Item, recovering: bool)
    | Confirm(f: FileId, it: Item, recovering: bool)
    | ReadSource(f: FileId)
    | CreateItem(f: FileId, content: Blob)
    | MarkProcessing(f: FileId, content: Blob)
    | Process(f: FileId, content: Blob)
    | Publish(f: FileId, out: Blob)
    | WriteOut(f: FileId, out: Blob)
    | HashSource(f: FileId, out: Blob)
    | Stage(f: FileId, out: Blob, sha: Blob)
    | Reload(f: FileId)

  datatype CleanPc =
    | CleanLoop
    | CleanRecord(f: FileId, it: Item)
    | CleanTarget(f: FileId, it: Item)
    | CleanCount(f: FileId, it: Item)
    | HashOld(f: FileId, it: Item, gone: bool)
    | RemoveOld(f: FileId, it: Item, gone: bool)
    | HashNew(f: FileId, it: Item)
    | RemoveNew(f: FileId, it: Item)
    | CleanOk(f: FileId)
    | CleanBad(f: FileId)

  // One command at a time: the global backfill lock. `todo` is None until recovery is over;
  // `lost` records that a failure mark could not be written, which the command ignores.
  datatype Command =
    | Down
    | Applying(run: RunId, recover: set<FileId>, todo: Option<map<FileId, Key>>, lost: bool, pc: ApplyPc)
    | Cleaning(run: RunId, left: set<FileId>, cpc: CleanPc)

  datatype State = State(db: Store, uploads: map<nat, Upload>, deletes: map<nat, Removal>, command: Command)

  // ----- uploads ----------------------------------------------------------------------------

  datatype UploadAction =
    | Load(file: FileId, ext: nat, content: Blob)
    | PublishLink            // hard link of a fully written temporary file
    | PublishCreate          // fallback: exclusive create, then write
    | FinishWrite
    | FailWrite
    | UpdateRecord
    | UpdateFails
    | Undo
    | Vanish                 // the server stops

  function EndUpload(s: State, u: nat, db: Store): State { s.(db := db, uploads := s.uploads - {u}) }

  function MoveUpload(s: State, u: nat, db: Store, up: Upload): State { s.(db := db, uploads := s.uploads[u := up]) }

  // The key an upload publishes to; None when the handler refuses the record.
  function UploadKey(rec: FileRecord, ext: nat): Option<Key> {
    if rec.kind == ProductImage then
      if rec.key.Legacy? then None else Some(rec.key)      // only detail-v1 keys are accepted
    else if rec.key.Issued? then Some(Issued(rec.key.file, ext))
    else None
  }

  // An update that matches no row is not an error.
  function AcceptRecord(db: Store, f: FileId, k: Key, c: Blob): Store {
    if f in db.files then
      db.(files := db.files[f := db.files[f].(
            key := k, pass := true, meta := Meta(Some(k), db.files[f].meta.jpeg, |c|))],
          original := db.original[f := c])
    else db
  }

  function UploadStep(s: State, u: nat, a: UploadAction, partial: Blob): State {
    if u !in s.uploads then
      if a.Load? && a.file in s.db.files && a.content != "" then
        match UploadKey(s.db.files[a.file], a.ext)
        case None => s
        case Some(k) => MoveUpload(s, u, s.db, Loaded(a.file, k, a.content))
      else s
    else
      match (a, s.uploads[u])
      case (PublishLink, Loaded(f, k, c)) =>
        if k in s.db.disk then EndUpload(s, u, s.db)
        else MoveUpload(s, u, PutObject(s.db, k, c), Published(f, k, c))
      case (PublishCreate, Loaded(f, k, c)) =>
        if k in s.db.disk then EndUpload(s, u, s.db)
        else MoveUpload(s, u, PutObject(s.db, k, partial), Writing(f, k, c))
      case (FinishWrite, Writing(f, k, c)) => MoveUpload(s, u, WriteThrough(s.db, k, c), Published(f, k, c))
      case (FailWrite, Writing(f, k, c)) => EndUpload(s, u, Unlink(s.db, k))
      case (UpdateRecord, Published(f, k, c)) => EndUpload(s, u, AcceptRecord(s.db, f, k, c))
      case (UpdateFails, Published(f, k, c)) => MoveUpload(s, u, s.db, Undoing(f, k, c))
      case (Undo, Undoing(f, k, c)) => EndUpload(s, u, Unlink(s.db, k))
      case (Vanish, _) => EndUpload(s, u, s.db)
      case _ => s
  }

  // A new record: presign inserts it pending, under a key issued for it.
  function Presign(db: Store, f: FileId, kind: Kind, ext: nat): Store {
    if f in db.issued then db
    else db.(files := db.files[f := FileRecord(kind, Issued(f, ext), false, Meta(None, kind == ProductImage, 0))],
             issued := db.issued + {f})
  }

  // ----- product deletes --------------------------------------------------------------------

  datatype DeleteAction = Collect(ids: set<FileId>) | CommitDelete | Remove(key: Key) | KeepObject(key: Key) | Abandon

  function DropRecords(db: Store, ids: set<FileId>): Store { db.(files := db.files - ids) }

  // Which unreferenced files a delete may collect is the subject of ProductFiles.dfy; any choice
  // is allowed here.
  function DeleteStep(s: State, d: nat, a: DeleteAction): State {
    if d !in s.deletes then
      if a.Collect? then
        var keys := map f | f in a.ids && f in s.db.files && s.db.files[f].kind == ProductImage :: s.db.files[f].key;
        s.(deletes := s.deletes[d := Collected(keys)])
      else s
    else
      match (a, s.deletes[d])
      case (CommitDelete, Collected(keys)) =>
        s.(db := DropRecords(s.db, keys.Keys), deletes := s.deletes[d := Removing(keys.Values)])
      case (Remove(k), Removing(ks)) =>
        if k in ks then s.(db := Unlink(s.db, k), deletes := s.deletes[d := Removing(ks - {k})]) else s
      case (KeepObject(k), Removing(ks)) => s.(deletes := s.deletes[d := Removing(ks - {k})])
      case (Abandon, _) => s.(deletes := s.deletes - {d})
      case _ => s
  }

  // ----- backfill: apply --------------------------------------------------------------------

  // What the environment answers at a step: whether an I/O call fails, the bytes processing
  // returned, the branch of a test on state or options not modelled, the ids selected by the
  // --after-id and --limit options, the clock.
  datatype Env = Env(fails: bool, bytes: Blob, flag: bool, ids: set<FileId>, now: int)

  function StartApply(s: State, run: RunId): State {
    if s.command.Down? then
      s.(command := Applying(run,
           set k | k in s.db.items && k.0 == run && InFlight(s.db.items[k]) :: k.1, None, false, Loop))
    else s
  }

  // An unfinished item of another run for the same file.
  predicate Unresolved(db: Store, run: RunId, f: FileId) {
    exists k | k in db.items :: k.1 == f && k.0 != run && db.items[k].status != Committed
  }

  // Accepted product images outside the detail-v1 prefix.
  function Candidates(db: Store, ids: set<FileId>): map<FileId, Key> {
    map f | f in ids && f in db.files && db.files[f].kind == ProductImage && db.files[f].pass && db.files[f].key.Legacy?
      :: db.files[f].key
  }

  function To(s: State, db: Store, pc: ApplyPc): State
    requires s.command.Applying?
  { s.(db := db, command := s.command.(pc := pc)) }

  function AfterFailedCommit(f: FileId, recovering: bool): ApplyPc { if recovering then SetFailed(f) else Loop }

  function CandidatePc(s: State, f: FileId, e: Env): ApplyPc
    requires s.command.Applying?
  {
    var k := (s.command.run, f);
    if e.flag then Loop                                                // not referenced by any product
    else if k !in s.db.items then ReadSource(f)
    else match s.db.items[k].status
      case Committed => Loop
      case Staged => Inspect(f, s.db.items[k])
      case Processing => Inspect(f, s.db.items[k])
      case Failed => if e.fails then Loop else ReadSource(f)           // retried only on request
      case Pending => ReadSource(f)
  }

  function LoopStep(s: State, f: FileId, e: Env): State
    requires s.command.Applying? && s.command.pc.Loop?
  {
    var c := s.command;
    if c.todo.None? then
      if c.recover == {} then s.(command := c.(todo := Some(Candidates(s.db, e.ids))))
      else if f in c.recover && (c.run, f) in s.db.items then
        s.(command := c.(recover := c.recover - {f}, pc := Inspect(f, s.db.items[(c.run, f)])))
      else s
    else if c.todo.value == map[] then s.(command := Down)
    else if f !in c.todo.value then s
    else if !e.flag && Unresolved(s.db, c.run, f) then s.(command := Down)   // stops with an error
    else s.(command := c.(todo := Some(c.todo.value - {f}), pc := CandidatePc(s, f, e)))
  }

  // recoverApplyItem: what a processing item becomes depends on the target object.
  function InspectPc(db: Store, f: FileId, it: Item, fails: bool): ApplyPc {
    if it.status == Staged then CheckTarget(f, it, true)
    else if fails then SetFailed(f)
    else if it.target !in db.disk then SetPending(f)
    else if it.outputSha.None? then SetFailed(f)
    else if db.disk[it.target] == it.outputSha.value then SetStaged(f, it)
    else SetPending(f)
  }

  // URL, type and size of a converted record; the size was taken when the target was hashed.
  function TargetMeta(it: Item): Meta {
    Meta(Some(it.target), true, if it.outputSha.Some? then |it.outputSha.value| else 0)
  }

  function CommittedItem(it: Item, now: int): Item {
    it.(status := Committed, cleanup := CleanupPending, cleanupAfter := now + CLEANUP_DELAY)
  }

  // Moves the record from the source to the target key.
  function MoveRecord(db: Store, f: FileId, it: Item): Store
    requires f in db.files
  {
    db.(files := db.files[f := db.files[f].(key := it.target, meta := TargetMeta(it))])
  }

  // The record still holds its source key and is accepted: the condition of the update.
  predicate CanMove(db: Store, f: FileId, it: Item) {
    f in db.files && db.files[f].key == it.source && db.files[f].pass
  }

  // Requests to the database and the disk of commitStagedItem, one by one.
  function CommitStep(s: State, e: Env): State
    requires s.command.Applying?
  {
    var db, run := s.db, s.command.run;
    match s.command.pc
    case CheckTarget(f, it, r) =>
      To(s, db, if !e.fails && HashIs(db, it.target, it.outputSha) then ReadRecord(f, it, r)
                else AfterFailedCommit(f, r))
    case ReadRecord(f, it, r) =>
      To(s, db, if e.fails || f !in db.files then AfterFailedCommit(f, r)
                else if db.files[f].key == it.source then CheckSource(f, it, r)
                else if db.files[f].key == it.target && db.files[f].meta == TargetMeta(it) then Confirm(f, it, r)
                else AfterFailedCommit(f, r))
    case CheckSource(f, it, r) =>
      To(s, db, if !e.fails && HashIs(db, it.source, it.sourceSha) then Switch(f, it, r) else AfterFailedCommit(f, r))
    case Switch(f, it, r) =>     // one transaction over both tables
      if !e.fails && CanMove(db, f, it) && (run, f) in db.items then
        To(s, PutItem(MoveRecord(db, f, it), run, f, CommittedItem(db.items[(run, f)], e.now)), Loop)
      else To(s, db, AfterFailedCommit(f, r))
    case Confirm(f, it, r) =>
      if !e.fails && (run, f) in db.items then
        To(s, PutItem(db, run, f, CommittedItem(db.items[(run, f)], e.now)), Loop)
      else To(s, db, AfterFailedCommit(f, r))
    case _ => s
  }

  function PutStatus(db: Store, run: RunId, f: FileId, status: Status): Store
    requires (run, f) in db.items
  { PutItem(db, run, f, db.items[(run, f)].(status := status)) }

  // The item writes of recovery. A lost failure mark is ignored by the command.
  function RecoverWriteStep(s: State, e: Env): State
    requires s.command.Applying?
  {
    var db, run := s.db, s.command.run;
    match s.command.pc
    case SetPending(f) =>
      if e.fails || (run, f) !in db.items then s.(command := Down) else To(s, PutStatus(db, run, f, Pending), Loop)
    case SetStaged(f, it) =>
      if e.fails || (run, f) !in db.items then s.(command := Down)
      else To(s, PutStatus(db, run, f, Staged), CheckTarget(f, it.(status := Staged), true))
    case SetFailed(f) =>
      if e.fails || (run, f) !in db.items then s.(command := s.command.(pc := Loop, lost := true))
      else To(s, PutStatus(db, run, f, Failed), Loop)
    case _ => s
  }

  function NewItem(f: FileId): Item { Item(Legacy(f), Target(f), None, None, Pending, NotScheduled, 0) }

  // beginProcessingItem leaves the digests of an earlier attempt in place.
  function ProcessingItem(it: Item, f: FileId): Item {
    it.(source := Legacy(f), target := Target(f), status := Processing, cleanup := NotScheduled)
  }

  function StagedItem(it: Item, f: FileId, sha: Blob, out: Blob): Item {
    it.(source := Legacy(f), target := Target(f), sourceSha := Some(sha), outputSha := Some(out),
        status := Staged, cleanup := NotScheduled)
  }

  // The item part of converting one candidate.
  function PrepareStep(s: State, e: Env): State
    requires s.command.Applying?
  {
    var db, run := s.db, s.command.run;
    match s.command.pc
    case ReadSource(f) =>
      To(s, db, if e.fails || Legacy(f) !in db.disk || db.disk[Legacy(f)] == "" then Loop
                else CreateItem(f, db.disk[Legacy(f)]))
    case CreateItem(f, c) =>
      if e.fails then To(s, db, Loop)
      else if (run, f) in db.items then To(s, db, MarkProcessing(f, c))
      else To(s, PutItem(db, run, f, NewItem(f)), MarkProcessing(f, c))
    case MarkProcessing(f, c) =>
      if e.fails || (run, f) !in db.items then To(s, db, Loop)
      else To(s, PutItem(db, run, f, ProcessingItem(db.items[(run, f)], f)), Process(f, c))
    case Process(f, c) =>
      if e.fails || e.bytes == "" then To(s, db, SetFailed(f))
      else To(s, db.(outputs := db.outputs + {(c, e.bytes)}), Publish(f, e.bytes))
    case _ => s
  }

  // Publishing the output and staging the item.
  function PublishStep(s: State, e: Env): State
    requires s.command.Applying?
  {
    var db, run := s.db, s.command.run;
    match s.command.pc
    case Publish(f, out) =>
      if e.fails || Target(f) in db.disk then To(s, db, SetFailed(f))
      else if e.flag then To(s, PutObject(db, Target(f), out), HashSource(f, out))
      else To(s, PutObject(db, Target(f), e.bytes), WriteOut(f, out))
    case WriteOut(f, out) =>
      // the error of removing what was written so far is ignored
      if e.fails then
        To(s, if e.flag then WriteThrough(db, Target(f), e.bytes) else Unlink(db, Target(f)), SetFailed(f))
      else To(s, WriteThrough(db, Target(f), out), HashSource(f, out))
    case HashSource(f, out) =>
      To(s, db, if e.fails || Legacy(f) !in db.disk then Loop else Stage(f, out, db.disk[Legacy(f)]))
    case Stage(f, out, sha) =>
      if e.fails || (run, f) !in db.items then To(s, db, Loop)
      else To(s, PutItem(db, run, f, StagedItem(db.items[(run, f)], f, sha, out)), Reload(f))
    case Reload(f) =>
      To(s, db, if e.fails || (run, f) !in db.items then Loop else CheckTarget(f, db.items[(run, f)], false))
    case _ => s
  }

  function ApplyStep(s: State, f: FileId, e: Env): State {
    if !s.command.Applying? then s
    else
      var pc := s.command.pc;
      if pc.Loop? then LoopStep(s, f, e)
      else if pc.Inspect? then To(s, s.db, InspectPc(s.db, pc.f, pc.it, e.fails))
      else if pc.SetPending? || pc.SetStaged? || pc.SetFailed? then RecoverWriteStep(s, e)
      else if pc.CheckTarget? || pc.ReadRecord? || pc.CheckSource? || pc.Switch? || pc.Confirm? then CommitStep(s, e)
      else if pc.ReadSource? || pc.CreateItem? || pc.MarkProcessing? || pc.Process? then PrepareStep(s, e)
      else PublishStep(s, e)
  }

  // ----- backfill: cleanup ------------------------------------------------------------------

  predicate CleanupDue(it: Item, now: int) {
    it.status == Committed && (it.cleanup == CleanupPending || it.cleanup == CleanupFailed) && it.cleanupAfter <= now
  }

  function StartCleanup(s: State, run: RunId, now: int): State {
    if s.command.Down? then
      s.(command := Cleaning(run, set k | k in s.db.items && k.0 == run && CleanupDue(s.db.items[k], now) :: k.1,
                             CleanLoop))
    else s
  }

  function ToClean(s: State, db: Store, pc: CleanPc): State
    requires s.command.Cleaning?
  { s.(db := db, command := s.command.(cpc := pc)) }

  function PutCleanup(db: Store, run: RunId, f: FileId, status: CleanupStatus): Store {
    if (run, f) in db.items then PutItem(db, run, f, db.items[(run, f)].(cleanup := status)) else db
  }

  function AfterOld(f: FileId, it: Item, gone: bool): CleanPc { if gone then HashNew(f, it) else CleanOk(f) }

  // removeObjectIfExistsAndMatches, first half: the content decides, the unlink is a later step.
  function HashPc(db: Store, k: Key, expected: Option<Blob>, f: FileId, remove: CleanPc, absent: CleanPc, fails: bool)
    : CleanPc
  {
    if fails then CleanBad(f)
    else if k !in db.disk then absent
    else if HashIs(db, k, expected) then remove
    else CleanBad(f)
  }

  // The tests of cleanupCommittedItem; `flag` answers whether a product still references the file.
  function CleanTestStep(s: State, e: Env): State
    requires s.command.Cleaning?
  {
    var db := s.db;
    match s.command.cpc
    case CleanRecord(f, it) =>
      if it.source == it.target then ToClean(s, db, CleanBad(f))
      else if e.fails then s.(command := Down)
      else ToClean(s, db, if f !in db.files then (if e.flag then CleanBad(f) else HashOld(f, it, true))
                          else if db.files[f].key == it.target then CleanTarget(f, it)
                          else CleanBad(f))
    case CleanTarget(f, it) =>
      ToClean(s, db, if !e.fails && HashIs(db, it.target, it.outputSha) then CleanCount(f, it) else CleanBad(f))
    case CleanCount(f, it) =>
      if e.fails then s.(command := Down)
      else ToClean(s, db, if exists g | g in db.files :: db.files[g].key == it.source then CleanBad(f)
                          else HashOld(f, it, false))
    case _ => s
  }

  function CleanRemoveStep(s: State, e: Env): State
    requires s.command.Cleaning?
  {
    var db := s.db;
    match s.command.cpc
    case HashOld(f, it, gone) =>
      ToClean(s, db, HashPc(db, it.source, it.sourceSha, f, RemoveOld(f, it, gone), AfterOld(f, it, gone), e.fails))
    case RemoveOld(f, it, gone) =>
      if e.fails then ToClean(s, db, CleanBad(f)) else ToClean(s, Unlink(db, it.source), AfterOld(f, it, gone))
    case HashNew(f, it) =>
      ToClean(s, db, HashPc(db, it.target, it.outputSha, f, RemoveNew(f, it), CleanOk(f), e.fails))
    case RemoveNew(f, it) =>
      if e.fails then ToClean(s, db, CleanBad(f)) else ToClean(s, Unlink(db, it.target), CleanOk(f))
    case _ => s
  }

  function CleanWriteStep(s: State, next: FileId, e: Env): State
    requires s.command.Cleaning?
  {
    var db, run := s.db, s.command.run;
    match s.command.cpc
    case CleanLoop =>
      if s.command.left == {} then s.(command := Down)
      else if next in s.command.left && (run, next) in db.items then
        s.(command := Cleaning(run, s.command.left - {next}, CleanRecord(next, db.items[(run, next)])))
      else s
    case CleanOk(f) =>
      if e.fails then s.(command := Down) else ToClean(s, PutCleanup(db, run, f, CleanupDone), CleanLoop)
    case CleanBad(f) =>
      if e.fails then ToClean(s, db, CleanLoop) else ToClean(s, PutCleanup(db, run, f, CleanupFailed), CleanLoop)
    case _ => s
  }

  function CleanupStep(s: State, next: FileId, e: Env): State {
    if !s.command.Cleaning? then s
    else
      var pc := s.command.cpc;
      if pc.CleanRecord? || pc.CleanTarget? || pc.CleanCount? then CleanTestStep(s, e)
      else if pc.HashOld? || pc.RemoveOld? || pc.HashNew? || pc.RemoveNew? then CleanRemoveStep(s, e)
      else CleanWriteStep(s, next, e)
  }

  // ----- runs -------------------------------------------------------------------------------

  datatype Step =
    | NewFile(file: FileId, kind: Kind, ext: nat)
    | UploadBy(u: nat, upload: UploadAction, partial: Blob)
    | DeleteBy(d: nat, delete: DeleteAction)
    | BeginApply(run: RunId)
    | ApplyOne(next: FileId, env: Env)
    | BeginCleanup(run: RunId, now: int)
    | CleanupOne(next: FileId, env: Env)
    | Crash                                   // the backfill process dies

  // A step that is not possible changes nothing.
  function Next(s: State, a: Step): State {
    match a
    case NewFile(f, kind, ext) => s.(db := Presign(s.db, f, kind, ext))
    case UploadBy(u, act, partial) => UploadStep(s, u, act, partial)
    case DeleteBy(d, act) => DeleteStep(s, d, act)
    case BeginApply(run) => StartApply(s, run)
    case ApplyOne(f, e) => ApplyStep(s, f, e)
    case BeginCleanup(run, now) => StartCleanup(s, run, now)
    case CleanupOne(f, e) => CleanupStep(s, f, e)
    case Crash => s.(command := Down)
  }

  function Run(s: State, steps: seq<Step>): State
    decreases |steps|
  {
    if steps == [] then s else Run(Next(s, steps[0]), steps[1..])
  }

  // Deployment: legacy product images only, every accepted one with its object; nothing running.
  ghost predicate Init(s: State) {
    var db := s.db;
    && db.items == map[] && s.uploads == map[] && s.deletes == map[] && s.command == Down
    && db.outputs == {} && db.issued == db.files.Keys
    && (forall k | k in db.disk :: k.Legacy? && k.file in db.files)
    && (forall f | f in db.files :: db.files[f].key == Legacy(f) && db.files[f].kind == ProductImage
                                    && (db.files[f].pass ==> Legacy(f) in db.disk))
    && (forall k | k in db.disk :: k.file in db.original && db.original[k.file] == db.disk[k])
  }
}
