/**
 Safety of product images: what holds in every state reachable by uploads, deletes, backfill,
 cleanup and crashes, in any interleaving.
 */
module ProductImagesSafety {
  import opened Wrappers
  import opened ProductImages

  // ----- the promise ------------------------------------------------------------------------

  // An accepted record has an object at its key: its original bytes, or, once it was moved to its
  // target key, a validated output of processing these bytes.
  ghost predicate Served(db: Store, f: FileId) {
    f in db.files && db.files[f].pass ==>
      var k := db.files[f].key;
      && k in db.disk && f in db.original
      && if k.Target? then (db.original[f], db.disk[k]) in db.outputs else db.disk[k] == db.original[f]
  }

  // ----- the inductive invariant: stores -----------------------------------------------------

  ghost predicate RecordOk(db: Store, f: FileId) {
    f in db.files ==>
      && f in db.issued && db.files[f].key.file == f
      && (!db.files[f].key.Issued? ==> db.files[f].kind == ProductImage)
      && (db.files[f].key.Target? ==> db.files[f].pass)
  }

  // The file was stored before the detail profile: no key was ever handed out for it by presign.
  ghost predicate IsLegacy(db: Store, f: FileId) {
    f in db.issued && (f in db.files ==> !db.files[f].key.Issued?)
  }

  ghost predicate LegacyOk(db: Store, f: FileId) {
    Legacy(f) in db.disk ==> IsLegacy(db, f) && f in db.original && db.disk[Legacy(f)] == db.original[f]
  }

  ghost predicate AtTarget(db: Store, f: FileId) { f in db.files ==> db.files[f].key == Target(f) }

  ghost predicate ItemOk(db: Store, f: FileId, it: Item) {
    && IsLegacy(db, f)
    && it.source == Legacy(f) && it.target == Target(f)
    && (it.sourceSha.Some? <==> it.outputSha.Some?)
    && (it.sourceSha.Some? ==> f in db.original && it.sourceSha.value == db.original[f]
                               && (it.sourceSha.value, it.outputSha.value) in db.outputs)
    && (it.status == Staged || it.status == Committed ==> it.outputSha.Some?)
    && (it.status == Committed ==> AtTarget(db, f))
  }

  ghost predicate StoreOk(db: Store) {
    && (forall f | f in db.files :: RecordOk(db, f) && Served(db, f))
    && (forall f | Legacy(f) in db.disk :: LegacyOk(db, f))
    && (forall k | k in db.items :: ItemOk(db, k.1, db.items[k]))
  }

  // ----- the inductive invariant: actors ------------------------------------------------------

  predicate Held(u: Upload) { !u.Loaded? }

  ghost predicate UploadOk(db: Store, u: Upload) {
    var f, k := u.file, u.key;
    && f in db.issued && k.file == f && !k.Legacy?
    && (f in db.files ==> if k.Target? then db.files[f].key == k else db.files[f].key.Issued?)
    && (Held(u) && f in db.files ==>
          k.Issued? && k in db.disk && !(db.files[f].pass && db.files[f].key == k))
    && (u.Published? && f in db.files ==> db.disk[k] == u.content)
  }

  // Two uploads that hold the same key: only after the record is gone.
  predicate Exclusive(db: Store, u: Upload, v: Upload) {
    Held(u) && Held(v) && u.key == v.key ==> u.file !in db.files
  }

  ghost predicate UploadsOk(db: Store, uploads: map<nat, Upload>) {
    && (forall u | u in uploads :: UploadOk(db, uploads[u]))
    && (forall u, v | u in uploads && v in uploads && u != v :: Exclusive(db, uploads[u], uploads[v]))
  }

  ghost predicate RemovalOk(db: Store, r: Removal) {
    match r
    case Collected(keys) => forall f | f in keys :: f in db.issued && keys[f].file == f
    case Removing(ks) => forall k | k in ks :: k.file in db.issued && k.file !in db.files
  }

  ghost predicate DeletesOk(db: Store, deletes: map<nat, Removal>) {
    forall d | d in deletes :: RemovalOk(db, deletes[d])
  }

  // While the record is still at its legacy key, the hashed target object stays as it was.
  ghost predicate TargetHolds(db: Store, f: FileId, it: Item) {
    it.outputSha.Some? &&
    (f in db.files && db.files[f].key == Legacy(f) ==>
       Target(f) in db.disk && db.disk[Target(f)] == it.outputSha.value)
  }

  ghost predicate Works(db: Store, run: RunId, f: FileId) {
    IsLegacy(db, f) && (run, f) in db.items && InFlight(db.items[(run, f)])
  }

  ghost predicate Copy(db: Store, run: RunId, f: FileId, it: Item, status: Status) {
    Works(db, run, f) && db.items[(run, f)] == it && it.status == status
  }

  ghost predicate Content(db: Store, f: FileId, c: Blob) { IsLegacy(db, f) && f in db.original && db.original[f] == c }

  ghost predicate Output(db: Store, f: FileId, out: Blob) {
    IsLegacy(db, f) && f in db.original && (db.original[f], out) in db.outputs
  }

  ghost predicate NotCommitted(db: Store, run: RunId, f: FileId) {
    (run, f) in db.items ==> db.items[(run, f)].status != Committed
  }

  ghost predicate ApplyPcOk(db: Store, run: RunId, pc: ApplyPc) {
    match pc
    case Loop => true
    case Inspect(f, it) => Works(db, run, f) && db.items[(run, f)] == it
    case SetPending(f) => Works(db, run, f)
    case SetFailed(f) => Works(db, run, f)
    case SetStaged(f, it) => Copy(db, run, f, it, Processing) && it.outputSha.Some?
    case CheckTarget(f, it, _) => Copy(db, run, f, it, Staged)
    case ReadRecord(f, it, _) => Copy(db, run, f, it, Staged) && TargetHolds(db, f, it)
    case CheckSource(f, it, _) => Copy(db, run, f, it, Staged) && TargetHolds(db, f, it)
    case Switch(f, it, _) => Copy(db, run, f, it, Staged) && TargetHolds(db, f, it)
    case Confirm(f, it, _) => Copy(db, run, f, it, Staged) && AtTarget(db, f)
    case ReadSource(f) => IsLegacy(db, f) && NotCommitted(db, run, f)
    case CreateItem(f, c) => Content(db, f, c) && NotCommitted(db, run, f)
    case MarkProcessing(f, c) => Content(db, f, c) && NotCommitted(db, run, f)
    case Process(f, c) => Content(db, f, c) && Works(db, run, f)
    case Publish(f, out) => Output(db, f, out) && Works(db, run, f)
    case WriteOut(f, out) => Output(db, f, out) && Works(db, run, f) && (f in db.files ==> db.files[f].key != Target(f))
    case HashSource(f, out) => Output(db, f, out) && Works(db, run, f)
    case Stage(f, out, sha) => Output(db, f, out) && Content(db, f, sha) && Works(db, run, f)
    case Reload(f) => Works(db, run, f) && db.items[(run, f)].status == Staged
  }

  ghost predicate CleanItem(db: Store, f: FileId, it: Item, gone: bool) {
    && f in db.issued && it.source == Legacy(f) && it.target == Target(f)
    && AtTarget(db, f) && (gone ==> f !in db.files)
  }

  ghost predicate CleanPcOk(db: Store, pc: CleanPc) {
    match pc
    case CleanRecord(f, it) => CleanItem(db, f, it, false)
    case CleanTarget(f, it) => CleanItem(db, f, it, false)
    case CleanCount(f, it) => CleanItem(db, f, it, false)
    case HashOld(f, it, gone) => CleanItem(db, f, it, gone)
    case RemoveOld(f, it, gone) => CleanItem(db, f, it, gone)
    case HashNew(f, it) => CleanItem(db, f, it, true)
    case RemoveNew(f, it) => CleanItem(db, f, it, true)
    case _ => true
  }

  predicate Busy(pc: ApplyPc, f: FileId) { !pc.Loop? && pc.f == f }

  ghost predicate CommandOk(db: Store, c: Command) {
    match c
    case Down => true
    case Applying(run, recover, todo, _, pc) =>
      && (forall f | f in recover :: Works(db, run, f) && !Busy(pc, f))
      && (todo.Some? ==> recover == {} && forall f | f in todo.value :: IsLegacy(db, f))
      && ApplyPcOk(db, run, pc)
    case Cleaning(run, left, pc) =>
      && (forall f | f in left :: (run, f) in db.items && db.items[(run, f)].status == Committed)
      && CleanPcOk(db, pc)
  }

  ghost predicate Inv(s: State) {
    StoreOk(s.db) && UploadsOk(s.db, s.uploads) && DeletesOk(s.db, s.deletes) && CommandOk(s.db, s.command)
  }

  // ----- what a step of one actor may do to the facts of the others ---------------------------

  // Ids are not reused, target keys are final, the class of a key is fixed, histories grow.
  ghost predicate Evolves(a: Store, b: Store) {
    && a.issued <= b.issued && a.outputs <= b.outputs
    && (forall f | f in a.issued && f in b.files ::
          && f in a.files && (b.files[f].key.Issued? <==> a.files[f].key.Issued?)
          && (a.files[f].key.Target? ==> b.files[f].key == a.files[f].key))
    && (forall f | f in a.original && IsLegacy(a, f) :: f in b.original && b.original[f] == a.original[f])
  }

  // Nobody but the backfill command writes a target object or an item.
  ghost predicate KeepsCommand(a: Store, b: Store) {
    && Evolves(a, b) && a.items == b.items
    && (forall f | f in a.issued && f in b.files && !b.files[f].key.Issued? :: b.files[f] == a.files[f])
    && (forall f | f in b.files && b.files[f].key == Legacy(f) && Target(f) in a.disk ::
          Target(f) in b.disk && b.disk[Target(f)] == a.disk[Target(f)])
  }

  // Objects under issued keys and their records belong to the uploads.
  ghost predicate KeepsUploads(a: Store, b: Store) {
    && Evolves(a, b)
    && (forall f | f in a.files && f in b.files && a.files[f].key.Issued? :: b.files[f] == a.files[f])
    && (forall k | k in a.disk && k.Issued? && k.file in b.files :: k in b.disk && b.disk[k] == a.disk[k])
  }

  lemma ItemsStable(a: Store, b: Store)
    requires StoreOk(a) && Evolves(a, b) && a.items == b.items
    ensures forall k | k in b.items :: ItemOk(b, k.1, b.items[k])
  {
    forall k | k in b.items
      ensures ItemOk(b, k.1, b.items[k])
    {
      assert ItemOk(a, k.1, a.items[k]);
      var f := k.1;
      if f in b.files { assert f in a.files && RecordOk(a, f); }
    }
  }

  lemma ApplyPcStable(a: Store, b: Store, run: RunId, pc: ApplyPc)
    requires StoreOk(a) && KeepsCommand(a, b) && ApplyPcOk(a, run, pc)
    ensures ApplyPcOk(b, run, pc)
  {
    if !pc.Loop? {
      assert IsLegacy(a, pc.f);
      if pc.f in b.files { assert RecordOk(a, pc.f); }
    }
  }

  lemma CommandStable(a: Store, b: Store, c: Command)
    requires StoreOk(a) && KeepsCommand(a, b) && CommandOk(a, c)
    ensures CommandOk(b, c)
  {
    if c.Applying? { ApplyPcStable(a, b, c.run, c.pc); }
  }

  lemma UploadStable(a: Store, b: Store, u: Upload)
    requires KeepsUploads(a, b) && UploadOk(a, u)
    ensures UploadOk(b, u)
  {
  }

  lemma UploadsStable(a: Store, b: Store, uploads: map<nat, Upload>)
    requires KeepsUploads(a, b) && UploadsOk(a, uploads)
    ensures UploadsOk(b, uploads)
  {
    forall u | u in uploads ensures UploadOk(b, uploads[u]) { UploadStable(a, b, uploads[u]); }
    forall u, v | u in uploads && v in uploads && u != v
      ensures Exclusive(b, uploads[u], uploads[v])
    {
      assert UploadOk(a, uploads[u]) && Exclusive(a, uploads[u], uploads[v]);
    }
  }

  lemma DeletesStable(a: Store, b: Store, deletes: map<nat, Removal>)
    requires Evolves(a, b) && DeletesOk(a, deletes)
    ensures DeletesOk(b, deletes)
  {
    forall d | d in deletes ensures RemovalOk(b, deletes[d]) {
      assert RemovalOk(a, deletes[d]);
    }
  }

  // ----- the effects on the stores --------------------------------------------------------------

  // The object at k changes or goes, and no accepted record is at k.
  ghost predicate OnlyObject(a: Store, b: Store, k: Key) {
    && b == a.(disk := b.disk)
    && (forall j | j != k :: (j in a.disk <==> j in b.disk) && (j in a.disk ==> a.disk[j] == b.disk[j]))
    && (k.file in a.files && a.files[k.file].key == k ==> !a.files[k.file].pass)
    && (k.Legacy? ==> k !in b.disk)
  }

  lemma ObjectOk(a: Store, b: Store, k: Key)
    requires StoreOk(a) && OnlyObject(a, b, k)
    ensures StoreOk(b) && Evolves(a, b)
  {
    ItemsStable(a, b);
    forall f | f in b.files
      ensures RecordOk(b, f) && Served(b, f)
    {
      assert RecordOk(a, f) && Served(a, f);
    }
    forall f | Legacy(f) in b.disk
      ensures LegacyOk(b, f)
    {
      assert LegacyOk(a, f);
    }
  }

  lemma PresignOk(a: Store, f: FileId, kind: Kind, ext: nat)
    requires StoreOk(a)
    ensures var b := Presign(a, f, kind, ext); StoreOk(b) && KeepsCommand(a, b) && KeepsUploads(a, b)
  {
    var b := Presign(a, f, kind, ext);
    if f !in a.issued {
      forall g | g in b.files ensures RecordOk(b, g) && Served(b, g) {
        if g != f { assert RecordOk(a, g) && Served(a, g); }
      }
      forall g | Legacy(g) in b.disk ensures LegacyOk(b, g) { assert LegacyOk(a, g); }
      forall g | g in a.files ensures g != f { assert RecordOk(a, g); }
      ItemsStable(a, b);
    }
  }

  lemma DropOk(a: Store, ids: set<FileId>)
    requires StoreOk(a)
    ensures var b := DropRecords(a, ids); StoreOk(b) && KeepsCommand(a, b) && KeepsUploads(a, b)
  {
    var b := DropRecords(a, ids);
    forall f | f in b.files ensures RecordOk(b, f) && Served(b, f) { assert RecordOk(a, f) && Served(a, f); }
    forall f | Legacy(f) in b.disk ensures LegacyOk(b, f) { assert LegacyOk(a, f); }
    ItemsStable(a, b);
  }

  lemma AcceptOk(a: Store, f: FileId, k: Key, c: Blob)
    requires StoreOk(a) && UploadOk(a, Published(f, k, c))
    ensures var b := AcceptRecord(a, f, k, c); StoreOk(b) && KeepsCommand(a, b)
  {
    var b := AcceptRecord(a, f, k, c);
    if f in a.files {
      forall g | g in b.files ensures RecordOk(b, g) && Served(b, g) {
        assert RecordOk(a, g) && Served(a, g);
      }
      forall g | Legacy(g) in b.disk ensures LegacyOk(b, g) { assert LegacyOk(a, g); }
      ItemsStable(a, b);
    }
  }

  // ----- steps of uploads and deletes -----------------------------------------------------------

  // The other uploads when upload u changes only the object it holds, or its own record.
  lemma OtherUploads(s: State, u: nat, b: Store)
    requires Inv(s) && u in s.uploads && (Held(s.uploads[u]) || s.uploads[u].key !in s.db.disk)
    requires Evolves(s.db, b)
    requires OnlyObject(s.db, b, s.uploads[u].key)
          || (s.uploads[u].Published?
              && b == AcceptRecord(s.db, s.uploads[u].file, s.uploads[u].key, s.uploads[u].content))
    ensures UploadsOk(b, s.uploads - {u})
  {
    var rest := s.uploads - {u};
    var me := s.uploads[u];
    assert UploadOk(s.db, me);
    forall v | v in rest ensures UploadOk(b, rest[v]) {
      assert UploadOk(s.db, rest[v]) && Exclusive(s.db, me, rest[v]);
    }
    forall v, w | v in rest && w in rest && v != w ensures Exclusive(b, rest[v], rest[w]) {
      assert UploadOk(s.db, rest[v]) && Exclusive(s.db, rest[v], rest[w]);
    }
  }

  // Upload u goes on as `up` and is now the only one holding its key, or its record is gone.
  lemma AddUpload(db: Store, uploads: map<nat, Upload>, u: nat, up: Upload)
    requires UploadsOk(db, uploads - {u}) && UploadOk(db, up)
    requires forall v | v in uploads && v != u :: Exclusive(db, up, uploads[v])
    ensures UploadsOk(db, uploads[u := up])
  {
    var all, rest := uploads[u := up], uploads - {u};
    forall v | v in all ensures UploadOk(db, all[v]) {
      if v != u { assert UploadOk(db, rest[v]); }
    }
    forall v, w | v in all && w in all && v != w ensures Exclusive(db, all[v], all[w]) {
      if v == u { assert Exclusive(db, up, uploads[w]); }
      else if w == u { assert Exclusive(db, up, uploads[v]) && UploadOk(db, rest[v]); }
      else { assert Exclusive(db, rest[v], rest[w]); }
    }
  }

  // Publishing, finishing, giving up: the object of upload u changes.
  lemma UploadObjectInv(s: State, u: nat, b: Store)
    requires Inv(s) && u in s.uploads
    requires Held(s.uploads[u]) || s.uploads[u].key !in s.db.disk
    requires b == s.db.(disk := b.disk)
    requires forall j | j != s.uploads[u].key ::
      (j in s.db.disk <==> j in b.disk) && (j in s.db.disk ==> s.db.disk[j] == b.disk[j])
    ensures StoreOk(b) && KeepsCommand(s.db, b) && UploadsOk(b, s.uploads - {u})
    ensures DeletesOk(b, s.deletes) && CommandOk(b, s.command)
  {
    var k := s.uploads[u].key;
    assert UploadOk(s.db, s.uploads[u]);
    if k.file in s.db.files { assert RecordOk(s.db, k.file) && Served(s.db, k.file); }
    assert OnlyObject(s.db, b, k);
    ObjectOk(s.db, b, k);
    OtherUploads(s, u, b);
    DeletesStable(s.db, b, s.deletes);
    CommandStable(s.db, b, s.command);
  }

  lemma HolderExclusive(s: State, u: nat, b: Store, up: Upload)
    requires Inv(s) && u in s.uploads && b.files == s.db.files
    requires up.key == s.uploads[u].key && up.file == s.uploads[u].file
    requires Held(s.uploads[u]) || up.key !in s.db.disk
    ensures forall v | v in s.uploads && v != u :: Exclusive(b, up, s.uploads[v])
  {
    assert UploadOk(s.db, s.uploads[u]);
    forall v | v in s.uploads && v != u ensures Exclusive(b, up, s.uploads[v]) {
      assert UploadOk(s.db, s.uploads[v]) && Exclusive(s.db, s.uploads[u], s.uploads[v]);
    }
  }

  lemma UploadMoveInv(s: State, u: nat, b: Store, up: Upload)
    requires Inv(s) && u in s.uploads
    requires up.key == s.uploads[u].key && up.file == s.uploads[u].file && Held(up)
    requires Held(s.uploads[u]) || up.key !in s.db.disk
    requires b == s.db.(disk := b.disk)
    requires forall j | j != up.key ::
      (j in s.db.disk <==> j in b.disk) && (j in s.db.disk ==> s.db.disk[j] == b.disk[j])
    requires up.file in s.db.files ==> up.key in b.disk && (up.Published? ==> b.disk[up.key] == up.content)
    ensures Inv(MoveUpload(s, u, b, up))
  {
    UploadObjectInv(s, u, b);
    HolderExclusive(s, u, b, up);
    assert UploadOk(s.db, s.uploads[u]);
    if up.file in s.db.files { assert RecordOk(s.db, up.file) && Served(s.db, up.file); }
    AddUpload(b, s.uploads, u, up);
  }

  lemma LoadInv(s: State, u: nat, a: UploadAction, partial: Blob)
    requires Inv(s) && u !in s.uploads
    ensures Inv(UploadStep(s, u, a, partial))
  {
    if a.Load? && a.file in s.db.files && a.content != "" {
      assert RecordOk(s.db, a.file);
      match UploadKey(s.db.files[a.file], a.ext)
      case None =>
      case Some(k) =>
        assert s.uploads - {u} == s.uploads;
        AddUpload(s.db, s.uploads, u, Loaded(a.file, k, a.content));
    }
  }

  lemma UploadInv(s: State, u: nat, a: UploadAction, partial: Blob)
    requires Inv(s)
    ensures Inv(UploadStep(s, u, a, partial))
  {
    if u !in s.uploads {
      LoadInv(s, u, a, partial);
    } else {
      var me := s.uploads[u];
      assert UploadOk(s.db, me);
      match (a, me)
      case (PublishLink, Loaded(f, k, c)) =>
        if k !in s.db.disk { UploadMoveInv(s, u, PutObject(s.db, k, c), Published(f, k, c)); }
      case (PublishCreate, Loaded(f, k, c)) =>
        if k !in s.db.disk { UploadMoveInv(s, u, PutObject(s.db, k, partial), Writing(f, k, c)); }
      case (FinishWrite, Writing(f, k, c)) => UploadMoveInv(s, u, WriteThrough(s.db, k, c), Published(f, k, c));
      case (FailWrite, Writing(f, k, c)) => UploadObjectInv(s, u, Unlink(s.db, k));
      case (UpdateRecord, Published(f, k, c)) =>
        var b := AcceptRecord(s.db, f, k, c);
        AcceptOk(s.db, f, k, c);
        OtherUploads(s, u, b);
        DeletesStable(s.db, b, s.deletes);
        CommandStable(s.db, b, s.command);
      case (UpdateFails, Published(f, k, c)) => UploadMoveInv(s, u, s.db, Undoing(f, k, c));
      case (Undo, Undoing(f, k, c)) => UploadObjectInv(s, u, Unlink(s.db, k));
      case _ =>
    }
  }

  lemma DeleteInv(s: State, d: nat, a: DeleteAction)
    requires Inv(s)
    ensures Inv(DeleteStep(s, d, a))
  {
    if d !in s.deletes {
      forall f | f in s.db.files ensures RecordOk(s.db, f) {}
    } else {
      assert RemovalOk(s.db, s.deletes[d]);
      match (a, s.deletes[d])
      case (CommitDelete, Collected(keys)) =>
        var b := DropRecords(s.db, keys.Keys);
        DropOk(s.db, keys.Keys);
        UploadsStable(s.db, b, s.uploads);
        DeletesStable(s.db, b, s.deletes);
        CommandStable(s.db, b, s.command);
      case (Remove(k), Removing(ks)) =>
        if k in ks {
          var b := Unlink(s.db, k);
          ObjectOk(s.db, b, k);
          UploadsStable(s.db, b, s.uploads);
          DeletesStable(s.db, b, s.deletes);
          CommandStable(s.db, b, s.command);
        }
      case _ =>
    }
  }

  // ----- steps of the backfill command -----------------------------------------------------------

  // The command moved on: its stores are sound and the other actors kept their facts.
  lemma CommandMoves(s: State, b: Store, c: Command)
    requires Inv(s) && StoreOk(b) && KeepsUploads(s.db, b) && CommandOk(b, c)
    ensures Inv(s.(db := b, command := c))
  {
    UploadsStable(s.db, b, s.uploads);
    DeletesStable(s.db, b, s.deletes);
  }

  lemma ItemWrite(s: State, f: FileId, it: Item, pc: ApplyPc)
    requires Inv(s) && s.command.Applying? && Busy(s.command.pc, f) && ItemOk(s.db, f, it)
    requires pc.Loop? || pc.f == f
    requires ApplyPcOk(PutItem(s.db, s.command.run, f, it), s.command.run, pc)
    ensures Inv(To(s, PutItem(s.db, s.command.run, f, it), pc))
  {
    var c := s.command;
    var b := PutItem(s.db, c.run, f, it);
    forall k | k in b.items ensures ItemOk(b, k.1, b.items[k]) {
      if k != (c.run, f) { assert ItemOk(s.db, k.1, s.db.items[k]); }
    }
    forall g | g in b.files ensures RecordOk(b, g) && Served(b, g) { assert RecordOk(s.db, g) && Served(s.db, g); }
    forall g | Legacy(g) in b.disk ensures LegacyOk(b, g) { assert LegacyOk(s.db, g); }
    forall g | g in c.recover ensures Works(b, c.run, g) { assert Works(s.db, c.run, g) && g != f; }
    CommandMoves(s, b, c.(pc := pc));
  }

  lemma JumpInv(s: State, pc: ApplyPc)
    requires Inv(s) && s.command.Applying?
    requires !pc.Loop? ==> Busy(s.command.pc, pc.f)
    requires ApplyPcOk(s.db, s.command.run, pc)
    ensures Inv(To(s, s.db, pc))
  {
  }

  // Writing or removing the target object of the current file while its record is not there.
  lemma TargetWrite(s: State, f: FileId, b: Store, pc: ApplyPc)
    requires Inv(s) && s.command.Applying? && Busy(s.command.pc, f) && Busy(pc, f)
    requires OnlyObject(s.db, b, Target(f))
    requires ApplyPcOk(b, s.command.run, pc)
    ensures Inv(To(s, b, pc))
  {
    var c := s.command;
    ObjectOk(s.db, b, Target(f));
    forall g | g in c.recover ensures Works(b, c.run, g) { assert Works(s.db, c.run, g); }
    CommandMoves(s, b, c.(pc := pc));
  }

  lemma BeginInv(s: State, e: Env)
    requires Inv(s) && s.command.Applying? && (s.command.pc.CreateItem? || s.command.pc.MarkProcessing?)
    ensures Inv(PrepareStep(s, e))
  {
    var db, run, f := s.db, s.command.run, s.command.pc.f;
    var t := PrepareStep(s, e);
    if t.db == db {
      JumpInv(s, t.command.pc);
    } else if s.command.pc.CreateItem? {
      ItemWrite(s, f, NewItem(f), t.command.pc);
    } else {
      assert ItemOk(db, f, db.items[(run, f)]);
      ItemWrite(s, f, ProcessingItem(db.items[(run, f)], f), t.command.pc);
    }
  }

  lemma PrepareInv(s: State, e: Env)
    requires Inv(s) && s.command.Applying?
    ensures Inv(PrepareStep(s, e))
  {
    match s.command.pc
    case ReadSource(f) =>
      if Legacy(f) in s.db.disk { assert LegacyOk(s.db, f); }
      JumpInv(s, PrepareStep(s, e).command.pc);
    case CreateItem(_, _) => BeginInv(s, e);
    case MarkProcessing(_, _) => BeginInv(s, e);
    case Process(f, c) =>
      if e.fails || e.bytes == "" { JumpInv(s, SetFailed(f)); } else { OutputInv(s, f, c, e.bytes); }
    case _ =>
  }

  lemma OutputInv(s: State, f: FileId, c: Blob, out: Blob)
    requires Inv(s) && s.command.Applying? && s.command.pc == Process(f, c)
    ensures Inv(To(s, s.db.(outputs := s.db.outputs + {(c, out)}), Publish(f, out)))
  {
    var b := s.db.(outputs := s.db.outputs + {(c, out)});
    ItemsStable(s.db, b);
    forall g | g in b.files ensures RecordOk(b, g) && Served(b, g) { assert RecordOk(s.db, g) && Served(s.db, g); }
    forall g | Legacy(g) in b.disk ensures LegacyOk(b, g) { assert LegacyOk(s.db, g); }
    forall g | g in s.command.recover ensures Works(b, s.command.run, g) { assert Works(s.db, s.command.run, g); }
    CommandMoves(s, b, s.command.(pc := Publish(f, out)));
  }

  lemma PublishInv(s: State, e: Env)
    requires Inv(s) && s.command.Applying?
    ensures Inv(PublishStep(s, e))
  {
    match s.command.pc
    case Publish(_, _) => CreateInv(s, e);
    case WriteOut(_, _) => WriteInv(s, e);
    case HashSource(_, _) => StageInv(s, e);
    case Stage(_, _, _) => StageInv(s, e);
    case Reload(_) => StageInv(s, e);
    case _ =>
  }

  lemma StageInv(s: State, e: Env)
    requires Inv(s) && s.command.Applying? && (s.command.pc.HashSource? || s.command.pc.Stage? || s.command.pc.Reload?)
    ensures Inv(PublishStep(s, e))
  {
    var db, run := s.db, s.command.run;
    match s.command.pc
    case HashSource(f, out) =>
      if Legacy(f) in db.disk { assert LegacyOk(db, f); }
      JumpInv(s, if e.fails || Legacy(f) !in db.disk then Loop else Stage(f, out, db.disk[Legacy(f)]));
    case Stage(f, out, sha) =>
      if e.fails { JumpInv(s, Loop); }
      else { ItemWrite(s, f, StagedItem(db.items[(run, f)], f, sha, out), Reload(f)); }
    case Reload(f) =>
      JumpInv(s, if e.fails then Loop else CheckTarget(f, db.items[(run, f)], false));
    case _ =>
  }

  lemma CreateInv(s: State, e: Env)
    requires Inv(s) && s.command.Applying? && s.command.pc.Publish?
    ensures Inv(PublishStep(s, e))
  {
    var f, out := s.command.pc.f, s.command.pc.out;
    if e.fails || Target(f) in s.db.disk {
      JumpInv(s, SetFailed(f));
    } else {
      NotAtFreeTarget(s.db, f);
      if e.flag { TargetWrite(s, f, PutObject(s.db, Target(f), out), HashSource(f, out)); }
      else { TargetWrite(s, f, PutObject(s.db, Target(f), e.bytes), WriteOut(f, out)); }
    }
  }

  // A record at its target key has its object.
  lemma NotAtFreeTarget(db: Store, f: FileId)
    requires StoreOk(db) && Target(f) !in db.disk
    ensures f in db.files ==> db.files[f].key != Target(f)
  {
    if f in db.files { assert RecordOk(db, f) && Served(db, f); }
  }

  lemma WriteInv(s: State, e: Env)
    requires Inv(s) && s.command.Applying? && s.command.pc.WriteOut?
    ensures Inv(PublishStep(s, e))
  {
    var t := PublishStep(s, e);
    WriteEffect(s, e);
    TargetWrite(s, s.command.pc.f, t.db, t.command.pc);
  }

  lemma WriteEffect(s: State, e: Env)
    requires CommandOk(s.db, s.command) && s.command.Applying? && s.command.pc.WriteOut?
    ensures var t, f := PublishStep(s, e), s.command.pc.f;
      && t == To(s, t.db, t.command.pc) && Busy(t.command.pc, f) && OnlyObject(s.db, t.db, Target(f))
      && ApplyPcOk(t.db, s.command.run, t.command.pc)
  {
  }

  lemma RecoverWriteInv(s: State, e: Env)
    requires Inv(s) && s.command.Applying?
    ensures Inv(RecoverWriteStep(s, e))
  {
    var db, run := s.db, s.command.run;
    var pc := s.command.pc;
    if !e.fails && (pc.SetPending? || pc.SetStaged? || pc.SetFailed?) && (run, pc.f) in db.items {
      var it := db.items[(run, pc.f)];
      assert ItemOk(db, pc.f, it);
      match pc
      case SetPending(f) => ItemWrite(s, f, it.(status := Pending), Loop);
      case SetStaged(f, jt) => ItemWrite(s, f, it.(status := Staged), CheckTarget(f, jt.(status := Staged), true));
      case SetFailed(f) => ItemWrite(s, f, it.(status := Failed), Loop);
      case _ =>
    }
  }

  function Switched(db: Store, run: RunId, f: FileId, it: Item, now: int): Store
    requires f in db.files && (run, f) in db.items
  { PutItem(MoveRecord(db, f, it), run, f, CommittedItem(db.items[(run, f)], now)) }

  lemma SwitchEvolves(db: Store, run: RunId, f: FileId, it: Item, now: int)
    requires StoreOk(db) && CanMove(db, f, it) && ApplyPcOk(db, run, Switch(f, it, true))
    ensures KeepsUploads(db, Switched(db, run, f, it, now))
  {
    assert ItemOk(db, f, it) && RecordOk(db, f);
  }

  lemma SwitchRecords(db: Store, run: RunId, f: FileId, it: Item, now: int)
    requires StoreOk(db) && CanMove(db, f, it) && ApplyPcOk(db, run, Switch(f, it, true))
    ensures var b := Switched(db, run, f, it, now);
      (forall g | g in b.files :: RecordOk(b, g) && Served(b, g)) && (forall g | Legacy(g) in b.disk :: LegacyOk(b, g))
  {
    var b := Switched(db, run, f, it, now);
    assert ItemOk(db, f, it) && RecordOk(db, f) && Served(db, f);
    forall g | g in b.files ensures RecordOk(b, g) && Served(b, g) { assert RecordOk(db, g) && Served(db, g); }
    forall g | Legacy(g) in b.disk ensures LegacyOk(b, g) { assert LegacyOk(db, g); }
  }

  lemma SwitchItems(db: Store, run: RunId, f: FileId, it: Item, now: int)
    requires StoreOk(db) && CanMove(db, f, it) && ApplyPcOk(db, run, Switch(f, it, true))
    ensures StoreOk(Switched(db, run, f, it, now))
  {
    var b := Switched(db, run, f, it, now);
    SwitchRecords(db, run, f, it, now);
    assert ItemOk(db, f, it);
    forall j | j in b.items ensures ItemOk(b, j.1, b.items[j]) {
      assert ItemOk(db, j.1, db.items[j]);
      if j.1 in b.files { assert RecordOk(db, j.1); }
    }
  }

  // The record moves to its target key and the item is committed, both at once.
  lemma SwitchInv(s: State, f: FileId, it: Item, r: bool, now: int)
    requires Inv(s) && s.command.Applying? && s.command.pc == Switch(f, it, r) && CanMove(s.db, f, it)
    ensures Inv(To(s, Switched(s.db, s.command.run, f, it, now), Loop))
  {
    var db, c := s.db, s.command;
    var b := Switched(db, c.run, f, it, now);
    assert ItemOk(db, f, it);
    SwitchItems(db, c.run, f, it, now);
    SwitchEvolves(db, c.run, f, it, now);
    SwitchCommand(db, c, f, it, now);
    CommandMoves(s, b, c.(pc := Loop));
  }

  lemma SwitchCommand(db: Store, c: Command, f: FileId, it: Item, now: int)
    requires CommandOk(db, c) && c.Applying? && c.pc.Switch? && c.pc.f == f && c.pc.it == it && CanMove(db, f, it)
    requires it.target == Target(f)
    ensures CommandOk(Switched(db, c.run, f, it, now), c.(pc := Loop))
  {
    var b := Switched(db, c.run, f, it, now);
    forall g | g in c.recover ensures Works(b, c.run, g) { assert Works(db, c.run, g) && g != f; }
  }

  // The digest checks and the reading of the record.
  lemma CommitTestInv(s: State, e: Env)
    requires Inv(s) && s.command.Applying?
    requires s.command.pc.CheckTarget? || s.command.pc.ReadRecord? || s.command.pc.CheckSource?
    ensures Inv(CommitStep(s, e))
  {
    assert ItemOk(s.db, s.command.pc.f, s.command.pc.it);
    assert CommitStep(s, e).db == s.db;
    JumpInv(s, CommitStep(s, e).command.pc);
  }

  lemma ConfirmInv(s: State, e: Env)
    requires Inv(s) && s.command.Applying? && s.command.pc.Confirm?
    ensures Inv(CommitStep(s, e))
  {
    var db, run, f := s.db, s.command.run, s.command.pc.f;
    assert ItemOk(db, f, s.command.pc.it);
    if e.fails {
      JumpInv(s, AfterFailedCommit(f, s.command.pc.recovering));
    } else {
      ItemWrite(s, f, CommittedItem(db.items[(run, f)], e.now), Loop);
    }
  }

  lemma CommitInv(s: State, e: Env)
    requires Inv(s) && s.command.Applying?
    ensures Inv(CommitStep(s, e))
  {
    match s.command.pc
    case CheckTarget(_, _, _) => CommitTestInv(s, e);
    case ReadRecord(_, _, _) => CommitTestInv(s, e);
    case CheckSource(_, _, _) => CommitTestInv(s, e);
    case Switch(f, it, r) =>
      if !e.fails && CanMove(s.db, f, it) { SwitchInv(s, f, it, r, e.now); }
      else { JumpInv(s, AfterFailedCommit(f, r)); }
    case Confirm(_, _, _) => ConfirmInv(s, e);
    case _ =>
  }

  // A step that only moves the command.
  lemma CommandOnly(s: State, c: Command)
    requires Inv(s) && CommandOk(s.db, c)
    ensures Inv(s.(command := c))
  {
  }

  lemma CandidateOk(s: State, f: FileId, e: Env)
    requires StoreOk(s.db) && s.command.Applying? && IsLegacy(s.db, f)
    ensures ApplyPcOk(s.db, s.command.run, CandidatePc(s, f, e))
  {
    var k := (s.command.run, f);
    if k in s.db.items { assert ItemOk(s.db, k.1, s.db.items[k]); }
  }

  lemma LoopInv(s: State, f: FileId, e: Env)
    requires Inv(s) && s.command.Applying? && s.command.pc.Loop?
    ensures Inv(LoopStep(s, f, e))
  {
    forall g | g in s.db.files ensures RecordOk(s.db, g) {}
    if s.command.todo.Some? && f in s.command.todo.value { CandidateOk(s, f, e); }
    assert LoopStep(s, f, e).db == s.db;
    CommandOnly(s, LoopStep(s, f, e).command);
  }

  lemma ApplyInv(s: State, f: FileId, e: Env)
    requires Inv(s)
    ensures Inv(ApplyStep(s, f, e))
  {
    if s.command.Applying? {
      var pc := s.command.pc;
      if pc.Loop? { LoopInv(s, f, e); }
      else if pc.Inspect? { assert ItemOk(s.db, pc.f, pc.it); JumpInv(s, InspectPc(s.db, pc.f, pc.it, e.fails)); }
      else if pc.SetPending? || pc.SetStaged? || pc.SetFailed? { RecoverWriteInv(s, e); }
      else if pc.CheckTarget? || pc.ReadRecord? || pc.CheckSource? || pc.Switch? || pc.Confirm? { CommitInv(s, e); }
      else if pc.ReadSource? || pc.CreateItem? || pc.MarkProcessing? || pc.Process? { PrepareInv(s, e); }
      else { PublishInv(s, e); }
    }
  }

  // ----- cleanup ----------------------------------------------------------------------------------

  lemma CleanRemove(s: State, k: Key, pc: CleanPc)
    requires Inv(s) && s.command.Cleaning? && OnlyObject(s.db, Unlink(s.db, k), k) && !k.Issued?
    requires CleanPcOk(s.db, pc)
    ensures Inv(ToClean(s, Unlink(s.db, k), pc))
  {
    var b := Unlink(s.db, k);
    ObjectOk(s.db, b, k);
    CommandMoves(s, b, s.command.(cpc := pc));
  }

  lemma CleanWrite(s: State, f: FileId, status: CleanupStatus)
    requires Inv(s) && s.command.Cleaning?
    ensures Inv(ToClean(s, PutCleanup(s.db, s.command.run, f, status), CleanLoop))
  {
    var db, run := s.db, s.command.run;
    var b := PutCleanup(db, run, f, status);
    if (run, f) in db.items {
      forall k | k in b.items ensures ItemOk(b, k.1, b.items[k]) { assert ItemOk(db, k.1, db.items[k]); }
      forall g | g in b.files ensures RecordOk(b, g) && Served(b, g) { assert RecordOk(db, g) && Served(db, g); }
      forall g | Legacy(g) in b.disk ensures LegacyOk(b, g) { assert LegacyOk(db, g); }
      CommandMoves(s, b, s.command.(cpc := CleanLoop));
    }
  }

  lemma CleanTestOk(s: State, e: Env)
    requires CommandOk(s.db, s.command) && s.command.Cleaning?
    ensures CommandOk(s.db, CleanTestStep(s, e).command)
  {
  }

  lemma CleanTestInv(s: State, e: Env)
    requires Inv(s) && s.command.Cleaning?
    ensures Inv(CleanTestStep(s, e))
  {
    CleanTestOk(s, e);
    CommandOnly(s, CleanTestStep(s, e).command);
  }

  lemma CleanJump(s: State, pc: CleanPc)
    requires Inv(s) && s.command.Cleaning? && CleanPcOk(s.db, pc)
    ensures Inv(ToClean(s, s.db, pc))
  {
  }

  lemma CleanRemoveInv(s: State, e: Env)
    requires Inv(s) && s.command.Cleaning?
    ensures Inv(CleanRemoveStep(s, e))
  {
    var pc := s.command.cpc;
    if (pc.RemoveOld? || pc.RemoveNew?) && !e.fails { CleanUnlinkInv(s, e); } else { CleanHashInv(s, e); }
  }

  // The digest checks, and an unlink that fails.
  lemma CleanHashInv(s: State, e: Env)
    requires Inv(s) && s.command.Cleaning? && (e.fails || !(s.command.cpc.RemoveOld? || s.command.cpc.RemoveNew?))
    ensures Inv(CleanRemoveStep(s, e))
  {
    CleanHashOk(s, e);
    CleanJump(s, CleanRemoveStep(s, e).command.cpc);
  }

  lemma CleanHashOk(s: State, e: Env)
    requires CommandOk(s.db, s.command) && s.command.Cleaning?
    requires e.fails || !(s.command.cpc.RemoveOld? || s.command.cpc.RemoveNew?)
    ensures var t := CleanRemoveStep(s, e); t == ToClean(s, s.db, t.command.cpc) && CleanPcOk(s.db, t.command.cpc)
  {
  }

  lemma CleanUnlinkInv(s: State, e: Env)
    requires Inv(s) && s.command.Cleaning? && (s.command.cpc.RemoveOld? || s.command.cpc.RemoveNew?) && !e.fails
    ensures Inv(CleanRemoveStep(s, e))
  {
    var pc := s.command.cpc;
    if pc.RemoveOld? { CleanRemove(s, pc.it.source, AfterOld(pc.f, pc.it, pc.gone)); }
    else { CleanRemove(s, pc.it.target, CleanOk(pc.f)); }
  }

  lemma CleanWriteInv(s: State, f: FileId, e: Env)
    requires Inv(s) && s.command.Cleaning?
    ensures Inv(CleanWriteStep(s, f, e))
  {
    match s.command.cpc
    case CleanOk(g) => CleanWrite(s, g, CleanupDone);
    case CleanBad(g) => CleanWrite(s, g, CleanupFailed);
    case CleanLoop => if (s.command.run, f) in s.db.items { assert ItemOk(s.db, f, s.db.items[(s.command.run, f)]); }
    case _ =>
  }

  lemma CleanupInv(s: State, f: FileId, e: Env)
    requires Inv(s)
    ensures Inv(CleanupStep(s, f, e))
  {
    if s.command.Cleaning? {
      var pc := s.command.cpc;
      if pc.CleanRecord? || pc.CleanTarget? || pc.CleanCount? { CleanTestInv(s, e); }
      else if pc.HashOld? || pc.RemoveOld? || pc.HashNew? || pc.RemoveNew? { CleanRemoveInv(s, e); }
      else { CleanWriteInv(s, f, e); }
    }
  }

  lemma NextInv(s: State, a: Step)
    requires Inv(s)
    ensures Inv(Next(s, a))
  {
    match a
    case NewFile(f, kind, ext) =>
      var b := Presign(s.db, f, kind, ext);
      PresignOk(s.db, f, kind, ext);
      UploadsStable(s.db, b, s.uploads);
      DeletesStable(s.db, b, s.deletes);
      CommandStable(s.db, b, s.command);
    case UploadBy(u, act, partial) => UploadInv(s, u, act, partial);
    case DeleteBy(d, act) => DeleteInv(s, d, act);
    case BeginApply(run) => forall k | k in s.db.items ensures ItemOk(s.db, k.1, s.db.items[k]) {}
    case ApplyOne(f, e) => ApplyInv(s, f, e);
    case BeginCleanup(run, now) =>
    case CleanupOne(f, e) => CleanupInv(s, f, e);
    case Crash =>
  }

  lemma InitInv(s: State)
    requires Init(s)
    ensures Inv(s)
  {
    forall f | f in s.db.files ensures RecordOk(s.db, f) && Served(s.db, f) {}
    forall f | Legacy(f) in s.db.disk ensures LegacyOk(s.db, f) {
      assert s.db.original[Legacy(f).file] == s.db.disk[Legacy(f)];
    }
  }

  lemma {:induction false} RunInv(s: State, steps: seq<Step>)
    requires Inv(s)
    ensures Inv(Run(s, steps))
    decreases |steps|
  {
    if steps != [] {
      NextInv(s, steps[0]);
      RunInv(Next(s, steps[0]), steps[1..]);
    }
  }

  // ----- main results --------------------------------------------------------------------------

  /**
   In every state of every run each accepted file record has its object on disk: the original
   bytes, or at the target key a validated output of them. So no cleanup, failed upload or delete
   ever removes the only copy.
   */
  lemma AcceptedImagesAreServed(s: State, steps: seq<Step>)
    requires Init(s)
    ensures forall f :: Served(Run(s, steps).db, f)
  {
    InitInv(s);
    RunInv(s, steps);
    var db := Run(s, steps).db;
    forall f ensures Served(db, f) {
      if f in db.files { assert RecordOk(db, f) && Served(db, f); }
    }
  }

  // A committed item means: the record is at its target key, or was deleted.
  lemma CommittedMeansMoved(s: State, steps: seq<Step>)
    requires Init(s)
    ensures var db := Run(s, steps).db;
      forall k | k in db.items && db.items[k].status == Committed ::
        k.1 in db.files ==> db.files[k.1].key == db.items[k].target && db.files[k.1].pass
  {
    InitInv(s);
    RunInv(s, steps);
    var db := Run(s, steps).db;
    forall k | k in db.items && db.items[k].status == Committed
      ensures k.1 in db.files ==> db.files[k.1].key == db.items[k].target && db.files[k.1].pass
    {
      assert ItemOk(db, k.1, db.items[k]);
      if k.1 in db.files { assert RecordOk(db, k.1); }
    }
  }
}
