/**
 What the backfill ledger knows about target objects. While a record is at its legacy key, the digest
 an item of it holds is that of the object at the target key; an object that was published and not yet
 staged is known to no item. Hence what a crash between the two leaves behind.
 */
module ProductImagesTracking {
  import opened Wrappers
  import opened ProductImages
  import opened ProductImagesSafety
  import opened ProductImagesRecovery

  predicate AtLegacy(db: Store, f: FileId) { f in db.files && db.files[f].key == Legacy(f) }

  // ----- what uploads and deletes leave alone ------------------------------------------------------

  predicate SameObject(a: Store, b: Store, k: Key) {
    (k in b.disk <==> k in a.disk) && (k in b.disk ==> b.disk[k] == a.disk[k])
  }

  // A record the backfill may have to do with, with both its objects.
  ghost predicate RecordKept(a: Store, b: Store, f: FileId) {
    f in b.files && !b.files[f].key.Issued? ==>
      && f in a.files && b.files[f] == a.files[f]
      && SameObject(a, b, Legacy(f)) && SameObject(a, b, Target(f))
      && (f in a.original ==> f in b.original && b.original[f] == a.original[f])
  }

  ghost predicate OthersKeep(a: Store, b: Store) {
    && b.items == a.items && a.issued <= b.issued
    && (forall f :: RecordKept(a, b, f))
    && (forall f | f in b.files && f in a.issued ::
          f in a.files && (b.files[f].key.Issued? <==> a.files[f].key.Issued?))
    && (forall f | Legacy(f) in b.disk :: Legacy(f) in a.disk)
  }

  lemma OthersKeepBoth(a: Store, b: Store, c: Store)
    requires OthersKeep(a, b) && OthersKeep(b, c)
    ensures OthersKeep(a, c)
  {
    forall f ensures RecordKept(a, c, f) { assert RecordKept(b, c, f) && RecordKept(a, b, f); }
  }

  // The object of an upload is under no key of such a record.
  lemma UploadKeyApart(s: State, u: nat, f: FileId)
    requires Inv(s) && u in s.uploads && f in s.db.files && !s.db.files[f].key.Issued?
    ensures var up := s.uploads[u];
      up.key != Legacy(f) && (up.key == Target(f) ==> up.Loaded? && Target(f) in s.db.disk)
  {
    assert UploadOk(s.db, s.uploads[u]) && RecordOk(s.db, f) && Served(s.db, f);
  }

  // An upload adds no record, keeps the kind of every key, and writes under no legacy key.
  lemma UploadKeepsKinds(s: State, u: nat, a: UploadAction, partial: Blob)
    requires Inv(s) && u in s.uploads
    ensures var b := UploadStep(s, u, a, partial).db;
      && b.issued == s.db.issued && b.files.Keys == s.db.files.Keys
      && (forall f | f in b.files :: b.files[f].key.Issued? <==> s.db.files[f].key.Issued?)
      && (forall f | Legacy(f) in b.disk :: Legacy(f) in s.db.disk)
  {
    assert UploadOk(s.db, s.uploads[u]);
  }

  lemma UploadKeeps(s: State, u: nat, a: UploadAction, partial: Blob)
    requires Inv(s)
    ensures OthersKeep(s.db, UploadStep(s, u, a, partial).db)
  {
    UploadWritesNoItem(s, u, a, partial);
    if u in s.uploads {
      UploadKeepsKinds(s, u, a, partial);
      forall f ensures RecordKept(s.db, UploadStep(s, u, a, partial).db, f) { UploadKeepsRecord(s, u, a, partial, f); }
    }
  }

  lemma UploadKeepsRecord(s: State, u: nat, a: UploadAction, partial: Blob, f: FileId)
    requires Inv(s) && u in s.uploads
    ensures RecordKept(s.db, UploadStep(s, u, a, partial).db, f)
  {
    assert UploadOk(s.db, s.uploads[u]);
    if f in s.db.files {
      assert RecordOk(s.db, f);
      if !s.db.files[f].key.Issued? { UploadKeyApart(s, u, f); }
    }
  }

  lemma DeleteKeeps(s: State, d: nat, a: DeleteAction)
    requires Inv(s)
    ensures OthersKeep(s.db, DeleteStep(s, d, a).db)
  {
    var b := DeleteStep(s, d, a).db;
    if d in s.deletes {
      assert RemovalOk(s.db, s.deletes[d]);
      forall f ensures RecordKept(s.db, b, f) { }
    }
  }

  lemma PresignKeeps(a: Store, f: FileId, kind: Kind, ext: nat)
    ensures OthersKeep(a, Presign(a, f, kind, ext))
  {
  }

  // Steps of the server.
  predicate ByOthers(a: Step) { a.NewFile? || a.UploadBy? || a.DeleteBy? }

  lemma OthersStep(s: State, a: Step)
    requires Inv(s) && ByOthers(a)
    ensures Next(s, a).command == s.command && OthersKeep(s.db, Next(s, a).db)
  {
    match a
    case NewFile(f, kind, ext) => PresignKeeps(s.db, f, kind, ext);
    case UploadBy(u, act, partial) =>
      UploadWritesNoItem(s, u, act, partial);
      UploadKeeps(s, u, act, partial);
    case DeleteBy(d, act) =>
      DeleteWritesNoItem(s, d, act);
      DeleteKeeps(s, d, act);
    case _ =>
  }

  // ----- the invariant -----------------------------------------------------------------------------

  ghost predicate ItemTracked(db: Store, f: FileId, it: Item) {
    AtLegacy(db, f) ==>
      && db.files[f].pass && f in db.original && db.original[f] != ""
      && (it.outputSha.Some? ==> Target(f) in db.disk && db.disk[Target(f)] == it.outputSha.value)
  }

  ghost predicate ItemsTracked(db: Store) { forall k | k in db.items :: ItemTracked(db, k.1, db.items[k]) }

  // A record at its legacy key has items of one run only.
  ghost predicate OneRun(db: Store) {
    forall j, k | j in db.items && k in db.items && j.1 == k.1 && AtLegacy(db, j.1) :: j.0 == k.0
  }

  ghost predicate OnlyRun(db: Store, run: RunId, f: FileId) {
    AtLegacy(db, f) ==> db.files[f].pass && forall k | k in db.items && k.1 == f :: k.0 == run
  }

  ghost predicate NoDigest(db: Store, f: FileId) { forall k | k in db.items && k.1 == f :: db.items[k].outputSha.None? }

  // The target object was published and no item knows it yet.
  ghost predicate Unknown(db: Store, f: FileId) {
    f in db.files ==> AtLegacy(db, f) && Target(f) in db.disk && NoDigest(db, f)
  }

  ghost predicate UnknownOutput(db: Store, f: FileId, out: Blob) {
    Unknown(db, f) && (f in db.files ==> db.disk[Target(f)] == out)
  }

  ghost predicate PcTracked(db: Store, run: RunId, pc: ApplyPc) {
    match pc
    case ReadSource(f) => OnlyRun(db, run, f)
    case CreateItem(f, c) => OnlyRun(db, run, f) && c != ""
    case WriteOut(f, _) => Unknown(db, f)
    case HashSource(f, out) => UnknownOutput(db, f, out)
    case Stage(f, out, _) => UnknownOutput(db, f, out)
    case _ => true
  }

  ghost predicate CommandTracked(db: Store, c: Command) {
    c.Applying? ==>
      && PcTracked(db, c.run, c.pc)
      && (c.todo.Some? ==> forall f | f in c.todo.value && AtLegacy(db, f) :: db.files[f].pass)
  }

  ghost predicate Tracked(s: State) { ItemsTracked(s.db) && OneRun(s.db) && CommandTracked(s.db, s.command) }

  // ----- steps of the others -----------------------------------------------------------------------

  lemma OthersTracked(s: State, t: State)
    requires CommandOk(s.db, s.command) && Tracked(s) && OthersKeep(s.db, t.db) && t.command == s.command
    ensures Tracked(t)
  {
    forall f | AtLegacy(t.db, f) ensures AtLegacy(s.db, f) && SameObject(s.db, t.db, Target(f)) {
      assert RecordKept(s.db, t.db, f);
    }
    forall k | k in t.db.items ensures ItemTracked(t.db, k.1, t.db.items[k]) {
      assert ItemTracked(s.db, k.1, s.db.items[k]) && RecordKept(s.db, t.db, k.1);
    }
    if t.command.Applying? { PcKept(s.db, t.db, t.command.run, t.command.pc); }
    if t.command.Applying? && t.command.todo.Some? {
      forall f | f in t.command.todo.value && AtLegacy(t.db, f) ensures t.db.files[f].pass {
        assert RecordKept(s.db, t.db, f);
      }
    }
  }

  lemma PcKept(a: Store, b: Store, run: RunId, pc: ApplyPc)
    requires OthersKeep(a, b) && PcTracked(a, run, pc)
    requires (pc.WriteOut? || pc.HashSource? || pc.Stage?) ==> pc.f in a.issued
    ensures PcTracked(b, run, pc)
  {
    if !pc.Loop? { assert RecordKept(a, b, pc.f); }
  }

  // ----- steps of the command ----------------------------------------------------------------------

  // The item of a file that has none in the run yet.
  lemma NewItemTracked(s: State, f: FileId, content: Blob)
    requires Tracked(s) && s.command.Applying? && s.command.pc == CreateItem(f, content)
    requires Content(s.db, f, content)
    ensures ItemTracked(s.db, f, NewItem(f)) && OnlyRun(s.db, s.command.run, f)
  {
  }

  // Only the command moves.
  lemma JumpTracked(s: State, c: Command)
    requires Tracked(s) && CommandTracked(s.db, c)
    ensures Tracked(s.(command := c))
  {
  }

  // One item of the current file is written; its record is at the legacy key only if the run owns it.
  lemma ItemTrackedWrite(s: State, f: FileId, it: Item, c: Command)
    requires Tracked(s) && s.command.Applying? && OnlyRun(s.db, s.command.run, f)
    requires ItemTracked(s.db, f, it)
    requires CommandTracked(PutItem(s.db, s.command.run, f, it), c)
    ensures Tracked(State(PutItem(s.db, s.command.run, f, it), s.uploads, s.deletes, c))
  {
    var b := PutItem(s.db, s.command.run, f, it);
    forall k | k in b.items ensures ItemTracked(b, k.1, b.items[k]) {
      if k != (s.command.run, f) { assert ItemTracked(s.db, k.1, s.db.items[k]); }
    }
  }

  // An existing item of the run shows that the run owns the file.
  lemma ItemShowsRun(db: Store, run: RunId, f: FileId)
    requires ItemsTracked(db) && OneRun(db) && (run, f) in db.items
    ensures OnlyRun(db, run, f) && ItemTracked(db, f, db.items[(run, f)])
  {
    assert ItemTracked(db, f, db.items[(run, f)]);
    forall k | k in db.items && k.1 == f && AtLegacy(db, f) ensures k.0 == run { assert k.1 == (run, f).1; }
  }

  lemma CandidateTracked(s: State, f: FileId, e: Env)
    requires StoreOk(s.db) && Tracked(s) && s.command.Applying? && (AtLegacy(s.db, f) ==> s.db.files[f].pass)
    requires e.flag || !Unresolved(s.db, s.command.run, f)
    ensures PcTracked(s.db, s.command.run, CandidatePc(s, f, e))
  {
    if CandidatePc(s, f, e).ReadSource? && AtLegacy(s.db, f) {
      forall k | k in s.db.items && k.1 == f ensures k.0 == s.command.run {
        assert ItemOk(s.db, k.1, s.db.items[k]);
      }
    }
  }

  lemma LoopTracked(s: State, f: FileId, e: Env)
    requires Inv(s) && Tracked(s) && s.command.Applying? && s.command.pc.Loop?
    ensures Tracked(LoopStep(s, f, e))
  {
    var c := s.command;
    if c.todo.Some? && f in c.todo.value && (e.flag || !Unresolved(s.db, c.run, f)) { CandidateTracked(s, f, e); }
    assert LoopStep(s, f, e).db == s.db;
    JumpTracked(s, LoopStep(s, f, e).command);
  }

  lemma RecoverTracked(s: State, e: Env)
    requires Tracked(s) && s.command.Applying?
    ensures Tracked(RecoverWriteStep(s, e))
  {
    var db, c := s.db, s.command;
    var t := RecoverWriteStep(s, e);
    if t.db == s.db {
      JumpTracked(s, t.command);
    } else {
      ItemShowsRun(db, c.run, c.pc.f);
      ItemTrackedWrite(s, c.pc.f, t.db.items[(c.run, c.pc.f)], t.command);
    }
  }

  // A record at its target key is of no concern here; those of all other files are as they were.
  lemma SwitchItems(db: Store, run: RunId, f: FileId, it: Item, now: int)
    requires StoreOk(db) && ItemsTracked(db) && OneRun(db) && CanMove(db, f, it) && (run, f) in db.items
    requires it.target == Target(f)
    ensures ItemsTracked(Switched(db, run, f, it, now)) && OneRun(Switched(db, run, f, it, now))
  {
    var b := Switched(db, run, f, it, now);
    forall k | k in b.items ensures ItemTracked(b, k.1, b.items[k]) {
      if k.1 != f { assert ItemTracked(db, k.1, db.items[k]); }
    }
  }

  lemma SwitchTracked(s: State, f: FileId, it: Item, now: int, c: Command)
    requires Inv(s) && Tracked(s) && s.command.Applying?
    requires s.command.pc.Switch? && s.command.pc.f == f && s.command.pc.it == it
    requires CanMove(s.db, f, it) && c == s.command.(pc := Loop)
    ensures Tracked(State(Switched(s.db, s.command.run, f, it, now), s.uploads, s.deletes, c))
  {
    assert ItemOk(s.db, f, it);
    SwitchItems(s.db, s.command.run, f, it, now);
  }

  lemma ConfirmTracked(s: State, e: Env)
    requires Tracked(s) && s.command.Applying? && s.command.pc.Confirm?
    ensures Tracked(CommitStep(s, e))
  {
    var db, c := s.db, s.command;
    var f := c.pc.f;
    if !e.fails && (c.run, f) in db.items {
      ItemShowsRun(db, c.run, f);
      ItemTrackedWrite(s, f, CommittedItem(db.items[(c.run, f)], e.now), c.(pc := Loop));
    } else {
      JumpTracked(s, c.(pc := AfterFailedCommit(f, c.pc.recovering)));
    }
  }

  lemma CommitTracked(s: State, e: Env)
    requires Inv(s) && Tracked(s) && s.command.Applying?
    ensures Tracked(CommitStep(s, e))
  {
    var db, c := s.db, s.command;
    if c.pc.Switch? {
      var f, it := c.pc.f, c.pc.it;
      if !e.fails && CanMove(db, f, it) && (c.run, f) in db.items {
        SwitchTracked(s, f, it, e.now, c.(pc := Loop));
      } else {
        JumpTracked(s, c.(pc := AfterFailedCommit(f, c.pc.recovering)));
      }
    } else if c.pc.Confirm? {
      ConfirmTracked(s, e);
    } else {
      TestsTracked(s, e);
    }
  }

  lemma TestsTracked(s: State, e: Env)
    requires Tracked(s) && s.command.Applying? && !s.command.pc.Switch? && !s.command.pc.Confirm?
    ensures Tracked(CommitStep(s, e))
  {
    assert CommitStep(s, e).db == s.db;
    JumpTracked(s, CommitStep(s, e).command);
  }

  lemma BeginTracked(s: State, e: Env)
    requires Inv(s) && Tracked(s) && s.command.Applying? && (s.command.pc.CreateItem? || s.command.pc.MarkProcessing?)
    ensures Tracked(PrepareStep(s, e))
  {
    if s.command.pc.CreateItem? { CreateItemTracked(s, e); } else { ProcessingTracked(s, e); }
  }

  lemma CreateItemTracked(s: State, e: Env)
    requires Inv(s) && Tracked(s) && s.command.Applying? && s.command.pc.CreateItem?
    ensures Tracked(PrepareStep(s, e))
  {
    var f, t := s.command.pc.f, PrepareStep(s, e);
    if t.db == s.db {
      JumpTracked(s, t.command);
    } else {
      NewItemTracked(s, f, s.command.pc.content);
      ItemTrackedWrite(s, f, NewItem(f), t.command);
    }
  }

  lemma ProcessingTracked(s: State, e: Env)
    requires Tracked(s) && s.command.Applying? && s.command.pc.MarkProcessing?
    ensures Tracked(PrepareStep(s, e))
  {
    var c, f, t := s.command, s.command.pc.f, PrepareStep(s, e);
    if e.fails || (c.run, f) !in s.db.items {
      JumpTracked(s, t.command);
    } else {
      ItemShowsRun(s.db, c.run, f);
      ItemTrackedWrite(s, f, ProcessingItem(s.db.items[(c.run, f)], f), t.command);
    }
  }

  lemma PrepareTracked(s: State, e: Env)
    requires Inv(s) && Tracked(s) && s.command.Applying?
    ensures Tracked(PrepareStep(s, e))
  {
    if s.command.pc.CreateItem? || s.command.pc.MarkProcessing? {
      BeginTracked(s, e);
    } else {
      ReadingTracked(s, e);
    }
  }

  // Reading the source and processing write no item.
  lemma ReadingTracked(s: State, e: Env)
    requires Tracked(s) && s.command.Applying? && !s.command.pc.CreateItem? && !s.command.pc.MarkProcessing?
    ensures Tracked(PrepareStep(s, e))
  {
    if s.command.pc.ReadSource? { ReadSourceTracked(s, e); }
    else if s.command.pc.Process? { ProcessTracked(s, e); }
  }

  lemma ReadSourceTracked(s: State, e: Env)
    requires Tracked(s) && s.command.Applying? && s.command.pc.ReadSource?
    ensures Tracked(PrepareStep(s, e))
  {
    JumpTracked(s, PrepareStep(s, e).command);
  }

  lemma ProcessTracked(s: State, e: Env)
    requires Tracked(s) && s.command.Applying? && s.command.pc.Process?
    ensures Tracked(PrepareStep(s, e))
  {
    OutputsTracked(s, PrepareStep(s, e));
  }

  lemma OutputsTracked(s: State, t: State)
    requires Tracked(s) && t.db == s.db.(outputs := t.db.outputs) && CommandTracked(s.db, t.command)
    ensures Tracked(t)
  {
    forall k | k in t.db.items ensures ItemTracked(t.db, k.1, t.db.items[k]) {
      assert ItemTracked(s.db, k.1, s.db.items[k]);
    }
  }

  // The target object of the current file is written or removed while no item knows it.
  lemma TargetTracked(s: State, f: FileId, b: Store, c: Command)
    requires Tracked(s) && b == s.db.(disk := b.disk) && CommandTracked(b, c)
    requires forall k | k != Target(f) :: SameObject(s.db, b, k)
    requires AtLegacy(s.db, f) ==> NoDigest(s.db, f)
    ensures Tracked(State(b, s.uploads, s.deletes, c))
  {
    forall k | k in b.items ensures ItemTracked(b, k.1, b.items[k]) {
      assert ItemTracked(s.db, k.1, s.db.items[k]);
      assert k.1 != f ==> SameObject(s.db, b, Target(k.1));
    }
  }

  // A free target key: no item of the file has a digest, and the record is at its legacy key.
  lemma FreeTarget(s: State, f: FileId)
    requires Inv(s) && Tracked(s) && IsLegacy(s.db, f) && Target(f) !in s.db.disk
    ensures (AtLegacy(s.db, f) ==> NoDigest(s.db, f)) && (f in s.db.files ==> AtLegacy(s.db, f))
  {
    if f in s.db.files { assert RecordOk(s.db, f) && Served(s.db, f); }
    forall k | k in s.db.items && k.1 == f && AtLegacy(s.db, f) ensures s.db.items[k].outputSha.None? {
      assert ItemTracked(s.db, k.1, s.db.items[k]);
    }
  }

  lemma PublishTracked(s: State, e: Env)
    requires Inv(s) && Tracked(s) && s.command.Applying? && s.command.pc.Publish?
    ensures Tracked(PublishStep(s, e))
  {
    var c, f, out := s.command, s.command.pc.f, s.command.pc.out;
    if e.fails || Target(f) in s.db.disk {
      JumpTracked(s, c.(pc := SetFailed(f)));
    } else {
      FreeTarget(s, f);
      CreatedTracked(s, f, out, c.(pc := HashSource(f, out)));
      CreatedTracked(s, f, e.bytes, c.(pc := WriteOut(f, out)));
    }
  }

  // A new object at a target key no item has a digest for.
  lemma CreatedTracked(s: State, f: FileId, content: Blob, c: Command)
    requires Tracked(s) && (f in s.db.files ==> AtLegacy(s.db, f) && NoDigest(s.db, f))
    requires c.Applying? && s.command.Applying? && c.todo == s.command.todo
    requires c.pc == HashSource(f, content) || c.pc.WriteOut?
    requires c.pc.f == f
    ensures Tracked(State(PutObject(s.db, Target(f), content), s.uploads, s.deletes, c))
  {
    TargetTracked(s, f, PutObject(s.db, Target(f), content), c);
  }

  lemma WriteTracked(s: State, e: Env)
    requires Tracked(s) && s.command.Applying? && s.command.pc.WriteOut?
    ensures Tracked(PublishStep(s, e))
  {
    var t := PublishStep(s, e);
    TargetTracked(s, s.command.pc.f, t.db, t.command);
  }

  lemma StageTracked(s: State, e: Env)
    requires Tracked(s) && s.command.Applying?
    requires s.command.pc.HashSource? || s.command.pc.Stage? || s.command.pc.Reload?
    ensures Tracked(PublishStep(s, e))
  {
    var db, c, t := s.db, s.command, PublishStep(s, e);
    if t.db == db {
      JumpTracked(s, t.command);
    } else {
      var f := c.pc.f;
      ItemShowsRun(db, c.run, f);
      ItemTrackedWrite(s, f, StagedItem(db.items[(c.run, f)], f, c.pc.sha, c.pc.out), t.command);
    }
  }

  lemma ApplyTracked(s: State, f: FileId, e: Env)
    requires Inv(s) && Tracked(s) && s.command.Applying?
    ensures Tracked(ApplyStep(s, f, e))
  {
    var pc := s.command.pc;
    if pc.Loop? { LoopTracked(s, f, e); }
    else if pc.Inspect? { JumpTracked(s, s.command.(pc := InspectPc(s.db, pc.f, pc.it, e.fails))); }
    else if pc.SetPending? || pc.SetStaged? || pc.SetFailed? { RecoverTracked(s, e); }
    else if pc.CheckTarget? || pc.ReadRecord? || pc.CheckSource? || pc.Switch? || pc.Confirm? { CommitTracked(s, e); }
    else if pc.ReadSource? || pc.CreateItem? || pc.MarkProcessing? || pc.Process? { PrepareTracked(s, e); }
    else if pc.Publish? { PublishTracked(s, e); }
    else if pc.WriteOut? { WriteTracked(s, e); }
    else { StageTracked(s, e); }
  }

  // Cleanup removes a target object only of a deleted record, and changes no digest.
  lemma CleanRemoveTracked(s: State, e: Env)
    requires CommandOk(s.db, s.command) && Tracked(s) && s.command.Cleaning?
    ensures Tracked(CleanRemoveStep(s, e))
  {
    var pc, t := s.command.cpc, CleanRemoveStep(s, e);
    if pc.RemoveOld? && !e.fails { UnlinkTracked(s, pc.it.source, t.command); }
    else if pc.RemoveNew? && !e.fails { UnlinkTracked(s, pc.it.target, t.command); }
    else { JumpTracked(s, t.command); }
  }

  lemma UnlinkTracked(s: State, k: Key, c: Command)
    requires Tracked(s) && !c.Applying? && (k.Target? ==> k.file !in s.db.files)
    ensures Tracked(State(Unlink(s.db, k), s.uploads, s.deletes, c))
  {
    var b := Unlink(s.db, k);
    forall j | j in b.items ensures ItemTracked(b, j.1, b.items[j]) { assert ItemTracked(s.db, j.1, s.db.items[j]); }
  }

  lemma CleanTestTracked(s: State, e: Env)
    requires Tracked(s) && s.command.Cleaning?
    ensures Tracked(CleanTestStep(s, e))
  {
  }

  // Only the cleanup status of one item changes.
  lemma StatusTracked(s: State, run: RunId, f: FileId, status: CleanupStatus, c: Command)
    requires Tracked(s) && !c.Applying?
    ensures Tracked(State(PutCleanup(s.db, run, f, status), s.uploads, s.deletes, c))
  {
    var b := PutCleanup(s.db, run, f, status);
    assert b.items.Keys == s.db.items.Keys;
    forall k | k in b.items ensures ItemTracked(b, k.1, b.items[k]) { assert ItemTracked(s.db, k.1, s.db.items[k]); }
  }

  lemma CleanWriteTracked(s: State, f: FileId, e: Env)
    requires Tracked(s) && s.command.Cleaning?
    ensures Tracked(CleanWriteStep(s, f, e))
  {
    var c, t := s.command, CleanWriteStep(s, f, e);
    if t.db != s.db {
      StatusTracked(s, c.run, c.cpc.f, if c.cpc.CleanOk? then CleanupDone else CleanupFailed, t.command);
    }
  }

  lemma CleanTracked(s: State, f: FileId, e: Env)
    requires CommandOk(s.db, s.command) && Tracked(s) && s.command.Cleaning?
    ensures Tracked(CleanupStep(s, f, e))
  {
    CleanTestTracked(s, e);
    CleanRemoveTracked(s, e);
    CleanWriteTracked(s, f, e);
  }

  lemma NextTracked(s: State, a: Step)
    requires Inv(s) && Tracked(s)
    ensures Tracked(Next(s, a))
  {
    if ByOthers(a) {
      OthersStep(s, a);
      OthersTracked(s, Next(s, a));
    } else {
      match a
      case ApplyOne(f, e) => if s.command.Applying? { ApplyTracked(s, f, e); }
      case CleanupOne(f, e) => if s.command.Cleaning? { CleanTracked(s, f, e); }
      case _ =>
    }
  }

  lemma {:induction false} RunTracked(s: State, steps: seq<Step>)
    requires Inv(s) && Tracked(s)
    ensures Inv(Run(s, steps)) && Tracked(Run(s, steps))
    decreases |steps|
  {
    if steps != [] {
      NextInv(s, steps[0]);
      NextTracked(s, steps[0]);
      RunTracked(Next(s, steps[0]), steps[1..]);
    }
  }

  lemma ReachableIsTracked(s: State, steps: seq<Step>)
    requires Init(s)
    ensures Inv(Run(s, steps)) && Tracked(Run(s, steps))
  {
    InitInv(s);
    RunTracked(s, steps);
  }

  // ----- an output that is published and not staged ------------------------------------------------

  // The output of f is under its target key, in part or in full, and no item has its digest yet.
  predicate Publishing(c: Command, f: FileId) {
    c.Applying? && (c.pc.WriteOut? || c.pc.HashSource? || c.pc.Stage?) && c.pc.f == f
  }

  lemma PublishingIsUnknown(t: State, f: FileId)
    requires Inv(t) && Tracked(t) && Publishing(t.command, f)
    ensures f in t.db.issued && Unknown(t.db, f)
    ensures f in t.db.files && !t.command.pc.WriteOut? ==> t.db.disk[Target(f)] == t.command.pc.out
  {
    assert Works(t.db, t.command.run, f);
    assert PcTracked(t.db, t.command.run, t.command.pc);
  }

  lemma CrashOrphans(t: State, f: FileId)
    requires Inv(t) && Tracked(t) && Publishing(t.command, f) && f in t.db.files
    ensures Target(f) in t.db.disk && Orphaned(Next(t, Crash), f, t.db.disk[Target(f)])
    ensures !t.command.pc.WriteOut? ==> t.db.disk[Target(f)] == t.command.pc.out
  {
    PublishingIsUnknown(t, f);
  }

  /** A crash then leaves an object at the target key, the output or a part of it, that no item knows. */
  lemma CrashOrphansTheOutput(s: State, steps: seq<Step>, f: FileId)
    requires Init(s) && Publishing(Run(s, steps).command, f) && f in Run(s, steps).db.files
    ensures var t := Run(s, steps);
      && Target(f) in t.db.disk && Orphaned(Next(t, Crash), f, t.db.disk[Target(f)])
      && (!t.command.pc.WriteOut? ==> t.db.disk[Target(f)] == t.command.pc.out)
  {
    ReachableIsTracked(s, steps);
    CrashOrphans(Run(s, steps), f);
  }

  // The command turns away without staging: it dies, or an access fails.
  predicate Abandons(t: State, a: Step, f: FileId) {
    Publishing(t.command, f) && (a.Crash? || (a.ApplyOne? && a.env.fails))
  }

  lemma FailedPublish(t: State, g: FileId, e: Env, f: FileId)
    requires Publishing(t.command, f) && e.fails
    ensures var u := Next(t, ApplyOne(g, e));
      u.db == t.db.(disk := u.db.disk) && u.command.Applying? && (u.command.pc.Loop? || u.command.pc.SetFailed?)
  {
    assert Next(t, ApplyOne(g, e)) == PublishStep(t, e);
  }

  // Nobody knows the object and the command has turned to something else.
  lemma UnknownIsOrphaned(t: State, u: State, f: FileId)
    requires Unknown(t.db, f) && u.db == t.db.(disk := u.db.disk) && Target(f) in u.db.disk
    requires u.command.Applying? ==> u.command.pc.Loop? || u.command.pc.SetFailed?
    ensures Orphaned(u, f, u.db.disk[Target(f)])
  {
  }

  // If what was written could not be removed, it is orphaned like after a crash.
  lemma AbandonedIsOrphaned(t: State, a: Step, f: FileId)
    requires Inv(t) && Tracked(t) && Abandons(t, a, f) && Target(f) in Next(t, a).db.disk
    ensures f in t.db.issued && Next(t, a).db.files == t.db.files
    ensures Orphaned(Next(t, a), f, Next(t, a).db.disk[Target(f)])
  {
    PublishingIsUnknown(t, f);
    if a.ApplyOne? { FailedPublish(t, a.next, a.env, f); }
    UnknownIsOrphaned(t, Next(t, a), f);
  }

  lemma RunThrough(s: State, before: seq<Step>, a: Step, after: seq<Step>)
    ensures Run(s, before + [a] + after) == Run(Next(Run(s, before), a), after)
  {
    RunConcat(s, before + [a], after);
    RunConcat(s, before, [a]);
    assert [a][1..] == [];
    assert Run(Run(s, before), [a]) == Run(Next(Run(s, before), a), []);
  }

  lemma CommittedLeftLegacy(s: State, f: FileId)
    requires Inv(s) && AtLegacy(s.db, f)
    ensures forall k | k in s.db.items && k.1 == f :: s.db.items[k].status != Committed
  {
    forall k | k in s.db.items && k.1 == f ensures s.db.items[k].status != Committed {
      assert ItemOk(s.db, k.1, s.db.items[k]);
    }
  }

  // Its record stays at the legacy key and no item of it is ever COMMITTED while the record exists.
  ghost predicate NeverConverted(u: State, f: FileId, after: seq<Step>) {
    var db := Run(u, after).db;
    f in db.files ==>
      db.files[f].key == Legacy(f) && forall k | k in db.items && k.1 == f :: db.items[k].status != Committed
  }

  lemma OrphanIsNeverConverted(u: State, f: FileId, b: Blob, after: seq<Step>)
    requires Inv(u) && f in u.db.issued && Orphaned(u, f, b)
    ensures NeverConverted(u, f, after)
  {
    RunInv(u, after);
    UnknownObjectIsNeverAdopted(u, f, b, after);
    var end := Run(u, after);
    if f in end.db.files { CommittedLeftLegacy(end, f); }
  }

  lemma GoneIsNeverConverted(u: State, f: FileId, after: seq<Step>)
    requires Inv(u) && f in u.db.issued && f !in u.db.files
    ensures NeverConverted(u, f, after)
  {
    GoneStaysGone(u, f, after);
  }

  lemma AbandonedIsNeverConverted(t: State, a: Step, f: FileId, after: seq<Step>)
    requires Inv(t) && Tracked(t) && Abandons(t, a, f) && Target(f) in Next(t, a).db.disk
    ensures NeverConverted(Next(t, a), f, after)
  {
    AbandonedIsOrphaned(t, a, f);
    NextInv(t, a);
    IssuedGrows(t, f, a);
    OrphanIsNeverConverted(Next(t, a), f, Next(t, a).db.disk[Target(f)], after);
  }

  lemma CrashedIsNeverConverted(t: State, f: FileId, after: seq<Step>)
    requires Inv(t) && Tracked(t) && Publishing(t.command, f)
    ensures NeverConverted(Next(t, Crash), f, after)
  {
    PublishingIsUnknown(t, f);
    if f in t.db.files {
      AbandonedIsNeverConverted(t, Crash, f, after);
    } else {
      NextInv(t, Crash);
      GoneIsNeverConverted(Next(t, Crash), f, after);
    }
  }

  /**
   After a crash between publishing and staging the image is never converted: in no continuation does
   its record leave the legacy key, and no item of it is ever COMMITTED while the record exists.
   */
  lemma UnstagedOutputIsNeverAdopted(s: State, before: seq<Step>, f: FileId, after: seq<Step>)
    requires Init(s) && Publishing(Run(s, before).command, f)
    ensures var db := Run(s, before + [Crash] + after).db;
      f in db.files ==>
        db.files[f].key == Legacy(f) && forall k | k in db.items && k.1 == f :: db.items[k].status != Committed
  {
    RunThrough(s, before, Crash, after);
    ReachableIsTracked(s, before);
    CrashedIsNeverConverted(Run(s, before), f, after);
  }

  /**
   Nor is it after an access that fails there and leaves the object: a write whose removal fails as well,
   the digest of the source, the update that stages the item.
   */
  lemma AbandonedOutputIsNeverAdopted(s: State, before: seq<Step>, a: Step, f: FileId, after: seq<Step>)
    requires Init(s) && Abandons(Run(s, before), a, f) && Target(f) in Next(Run(s, before), a).db.disk
    ensures var db := Run(s, before + [a] + after).db;
      f in db.files ==>
        db.files[f].key == Legacy(f) && forall k | k in db.items && k.1 == f :: db.items[k].status != Committed
  {
    RunThrough(s, before, a, after);
    ReachableIsTracked(s, before);
    AbandonedIsNeverConverted(Run(s, before), a, f, after);
  }

  lemma {:induction false} GoneStaysGone(s: State, f: FileId, steps: seq<Step>)
    requires Inv(s) && f in s.db.issued && f !in s.db.files
    ensures f !in Run(s, steps).db.files
    decreases |steps|
  {
    if steps != [] {
      NextInv(s, steps[0]);
      IssuedGrows(s, f, steps[0]);
      GoneAfterOne(s, f, steps[0]);
      GoneStaysGone(Next(s, steps[0]), f, steps[1..]);
    }
  }

  lemma GoneAfterOne(s: State, f: FileId, a: Step)
    requires Inv(s) && f in s.db.issued && f !in s.db.files
    ensures f !in Next(s, a).db.files
  {
    match a
    case NewFile(g, kind, ext) => PresignKeeps(s.db, g, kind, ext);
    case UploadBy(u, act, partial) => UploadKeeps(s, u, act, partial);
    case DeleteBy(d, act) => DeleteKeeps(s, d, act);
    case ApplyOne(g, e) => if s.command.Applying? { CommandAddsNoRecord(s, g, e); }
    case CleanupOne(g, e) => if s.command.Cleaning? { CleanupAddsNoRecord(s, g, e); }
    case _ =>
  }

  lemma CommandAddsNoRecord(s: State, g: FileId, e: Env)
    requires s.command.Applying?
    ensures ApplyStep(s, g, e).db.files.Keys == s.db.files.Keys
  {
    LoopWritesNothing(s, g, e);
    PrepareAddsNoRecord(s, e);
    PublishAddsNoRecord(s, e);
    CommitAddsNoRecord(s, e);
  }

  lemma PrepareAddsNoRecord(s: State, e: Env)
    requires s.command.Applying?
    ensures PrepareStep(s, e).db.files == s.db.files
  {
  }

  lemma PublishAddsNoRecord(s: State, e: Env)
    requires s.command.Applying?
    ensures PublishStep(s, e).db.files == s.db.files
  {
  }

  lemma CommitAddsNoRecord(s: State, e: Env)
    requires s.command.Applying?
    ensures RecoverWriteStep(s, e).db.files == s.db.files && CommitStep(s, e).db.files.Keys == s.db.files.Keys
  {
  }

  lemma CleanupAddsNoRecord(s: State, g: FileId, e: Env)
    requires s.command.Cleaning?
    ensures CleanTestStep(s, e).db.files == s.db.files && CleanRemoveStep(s, e).db.files == s.db.files
    ensures CleanWriteStep(s, g, e).db.files == s.db.files
  {
  }
}
