/**
 Cleanup does its work: a committed image's target object is the output its item recorded, so a cleanup
 whose accesses succeed always ends with the old object gone and the item DONE.
 */
module ProductImagesCleanup {
  import opened Wrappers
  import opened ProductImages
  import opened ProductImagesSafety
  import opened ProductImagesRecovery
  import opened ProductImagesTracking

  // ----- the invariant -----------------------------------------------------------------------------

  // While its record exists, the target object of a committed item has the recorded digest.
  ghost predicate ItemIntact(db: Store, f: FileId, it: Item) {
    it.status == Committed && f in db.files ==> HashIs(db, Target(f), it.outputSha)
  }

  ghost predicate ItemsIntact(db: Store) { forall k | k in db.items :: ItemIntact(db, k.1, db.items[k]) }

  ghost predicate TargetChecked(db: Store, f: FileId, it: Item) {
    f in db.files ==> HashIs(db, Target(f), it.outputSha)
  }

  predicate CleansStored(db: Store, run: RunId, pc: CleanPc) {
    match pc
    case CleanLoop => true
    case CleanOk(_) => true
    case CleanBad(_) => true
    case _ => (run, pc.f) in db.items && db.items[(run, pc.f)] == pc.it && pc.it.status == Committed
  }

  ghost predicate CommandIntact(db: Store, c: Command) {
    match c
    case Down => true
    case Applying(_, _, _, _, pc) =>
      && (pc.ReadRecord? ==> TargetChecked(db, pc.f, pc.it)) && (pc.Confirm? ==> TargetChecked(db, pc.f, pc.it))
    case Cleaning(run, _, pc) => CleansStored(db, run, pc)
  }

  ghost predicate Intact(s: State) { ItemsIntact(s.db) && CommandIntact(s.db, s.command) }

  lemma OthersIntact(s: State, t: State)
    requires Inv(s) && Intact(s) && OthersKeep(s.db, t.db) && t.command == s.command
    ensures Intact(t)
  {
    forall k | k in t.db.items ensures ItemIntact(t.db, k.1, t.db.items[k]) {
      assert ItemIntact(s.db, k.1, s.db.items[k]) && ItemOk(s.db, k.1, s.db.items[k]) && RecordKept(s.db, t.db, k.1);
    }
    if s.command.Applying? && (s.command.pc.ReadRecord? || s.command.pc.Confirm?) {
      assert RecordKept(s.db, t.db, s.command.pc.f);
    }
  }

  // Only the command moves.
  lemma MoveIntact(s: State, c: Command)
    requires Intact(s) && CommandIntact(s.db, c)
    ensures Intact(s.(command := c))
  {
  }

  // One item is written; what is at the target keys stays.
  lemma ItemWriteIntact(s: State, run: RunId, f: FileId, it: Item, c: Command)
    requires Intact(s) && ItemIntact(s.db, f, it)
    requires c.Applying? && (c.pc.CheckTarget? || !CommitPoint(c.pc))
    ensures Intact(State(PutItem(s.db, run, f, it), s.uploads, s.deletes, c))
  {
    var b := PutItem(s.db, run, f, it);
    forall k | k in b.items ensures ItemIntact(b, k.1, b.items[k]) {
      if k != (run, f) { assert ItemIntact(s.db, k.1, s.db.items[k]); }
    }
  }

  predicate CommitPoint(pc: ApplyPc) {
    pc.CheckTarget? || pc.ReadRecord? || pc.CheckSource? || pc.Switch? || pc.Confirm?
  }

  lemma RecoverIntact(s: State, e: Env)
    requires Intact(s) && s.command.Applying?
    requires s.command.pc.SetPending? || s.command.pc.SetStaged? || s.command.pc.SetFailed?
    ensures Intact(RecoverWriteStep(s, e))
  {
    var t, k := RecoverWriteStep(s, e), (s.command.run, s.command.pc.f);
    if t.db == s.db {
      MoveIntact(s, t.command);
    } else {
      ItemWriteIntact(s, k.0, k.1, t.db.items[k], t.command);
    }
  }

  lemma TestsIntact(s: State, e: Env)
    requires Inv(s) && Intact(s) && s.command.Applying?
    requires s.command.pc.CheckTarget? || s.command.pc.ReadRecord? || s.command.pc.CheckSource?
    ensures Intact(CommitStep(s, e))
  {
    var t, pc := CommitStep(s, e), s.command.pc;
    assert ItemOk(s.db, pc.f, s.db.items[(s.command.run, pc.f)]);
    assert t.db == s.db;
    MoveIntact(s, t.command);
  }

  lemma CommitIntact(s: State, e: Env)
    requires Inv(s) && Intact(s) && s.command.Applying? && (s.command.pc.Switch? || s.command.pc.Confirm?)
    ensures Intact(CommitStep(s, e))
  {
    var t, pc, run := CommitStep(s, e), s.command.pc, s.command.run;
    if t.db == s.db {
      MoveIntact(s, t.command);
    } else {
      CommittingIntact(s, e);
    }
  }

  lemma CommittingIntact(s: State, e: Env)
    requires Inv(s) && Intact(s) && s.command.Applying? && (s.command.pc.Switch? || s.command.pc.Confirm?)
    requires CommitStep(s, e).db != s.db
    ensures Intact(CommitStep(s, e))
  {
    var t, pc, run := CommitStep(s, e), s.command.pc, s.command.run;
    assert ItemOk(s.db, pc.f, s.db.items[(run, pc.f)]);
    assert t.db.disk == s.db.disk && t.db.files.Keys == s.db.files.Keys && t.command.pc.Loop?;
    forall k | k in t.db.items ensures ItemIntact(t.db, k.1, t.db.items[k]) {
      if k != (run, pc.f) { assert ItemIntact(s.db, k.1, s.db.items[k]); }
    }
  }

  lemma PrepareIntact(s: State, e: Env)
    requires Intact(s) && s.command.Applying?
    requires var pc := s.command.pc; pc.ReadSource? || pc.CreateItem? || pc.MarkProcessing? || pc.Process?
    ensures Intact(PrepareStep(s, e))
  {
    var t, pc, run := PrepareStep(s, e), s.command.pc, s.command.run;
    if t.db == s.db {
      MoveIntact(s, t.command);
    } else if pc.CreateItem? {
      ItemWriteIntact(s, run, pc.f, NewItem(pc.f), t.command);
    } else if pc.MarkProcessing? {
      ItemWriteIntact(s, run, pc.f, ProcessingItem(s.db.items[(run, pc.f)], pc.f), t.command);
    } else {
      OutputIntact(s, t);
    }
  }

  lemma OutputIntact(s: State, t: State)
    requires Intact(s) && t.db == s.db.(outputs := t.db.outputs) && t.command.Applying? && t.command.pc.Publish?
    ensures Intact(t)
  {
    forall k | k in t.db.items ensures ItemIntact(t.db, k.1, t.db.items[k]) {
      assert ItemIntact(s.db, k.1, s.db.items[k]);
    }
  }

  // The target object of f is written while no record is at its target key.
  lemma TargetIntact(s: State, f: FileId, b: Store, c: Command)
    requires Inv(s) && Intact(s) && b == s.db.(disk := b.disk) && (forall k | k != Target(f) :: SameObject(s.db, b, k))
    requires f in s.db.files ==> s.db.files[f].key != Target(f)
    requires c.Applying? && !CommitPoint(c.pc)
    ensures Intact(State(b, s.uploads, s.deletes, c))
  {
    forall k | k in b.items ensures ItemIntact(b, k.1, b.items[k]) {
      assert ItemIntact(s.db, k.1, s.db.items[k]) && ItemOk(s.db, k.1, s.db.items[k]);
      assert k.1 != f ==> SameObject(s.db, b, Target(k.1));
    }
  }

  lemma PublishEffectOnDisk(s: State, e: Env)
    requires s.command.Applying? && (s.command.pc.Publish? || s.command.pc.WriteOut?)
    ensures var t, f := PublishStep(s, e), s.command.pc.f;
      && t == State(s.db.(disk := t.db.disk), s.uploads, s.deletes, t.command)
      && t.command.Applying? && !CommitPoint(t.command.pc)
      && (forall k | k != Target(f) :: SameObject(s.db, t.db, k))
      && (s.command.pc.Publish? && Target(f) in s.db.disk ==> t.db == s.db)
  {
  }

  lemma PublishIntact(s: State, e: Env)
    requires Inv(s) && Intact(s) && s.command.Applying? && (s.command.pc.Publish? || s.command.pc.WriteOut?)
    ensures Intact(PublishStep(s, e))
  {
    hide PublishStep, Intact, CommandIntact;
    var t, f := PublishStep(s, e), s.command.pc.f;
    PublishEffectOnDisk(s, e);
    if s.command.pc.Publish? && Target(f) in s.db.disk {
      PcIntact(s, t.command);
    } else {
      if s.command.pc.Publish? { NotAtFreeTarget(s.db, f); }
      TargetIntact(s, f, t.db, t.command);
    }
  }

  lemma PcIntact(s: State, c: Command)
    requires Intact(s) && c.Applying? && !CommitPoint(c.pc)
    ensures Intact(s.(command := c))
  {
  }

  lemma StageIntact(s: State, e: Env)
    requires Intact(s) && s.command.Applying?
    requires s.command.pc.HashSource? || s.command.pc.Stage? || s.command.pc.Reload?
    ensures Intact(PublishStep(s, e))
  {
    var t, pc, run := PublishStep(s, e), s.command.pc, s.command.run;
    if t.db == s.db {
      MoveIntact(s, t.command);
    } else {
      ItemWriteIntact(s, run, pc.f, StagedItem(s.db.items[(run, pc.f)], pc.f, pc.sha, pc.out), t.command);
    }
  }

  lemma LoopIntact(s: State, f: FileId, e: Env)
    requires Intact(s) && s.command.Applying? && s.command.pc.Loop?
    ensures Intact(LoopStep(s, f, e))
  {
    LoopWritesNothing(s, f, e);
    MoveIntact(s, LoopStep(s, f, e).command);
  }

  lemma ApplyIntact(s: State, f: FileId, e: Env)
    requires Inv(s) && Intact(s) && s.command.Applying?
    ensures Intact(ApplyStep(s, f, e))
  {
    hide Inv, Intact, CommitStep, RecoverWriteStep, PrepareStep, PublishStep, LoopStep;
    var pc := s.command.pc;
    if pc.Loop? { LoopIntact(s, f, e); }
    else if pc.Inspect? { InspectIntact(s, e); }
    else if pc.SetPending? || pc.SetStaged? || pc.SetFailed? { RecoverIntact(s, e); }
    else if pc.CheckTarget? || pc.ReadRecord? || pc.CheckSource? { TestsIntact(s, e); }
    else if pc.Switch? || pc.Confirm? { CommitIntact(s, e); }
    else if pc.ReadSource? || pc.CreateItem? || pc.MarkProcessing? || pc.Process? { PrepareIntact(s, e); }
    else if pc.Publish? || pc.WriteOut? { PublishIntact(s, e); }
    else { StageIntact(s, e); }
  }

  lemma InspectIntact(s: State, e: Env)
    requires Intact(s) && s.command.Applying? && s.command.pc.Inspect?
    ensures Intact(To(s, s.db, InspectPc(s.db, s.command.pc.f, s.command.pc.it, e.fails)))
  {
  }

  lemma CleanTestIntact(s: State, e: Env)
    requires Intact(s) && s.command.Cleaning?
    ensures Intact(CleanTestStep(s, e))
  {
    hide ItemsIntact;
    var t := CleanTestStep(s, e);
    CleanTestPc(s, e);
    MoveIntact(s, t.command);
  }

  lemma CleanTestPc(s: State, e: Env)
    requires s.command.Cleaning? && CleansStored(s.db, s.command.run, s.command.cpc)
    ensures CleanTestStep(s, e) == s.(command := CleanTestStep(s, e).command)
    ensures CommandIntact(s.db, CleanTestStep(s, e).command)
  {
  }

  lemma CleanRemovePc(s: State, e: Env)
    requires s.command.Cleaning? && CleansStored(s.db, s.command.run, s.command.cpc) && CleanPcOk(s.db, s.command.cpc)
    ensures var t := CleanRemoveStep(s, e);
      && t == State(t.db, s.uploads, s.deletes, t.command) && CommandIntact(s.db, t.command) && !t.command.Applying?
      && (t.db == s.db || (!s.command.cpc.CleanLoop? && t.db == Unlink(s.db, Legacy(s.command.cpc.f)))
          || (!s.command.cpc.CleanLoop? && s.command.cpc.f !in s.db.files
              && t.db == Unlink(s.db, Target(s.command.cpc.f))))
  {
  }

  // The old object goes, or the target object of a deleted record.
  lemma UnlinkIntact(s: State, k: Key, c: Command)
    requires Intact(s) && CommandIntact(s.db, c) && !c.Applying? && (k.Legacy? || (k.Target? && k.file !in s.db.files))
    ensures Intact(State(Unlink(s.db, k), s.uploads, s.deletes, c))
  {
    var b := Unlink(s.db, k);
    forall j | j in b.items ensures ItemIntact(b, j.1, b.items[j]) { assert ItemIntact(s.db, j.1, s.db.items[j]); }
  }

  lemma CleanRemoveIntact(s: State, e: Env)
    requires Inv(s) && Intact(s) && s.command.Cleaning?
    ensures Intact(CleanRemoveStep(s, e))
  {
    hide CleanRemoveStep, CleanItem, ItemsIntact, StoreOk, UploadsOk;
    var t := CleanRemoveStep(s, e);
    CleanRemovePc(s, e);
    if t.db == s.db { MoveIntact(s, t.command); }
    else if t.db == Unlink(s.db, Legacy(s.command.cpc.f)) { UnlinkIntact(s, Legacy(s.command.cpc.f), t.command); }
    else { UnlinkIntact(s, Target(s.command.cpc.f), t.command); }
  }

  lemma CleanWritePc(s: State, f: FileId, e: Env)
    requires s.command.Cleaning? && CleansStored(s.db, s.command.run, s.command.cpc)
    requires forall f | f in s.command.left ::
      (s.command.run, f) in s.db.items && s.db.items[(s.command.run, f)].status == Committed
    ensures var t, pc := CleanWriteStep(s, f, e), s.command.cpc;
      && t == State(t.db, s.uploads, s.deletes, t.command) && CommandIntact(t.db, t.command)
      && (t.db == s.db || (!pc.CleanLoop? && t.db == PutCleanup(s.db, s.command.run, pc.f, CleanupDone))
          || (!pc.CleanLoop? && t.db == PutCleanup(s.db, s.command.run, pc.f, CleanupFailed)))
  {
  }

  lemma StatusIntact(s: State, run: RunId, f: FileId, status: CleanupStatus, c: Command)
    requires Intact(s) && CommandIntact(PutCleanup(s.db, run, f, status), c)
    ensures Intact(State(PutCleanup(s.db, run, f, status), s.uploads, s.deletes, c))
  {
    var b := PutCleanup(s.db, run, f, status);
    forall j | j in b.items ensures ItemIntact(b, j.1, b.items[j]) { assert ItemIntact(s.db, j.1, s.db.items[j]); }
  }

  lemma CleanWriteIntact(s: State, f: FileId, e: Env)
    requires Inv(s) && Intact(s) && s.command.Cleaning?
    ensures Intact(CleanWriteStep(s, f, e))
  {
    hide CleanWriteStep, ItemsIntact, StoreOk, UploadsOk;
    var t := CleanWriteStep(s, f, e);
    CleanWritePc(s, f, e);
    if t.db == s.db { MoveIntact(s, t.command); }
    else if t.db == PutCleanup(s.db, s.command.run, s.command.cpc.f, CleanupDone) {
      StatusIntact(s, s.command.run, s.command.cpc.f, CleanupDone, t.command);
    } else {
      StatusIntact(s, s.command.run, s.command.cpc.f, CleanupFailed, t.command);
    }
  }

  lemma NextIntact(s: State, a: Step)
    requires Inv(s) && Intact(s)
    ensures Intact(Next(s, a))
  {
    if ByOthers(a) {
      OthersStep(s, a);
      OthersIntact(s, Next(s, a));
    } else {
      match a
      case ApplyOne(f, e) => if s.command.Applying? { ApplyIntact(s, f, e); }
      case CleanupOne(f, e) =>
        if s.command.Cleaning? {
          CleanTestIntact(s, e);
          CleanRemoveIntact(s, e);
          CleanWriteIntact(s, f, e);
        }
      case _ =>
    }
  }

  lemma {:induction false} RunIntact(s: State, steps: seq<Step>)
    requires Inv(s) && Intact(s)
    ensures Inv(Run(s, steps)) && Intact(Run(s, steps))
    decreases |steps|
  {
    if steps != [] {
      NextInv(s, steps[0]);
      NextIntact(s, steps[0]);
      RunIntact(Next(s, steps[0]), steps[1..]);
    }
  }

  /**
   In every reachable state, a COMMITTED item whose record exists knows the object at the target key, and
   what is left of the old object is what it was made from.
   */
  lemma CommittedImagesAreIntact(s: State, steps: seq<Step>, k: (RunId, FileId))
    requires Init(s)
    requires var db := Run(s, steps).db; k in db.items && db.items[k].status == Committed && k.1 in db.files
    ensures var db := Run(s, steps).db;
      && HashIs(db, Target(k.1), db.items[k].outputSha)
      && (Legacy(k.1) in db.disk ==> HashIs(db, Legacy(k.1), db.items[k].sourceSha))
  {
    InitInv(s);
    RunIntact(s, steps);
    var db := Run(s, steps).db;
    assert ItemIntact(db, k.1, db.items[k]) && ItemOk(db, k.1, db.items[k]);
    if Legacy(k.1) in db.disk { assert LegacyOk(db, k.1); }
  }

  // ----- one item, from reading it to recording the outcome -----------------------------------------

  // Steps of the server and accesses of cleanup that succeed, up to the next item.
  predicate UntilCleaned(s: State, steps: seq<Step>)
    decreases |steps|
  {
    s.command.Cleaning? &&
    if steps == [] then s.command.cpc.CleanLoop?
    else
      && !s.command.cpc.CleanLoop?
      && (ByOthers(steps[0]) || (steps[0].CleanupOne? && !steps[0].env.fails))
      && UntilCleaned(Next(s, steps[0]), steps[1..])
  }

  // The command is about to do `pc`, and the image is there to the end.
  ghost predicate Cleans(s: State, steps: seq<Step>, pc: CleanPc, f: FileId) {
    && Inv(s) && Intact(s) && UntilCleaned(s, steps) && s.command.cpc == pc
    && f in s.db.issued && f in Run(s, steps).db.files
  }

  // The next step: of the server, which leaves the image alone, or an access of cleanup.
  ghost predicate CleansOn(s: State, steps: seq<Step>, pc: CleanPc, f: FileId) {
    && steps != [] && f in s.db.files && f in Next(s, steps[0]).db.files
    && Run(s, steps) == Run(Next(s, steps[0]), steps[1..])
    && Inv(Next(s, steps[0])) && Intact(Next(s, steps[0])) && UntilCleaned(Next(s, steps[0]), steps[1..])
    && if ByOthers(steps[0]) then
         && Next(s, steps[0]).command == s.command && OthersKeep(s.db, Next(s, steps[0]).db)
         && Cleans(Next(s, steps[0]), steps[1..], pc, f)
       else steps[0].CleanupOne? && !steps[0].env.fails
  }

  lemma OneStep(s: State, steps: seq<Step>, pc: CleanPc, f: FileId)
    requires Cleans(s, steps, pc, f) && !pc.CleanLoop?
    ensures CleansOn(s, steps, pc, f)
  {
    NextInv(s, steps[0]);
    NextIntact(s, steps[0]);
    IssuedGrows(s, f, steps[0]);
    ThereBefore(s, steps, f);
    ThereBefore(Next(s, steps[0]), steps[1..], f);
    if ByOthers(steps[0]) { OthersStep(s, steps[0]); }
  }

  lemma ThereBefore(s: State, steps: seq<Step>, f: FileId)
    requires Inv(s) && f in s.db.issued && f in Run(s, steps).db.files
    ensures f in s.db.files
  {
    if f !in s.db.files { GoneStaysGone(s, f, steps); }
  }

  // The item is recorded as cleaned, the old object is gone, record and target object are as they were.
  predicate CleanedUp(a: Store, b: Store, run: RunId, f: FileId) {
    && (run, f) in a.items && b.items == a.items[(run, f) := a.items[(run, f)].(cleanup := CleanupDone)]
    && Legacy(f) !in b.disk
    && f in a.files && f in b.files && b.files[f] == a.files[f] && SameObject(a, b, Target(f))
  }

  lemma CleanedAfterOthers(a: Store, c: Store, b: Store, run: RunId, f: FileId)
    requires OthersKeep(a, c) && f in a.issued && CleanedUp(c, b, run, f) && c.files[f].key == Target(f)
    ensures CleanedUp(a, b, run, f)
  {
    assert RecordKept(a, c, f);
  }

  // What is known of the item being cleaned while its record exists.
  lemma ImageBeingCleaned(s: State, f: FileId, it: Item)
    requires Inv(s) && Intact(s) && s.command.Cleaning? && f in s.db.files
    requires var pc := s.command.cpc;
      (pc.CleanRecord? || pc.CleanTarget? || pc.CleanCount? || pc.HashOld? || pc.RemoveOld?) && pc.f == f && pc.it == it
    ensures (s.command.run, f) in s.db.items && s.db.files[f].key == Target(f)
    ensures it.source == Legacy(f) && it.target == Target(f) && HashIs(s.db, it.target, it.outputSha)
    ensures Legacy(f) in s.db.disk ==> HashIs(s.db, it.source, it.sourceSha)
    ensures forall g | g in s.db.files :: s.db.files[g].key != Legacy(f)
  {
    var k := (s.command.run, f);
    assert ItemIntact(s.db, f, s.db.items[k]) && ItemOk(s.db, f, s.db.items[k]);
    if Legacy(f) in s.db.disk { assert LegacyOk(s.db, f); }
    forall g | g in s.db.files ensures s.db.files[g].key != Legacy(f) { assert RecordOk(s.db, g); }
  }

  lemma {:induction false} FromCleanOk(s: State, steps: seq<Step>, f: FileId)
    requires Cleans(s, steps, CleanOk(f), f) && s.command.Cleaning? && (s.command.run, f) in s.db.items
    requires Legacy(f) !in s.db.disk && f in s.db.files && s.db.files[f].key == Target(f)
    ensures CleanedUp(s.db, Run(s, steps).db, s.command.run, f)
    decreases |steps|
  {
    hide Inv, Intact;
    OneStep(s, steps, CleanOk(f), f);
    var t := Next(s, steps[0]);
    if ByOthers(steps[0]) {
      assert RecordKept(s.db, t.db, f);
      FromCleanOk(t, steps[1..], f);
      CleanedAfterOthers(s.db, t.db, Run(s, steps).db, s.command.run, f);
    } else {
      assert t.db == PutCleanup(s.db, s.command.run, f, CleanupDone) && t.command.cpc.CleanLoop?;
      assert Run(t, steps[1..]) == t;
    }
  }

  lemma {:induction false} FromRemoveOld(s: State, steps: seq<Step>, f: FileId, it: Item)
    requires Cleans(s, steps, RemoveOld(f, it, false), f) && s.command.Cleaning?
    ensures CleanedUp(s.db, Run(s, steps).db, s.command.run, f)
    decreases |steps|
  {
    hide Inv, Intact;
    OneStep(s, steps, RemoveOld(f, it, false), f);
    var t := Next(s, steps[0]);
    ImageBeingCleaned(s, f, it);
    if ByOthers(steps[0]) {
      assert RecordKept(s.db, t.db, f);
      FromRemoveOld(t, steps[1..], f, it);
      CleanedAfterOthers(s.db, t.db, Run(s, steps).db, s.command.run, f);
    } else {
      assert t.db == Unlink(s.db, Legacy(f)) && t.command == s.command.(cpc := CleanOk(f));
      FromCleanOk(t, steps[1..], f);
    }
  }

  lemma {:induction false} FromHashOld(s: State, steps: seq<Step>, f: FileId, it: Item)
    requires Cleans(s, steps, HashOld(f, it, false), f) && s.command.Cleaning?
    ensures CleanedUp(s.db, Run(s, steps).db, s.command.run, f)
    decreases |steps|
  {
    hide Inv, Intact;
    OneStep(s, steps, HashOld(f, it, false), f);
    var t := Next(s, steps[0]);
    ImageBeingCleaned(s, f, it);
    if ByOthers(steps[0]) {
      assert RecordKept(s.db, t.db, f);
      FromHashOld(t, steps[1..], f, it);
      CleanedAfterOthers(s.db, t.db, Run(s, steps).db, s.command.run, f);
    } else if Legacy(f) in s.db.disk {
      assert t == s.(command := s.command.(cpc := RemoveOld(f, it, false)));
      FromRemoveOld(t, steps[1..], f, it);
    } else {
      assert t == s.(command := s.command.(cpc := CleanOk(f)));
      FromCleanOk(t, steps[1..], f);
    }
  }

  lemma {:induction false} FromCleanCount(s: State, steps: seq<Step>, f: FileId, it: Item)
    requires Cleans(s, steps, CleanCount(f, it), f) && s.command.Cleaning?
    ensures CleanedUp(s.db, Run(s, steps).db, s.command.run, f)
    decreases |steps|
  {
    hide Inv, Intact;
    OneStep(s, steps, CleanCount(f, it), f);
    var t := Next(s, steps[0]);
    ImageBeingCleaned(s, f, it);
    if ByOthers(steps[0]) {
      assert RecordKept(s.db, t.db, f);
      FromCleanCount(t, steps[1..], f, it);
      CleanedAfterOthers(s.db, t.db, Run(s, steps).db, s.command.run, f);
    } else {
      assert t == s.(command := s.command.(cpc := HashOld(f, it, false)));
      FromHashOld(t, steps[1..], f, it);
    }
  }

  lemma {:induction false} FromCleanTarget(s: State, steps: seq<Step>, f: FileId, it: Item)
    requires Cleans(s, steps, CleanTarget(f, it), f) && s.command.Cleaning?
    ensures CleanedUp(s.db, Run(s, steps).db, s.command.run, f)
    decreases |steps|
  {
    hide Inv, Intact;
    OneStep(s, steps, CleanTarget(f, it), f);
    var t := Next(s, steps[0]);
    ImageBeingCleaned(s, f, it);
    if ByOthers(steps[0]) {
      assert RecordKept(s.db, t.db, f);
      FromCleanTarget(t, steps[1..], f, it);
      CleanedAfterOthers(s.db, t.db, Run(s, steps).db, s.command.run, f);
    } else {
      assert t == s.(command := s.command.(cpc := CleanCount(f, it)));
      FromCleanCount(t, steps[1..], f, it);
    }
  }

  lemma {:induction false} FromCleanRecord(s: State, steps: seq<Step>, f: FileId, it: Item)
    requires Cleans(s, steps, CleanRecord(f, it), f) && s.command.Cleaning?
    ensures CleanedUp(s.db, Run(s, steps).db, s.command.run, f)
    decreases |steps|
  {
    hide Inv, Intact;
    OneStep(s, steps, CleanRecord(f, it), f);
    var t := Next(s, steps[0]);
    ImageBeingCleaned(s, f, it);
    if ByOthers(steps[0]) {
      assert RecordKept(s.db, t.db, f);
      FromCleanRecord(t, steps[1..], f, it);
      CleanedAfterOthers(s.db, t.db, Run(s, steps).db, s.command.run, f);
    } else {
      assert t == s.(command := s.command.(cpc := CleanTarget(f, it)));
      FromCleanTarget(t, steps[1..], f, it);
    }
  }

  /** Cleanup takes the next item as it is stored. */
  lemma CleanupTakesOne(s: State, f: FileId, e: Env)
    requires s.command.Cleaning? && s.command.cpc.CleanLoop? && f in s.command.left && (s.command.run, f) in s.db.items
    ensures Next(s, CleanupOne(f, e)) == s.(command := s.command.(left := s.command.left - {f},
                                              cpc := CleanRecord(f, s.db.items[(s.command.run, f)])))
  {
  }

  /**
   In every reachable state, the item a cleanup has just read ends DONE, with the old object gone, the
   record and the target object as they were, if no access fails and the record is not deleted meanwhile.
   */
  lemma DueImagesAreCleaned(s: State, before: seq<Step>, steps: seq<Step>)
    requires Init(s)
    requires var t := Run(s, before);
      UntilCleaned(t, steps) && t.command.cpc.CleanRecord? && t.command.cpc.f in Run(t, steps).db.files
    ensures var t := Run(s, before);
      CleanedUp(t.db, Run(t, steps).db, t.command.run, t.command.cpc.f)
  {
    InitInv(s);
    RunIntact(s, before);
    var t := Run(s, before);
    FromCleanRecord(t, steps, t.command.cpc.f, t.command.cpc.it);
  }

  /**
   Of a deleted record, nothing is removed while a product still references the file: the item is recorded
   as not cleaned by the second access.
   */
  lemma ReferencedFilesAreKept(s: State, f: FileId, it: Item, e: Env, next: Env, g: FileId, h: FileId)
    requires Inv(s) && Intact(s) && s.command.Cleaning? && s.command.cpc == CleanRecord(f, it) && f !in s.db.files
    requires e.flag && !e.fails && !next.fails
    ensures var u := Next(Next(s, CleanupOne(g, e)), CleanupOne(h, next));
      u.command.Cleaning? && u.command.cpc.CleanLoop? && (s.command.run, f) in s.db.items
      && u.db == s.db.(items := s.db.items[(s.command.run, f) := it.(cleanup := CleanupFailed)])
  {
    var t := Next(s, CleanupOne(g, e));
    assert t == s.(command := s.command.(cpc := CleanBad(f)));
  }

  /**
   An access of cleanup that fails: the record, the references or the success that cannot be read or written
   end the command; an object that cannot be read or removed leaves it, and the item is recorded as not
   cleaned; that this cannot be recorded is ignored. No store is touched.
   */
  lemma FailuresOfCleanup(s: State, g: FileId, e: Env)
    requires s.command.Cleaning? && e.fails && !s.command.cpc.CleanLoop?
    requires s.command.cpc.CleanRecord? ==> s.command.cpc.it.source != s.command.cpc.it.target
    ensures var t, pc := Next(s, CleanupOne(g, e)), s.command.cpc;
      t == s.(command :=
        if pc.CleanRecord? || pc.CleanCount? || pc.CleanOk? then Down
        else s.command.(cpc := if pc.CleanBad? then CleanLoop else CleanBad(pc.f)))
  {
  }
}
