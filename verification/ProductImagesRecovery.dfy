/**
 What the backfill ledger promises across crashes: committed items stay committed, recovery leaves
 nothing in flight, and an output that was published but not staged is never adopted.
 */
module ProductImagesRecovery {
  import opened Wrappers
  import opened ProductImages
  import opened ProductImagesSafety

  lemma RunConcat(s: State, a: seq<Step>, b: seq<Step>)
    ensures Run(s, a + b) == Run(Run(s, a), b)
    decreases |a|
  {
    if a == [] {
      assert a + b == b;
    } else {
      assert (a + b)[0] == a[0] && (a + b)[1..] == a[1..] + b;
      RunConcat(Next(s, a[0]), a[1..], b);
    }
  }

  // ----- a committed item stays committed --------------------------------------------------------

  predicate IsCommitted(s: State, k: (RunId, FileId)) { k in s.db.items && s.db.items[k].status == Committed }

  // The command writes no committed item but its cleanup fields.
  lemma CommandKeepsCommitted(s: State, k: (RunId, FileId), f: FileId, e: Env)
    requires CommandOk(s.db, s.command) && s.command.Applying? && IsCommitted(s, k)
    ensures IsCommitted(LoopStepOrSame(s, f, e), k)
    ensures IsCommitted(RecoverWriteStep(s, e), k)
    ensures IsCommitted(CommitStep(s, e), k)
    ensures IsCommitted(PrepareStep(s, e), k)
    ensures IsCommitted(PublishStep(s, e), k)
  {
    LoopWritesNothing(s, f, e);
    RecoverKeepsCommitted(s, k, e);
    CommitKeepsCommitted(s, k, e);
    PrepareKeepsCommitted(s, k, e);
    PublishKeepsCommitted(s, k, e);
  }

  function LoopStepOrSame(s: State, f: FileId, e: Env): State
    requires s.command.Applying?
  { if s.command.pc.Loop? then LoopStep(s, f, e) else s }

  lemma LoopWritesNothing(s: State, f: FileId, e: Env)
    requires s.command.Applying?
    ensures LoopStepOrSame(s, f, e).db == s.db
  {
  }

  lemma RecoverKeepsCommitted(s: State, k: (RunId, FileId), e: Env)
    requires CommandOk(s.db, s.command) && s.command.Applying? && IsCommitted(s, k)
    ensures IsCommitted(RecoverWriteStep(s, e), k)
  {
  }

  lemma CommitKeepsCommitted(s: State, k: (RunId, FileId), e: Env)
    requires CommandOk(s.db, s.command) && s.command.Applying? && IsCommitted(s, k)
    ensures IsCommitted(CommitStep(s, e), k)
  {
  }

  lemma PrepareKeepsCommitted(s: State, k: (RunId, FileId), e: Env)
    requires CommandOk(s.db, s.command) && s.command.Applying? && IsCommitted(s, k)
    ensures IsCommitted(PrepareStep(s, e), k)
  {
  }

  lemma PublishKeepsCommitted(s: State, k: (RunId, FileId), e: Env)
    requires CommandOk(s.db, s.command) && s.command.Applying? && IsCommitted(s, k)
    ensures IsCommitted(PublishStep(s, e), k)
  {
  }

  lemma UploadWritesNoItem(s: State, u: nat, a: UploadAction, partial: Blob)
    ensures var t := UploadStep(s, u, a, partial);
      t.db.items == s.db.items && t.command == s.command && t.db.issued == s.db.issued
  {
  }

  lemma DeleteWritesNoItem(s: State, d: nat, a: DeleteAction)
    ensures var t := DeleteStep(s, d, a);
      t.db.items == s.db.items && t.command == s.command && t.db.issued == s.db.issued
  {
  }

  lemma CleanupKeepsCommitted(s: State, k: (RunId, FileId), f: FileId, e: Env)
    requires IsCommitted(s, k)
    ensures IsCommitted(CleanupStep(s, f, e), k)
  {
  }

  lemma NextKeepsCommitted(s: State, k: (RunId, FileId), a: Step)
    requires CommandOk(s.db, s.command) && IsCommitted(s, k)
    ensures IsCommitted(Next(s, a), k)
  {
    match a
    case UploadBy(u, act, partial) => UploadWritesNoItem(s, u, act, partial);
    case DeleteBy(d, act) => DeleteWritesNoItem(s, d, act);
    case ApplyOne(f, e) => if s.command.Applying? { CommandKeepsCommitted(s, k, f, e); }
    case CleanupOne(f, e) => CleanupKeepsCommitted(s, k, f, e);
    case _ =>
  }

  lemma {:induction false} RunKeepsCommitted(s: State, k: (RunId, FileId), steps: seq<Step>)
    requires Inv(s) && IsCommitted(s, k)
    ensures IsCommitted(Run(s, steps), k)
    decreases |steps|
  {
    if steps != [] {
      NextInv(s, steps[0]);
      NextKeepsCommitted(s, k, steps[0]);
      RunKeepsCommitted(Next(s, steps[0]), k, steps[1..]);
    }
  }

  // Whatever happens after an item was committed, it stays committed.
  lemma CommittedIsFinal(s: State, before: seq<Step>, after: seq<Step>, k: (RunId, FileId))
    requires Init(s) && IsCommitted(Run(s, before), k)
    ensures IsCommitted(Run(s, before + after), k)
  {
    InitInv(s);
    RunInv(s, before);
    RunConcat(s, before, after);
    RunKeepsCommitted(Run(s, before), k, after);
  }

  // ----- recovery leaves nothing in flight --------------------------------------------------------

  // While the command recovers, the items in flight are those it has not come to and the current one.
  ghost predicate Accounted(s: State) {
    s.command.Applying? && s.command.todo.None? && !s.command.lost ==>
      forall f | (s.command.run, f) in s.db.items && InFlight(s.db.items[(s.command.run, f)]) ::
        f in s.command.recover || Busy(s.command.pc, f)
  }

  // Conversion starts only after recovery.
  ghost predicate Phases(s: State) {
    s.command.Applying? && s.command.todo.None? ==>
      var pc := s.command.pc;
      && (pc.CheckTarget? || pc.ReadRecord? || pc.CheckSource? || pc.Switch? || pc.Confirm? ==> pc.recovering)
      && !(pc.ReadSource? || pc.CreateItem? || pc.MarkProcessing? || pc.Process? || pc.Publish? || pc.WriteOut?
           || pc.HashSource? || pc.Stage? || pc.Reload?)
  }

  lemma LoopAccounted(s: State, f: FileId, e: Env)
    requires CommandOk(s.db, s.command) && s.command.Applying? && s.command.pc.Loop? && Accounted(s) && Phases(s)
    ensures Accounted(LoopStep(s, f, e)) && Phases(LoopStep(s, f, e))
  {
  }

  lemma InspectAccounted(s: State, fails: bool)
    requires CommandOk(s.db, s.command) && s.command.Applying? && s.command.pc.Inspect? && Accounted(s) && Phases(s)
    ensures var t := To(s, s.db, InspectPc(s.db, s.command.pc.f, s.command.pc.it, fails)); Accounted(t) && Phases(t)
  {
  }

  lemma RecoverAccounted(s: State, e: Env)
    requires CommandOk(s.db, s.command) && s.command.Applying? && Accounted(s) && Phases(s)
    ensures Accounted(RecoverWriteStep(s, e)) && Phases(RecoverWriteStep(s, e))
  {
  }

  lemma CommitAccounted(s: State, e: Env)
    requires CommandOk(s.db, s.command) && s.command.Applying? && Accounted(s) && Phases(s)
    requires s.command.pc.CheckTarget? || s.command.pc.ReadRecord? || s.command.pc.CheckSource?
          || s.command.pc.Switch? || s.command.pc.Confirm?
    ensures Accounted(CommitStep(s, e)) && Phases(CommitStep(s, e))
  {
    if s.command.pc.Switch? || s.command.pc.Confirm? { CommittingAccounted(s, e); }
  }

  lemma CommittingAccounted(s: State, e: Env)
    requires CommandOk(s.db, s.command) && s.command.Applying? && Accounted(s) && Phases(s)
    requires s.command.pc.Switch? || s.command.pc.Confirm?
    ensures Accounted(CommitStep(s, e)) && Phases(CommitStep(s, e))
  {
    var run, f := s.command.run, s.command.pc.f;
    var t := CommitStep(s, e);
    assert t.command.run == run && t.command.recover == s.command.recover && t.command.todo == s.command.todo;
    assert t.db.items == s.db.items
        || (t.command.pc.Loop? && t.db.items == s.db.items[(run, f) := CommittedItem(s.db.items[(run, f)], e.now)]);
  }

  // Preparing and publishing happen after recovery only.
  lemma ConvertAccounted(s: State, e: Env)
    requires s.command.Applying? && s.command.todo.Some?
    ensures Accounted(PrepareStep(s, e)) && Phases(PrepareStep(s, e))
    ensures Accounted(PublishStep(s, e)) && Phases(PublishStep(s, e))
  {
  }

  lemma ApplyAccounted(s: State, f: FileId, e: Env)
    requires CommandOk(s.db, s.command) && Accounted(s) && Phases(s)
    ensures Accounted(ApplyStep(s, f, e)) && Phases(ApplyStep(s, f, e))
  {
    if s.command.Applying? {
      var pc := s.command.pc;
      if pc.Loop? { LoopAccounted(s, f, e); }
      else if pc.Inspect? { InspectAccounted(s, e.fails); }
      else if pc.SetPending? || pc.SetStaged? || pc.SetFailed? { RecoverAccounted(s, e); }
      else if pc.CheckTarget? || pc.ReadRecord? || pc.CheckSource? || pc.Switch? || pc.Confirm? {
        CommitAccounted(s, e);
      }
      else { ConvertAccounted(s, e); }
    }
  }

  lemma BeginAccounted(s: State, run: RunId)
    requires Accounted(s) && Phases(s)
    ensures Accounted(StartApply(s, run)) && Phases(StartApply(s, run))
  {
    if s.command.Down? {
      forall f | (run, f) in s.db.items && InFlight(s.db.items[(run, f)])
        ensures f in StartApply(s, run).command.recover
      {
        assert (run, f).1 == f;
      }
    }
  }

  lemma CleanupIsNoApply(s: State, f: FileId, e: Env)
    requires s.command.Cleaning?
    ensures !CleanupStep(s, f, e).command.Applying?
  {
  }

  lemma NextAccounted(s: State, a: Step)
    requires CommandOk(s.db, s.command) && Accounted(s) && Phases(s)
    ensures Accounted(Next(s, a)) && Phases(Next(s, a))
  {
    match a
    case UploadBy(u, act, partial) => UploadWritesNoItem(s, u, act, partial);
    case DeleteBy(d, act) => DeleteWritesNoItem(s, d, act);
    case ApplyOne(f, e) => ApplyAccounted(s, f, e);
    case BeginApply(run) => BeginAccounted(s, run);
    case CleanupOne(f, e) => if s.command.Cleaning? { CleanupIsNoApply(s, f, e); }
    case _ =>
  }

  lemma {:induction false} RunAccounted(s: State, steps: seq<Step>)
    requires Inv(s) && Accounted(s) && Phases(s)
    ensures Accounted(Run(s, steps))
    decreases |steps|
  {
    if steps != [] {
      NextInv(s, steps[0]);
      NextAccounted(s, steps[0]);
      RunAccounted(Next(s, steps[0]), steps[1..]);
    }
  }

  // The point in `apply` where recovery is over and candidates are about to be loaded.
  predicate Recovered(c: Command) {
    c.Applying? && c.recover == {} && c.todo.None? && c.pc.Loop? && !c.lost
  }

  /**
   Started from any crash state and interleaved with uploads and deletes, recovery that lost no
   database write leaves no item of its run PROCESSING or STAGED. Repeating it finds nothing to do:
   after a crash and a restart the same command is recovered at once, with the same stores.
   */
  lemma RecoveryLeavesNothingInFlight(s: State, steps: seq<Step>)
    requires Init(s)
    requires Recovered(Run(s, steps).command)
    ensures var t := Run(s, steps);
      && (forall f | (t.command.run, f) in t.db.items :: !InFlight(t.db.items[(t.command.run, f)]))
      && Run(s, steps + [Crash, BeginApply(t.command.run)]) == t
  {
    InitInv(s);
    RunInv(s, steps);
    RunAccounted(s, steps);
    RecoverAgain(Run(s, steps));
    RunConcat(s, steps, [Crash, BeginApply(Run(s, steps).command.run)]);
  }

  lemma RecoverAgain(t: State)
    requires Recovered(t.command)
    requires forall f | (t.command.run, f) in t.db.items :: !InFlight(t.db.items[(t.command.run, f)])
    ensures Run(t, [Crash, BeginApply(t.command.run)]) == t
  {
    var run, down := t.command.run, Next(t, Crash);
    var again := [Crash, BeginApply(run)];
    assert again[1..] == [BeginApply(run)];
    assert Run(t, again) == Run(down, again[1..]);
    assert Run(down, again[1..]) == Next(down, BeginApply(run));
    var found := set k | k in t.db.items && k.0 == run && InFlight(t.db.items[k]) :: k.1;
    forall k | k in t.db.items && k.0 == run ensures !InFlight(t.db.items[k]) {
      assert (run, k.1) == k;
    }
    assert found == {};
  }

  // ----- cleanup does its work ---------------------------------------------------------------------

  // The old object of the item being cleaned is gone already.
  predicate OldIsGone(db: Store, c: Command) {
    c.Cleaning? ==>
      match c.cpc
      case HashNew(f, _) => Legacy(f) !in db.disk
      case RemoveNew(f, _) => Legacy(f) !in db.disk
      case CleanOk(f) => Legacy(f) !in db.disk
      case _ => true
  }

  ghost predicate DoneIsGone(db: Store) {
    forall k | k in db.items && db.items[k].cleanup == CleanupDone :: Legacy(k.1) !in db.disk
  }

  ghost predicate Tidy(s: State) { DoneIsGone(s.db) && OldIsGone(s.db, s.command) }

  // No object appears under a legacy key, and no item becomes done.
  ghost predicate Fades(a: Store, b: Store) {
    && (forall f | Legacy(f) in b.disk :: Legacy(f) in a.disk)
    && (forall k | k in b.items && b.items[k].cleanup == CleanupDone ::
          k in a.items && a.items[k].cleanup == CleanupDone)
  }

  lemma FadesTidy(s: State, t: State)
    requires Tidy(s) && Fades(s.db, t.db) && (t.command == s.command || !t.command.Cleaning?)
    ensures Tidy(t)
  {
  }

  lemma UploadFades(s: State, u: nat, a: UploadAction, partial: Blob)
    requires UploadsOk(s.db, s.uploads)
    ensures Fades(s.db, UploadStep(s, u, a, partial).db)
  {
    if u in s.uploads { assert UploadOk(s.db, s.uploads[u]); }
  }

  lemma DeleteFades(s: State, d: nat, a: DeleteAction)
    ensures Fades(s.db, DeleteStep(s, d, a).db)
  {
  }

  // Writing an item that is not done, or an object under another key.
  lemma ItemFades(db: Store, run: RunId, f: FileId, it: Item)
    requires it.cleanup == CleanupDone ==> (run, f) in db.items && db.items[(run, f)].cleanup == CleanupDone
    ensures Fades(db, PutItem(db, run, f, it))
  {
  }

  lemma PrepareFades(s: State, e: Env)
    requires s.command.Applying?
    ensures Fades(s.db, PrepareStep(s, e).db) && !PrepareStep(s, e).command.Cleaning?
  {
    var db, run := s.db, s.command.run;
    match s.command.pc
    case CreateItem(f, _) => ItemFades(db, run, f, NewItem(f));
    case MarkProcessing(f, _) =>
      if (run, f) in db.items { ItemFades(db, run, f, ProcessingItem(db.items[(run, f)], f)); }
    case _ =>
  }

  lemma PublishFades(s: State, e: Env)
    requires s.command.Applying?
    ensures Fades(s.db, PublishStep(s, e).db) && !PublishStep(s, e).command.Cleaning?
  {
    var db, run := s.db, s.command.run;
    match s.command.pc
    case Stage(f, out, sha) =>
      if (run, f) in db.items { ItemFades(db, run, f, StagedItem(db.items[(run, f)], f, sha, out)); }
    case _ =>
  }

  lemma CommitFades(s: State, e: Env)
    requires s.command.Applying?
    ensures Fades(s.db, CommitStep(s, e).db) && !CommitStep(s, e).command.Cleaning?
  {
    var db, run, pc := s.db, s.command.run, s.command.pc;
    if (pc.Switch? || pc.Confirm?) && (run, pc.f) in db.items {
      ItemFades(db, run, pc.f, CommittedItem(db.items[(run, pc.f)], e.now));
    }
  }

  lemma RecoverFades(s: State, e: Env)
    requires s.command.Applying?
    ensures Fades(s.db, RecoverWriteStep(s, e).db) && !RecoverWriteStep(s, e).command.Cleaning?
  {
    var db, run, pc := s.db, s.command.run, s.command.pc;
    if (pc.SetPending? || pc.SetStaged? || pc.SetFailed?) && (run, pc.f) in db.items {
      ItemFades(db, run, pc.f, db.items[(run, pc.f)].(status := Pending));
      ItemFades(db, run, pc.f, db.items[(run, pc.f)].(status := Staged));
      ItemFades(db, run, pc.f, db.items[(run, pc.f)].(status := Failed));
    }
  }

  lemma ApplyFades(s: State, f: FileId, e: Env)
    requires s.command.Applying?
    ensures Fades(s.db, ApplyStep(s, f, e).db) && !ApplyStep(s, f, e).command.Cleaning?
  {
    LoopWritesNothing(s, f, e);
    PrepareFades(s, e);
    PublishFades(s, e);
    CommitFades(s, e);
    RecoverFades(s, e);
  }

  lemma CleanStepsTidy(s: State, f: FileId, e: Env)
    requires CommandOk(s.db, s.command) && s.command.Cleaning? && Tidy(s)
    ensures Tidy(CleanTestStep(s, e)) && Tidy(CleanRemoveStep(s, e)) && Tidy(CleanWriteStep(s, f, e))
  {
  }

  lemma NextTidy(s: State, a: Step)
    requires Inv(s) && Tidy(s)
    ensures Tidy(Next(s, a))
  {
    match a
    case UploadBy(u, act, partial) =>
      UploadWritesNoItem(s, u, act, partial);
      UploadFades(s, u, act, partial);
      FadesTidy(s, Next(s, a));
    case DeleteBy(d, act) =>
      DeleteWritesNoItem(s, d, act);
      DeleteFades(s, d, act);
      FadesTidy(s, Next(s, a));
    case ApplyOne(f, e) =>
      if s.command.Applying? {
        ApplyFades(s, f, e);
        FadesTidy(s, Next(s, a));
      }
    case CleanupOne(f, e) => if s.command.Cleaning? { CleanStepsTidy(s, f, e); }
    case _ =>
  }

  lemma {:induction false} RunTidy(s: State, steps: seq<Step>)
    requires Inv(s) && Tidy(s)
    ensures Tidy(Run(s, steps))
    decreases |steps|
  {
    if steps != [] {
      NextInv(s, steps[0]);
      NextTidy(s, steps[0]);
      RunTidy(Next(s, steps[0]), steps[1..]);
    }
  }

  /** An item whose cleanup is recorded as done has no source object on disk, from then on. */
  lemma CleanedMeansGone(s: State, steps: seq<Step>)
    requires Init(s)
    ensures DoneIsGone(Run(s, steps).db)
  {
    InitInv(s);
    RunTidy(s, steps);
  }

  // ----- uploads do theirs -------------------------------------------------------------------------

  /** A finished upload, unless its record was deleted: the record is accepted and holds the content. */
  lemma AcceptedUploadHoldsItsContent(s: State, steps: seq<Step>, u: nat)
    requires Init(s) && u in Run(s, steps).uploads && Run(s, steps).uploads[u].Published?
    ensures var before := Run(s, steps);
      var up, after := before.uploads[u], UploadStep(before, u, UpdateRecord, "").db;
      up.file in before.db.files ==>
        after.files[up.file].pass && after.files[up.file].key == up.key
        && up.key in after.disk && after.disk[up.key] == up.content && after.files[up.file].meta.size == |up.content|
  {
    InitInv(s);
    RunInv(s, steps);
    assert UploadOk(Run(s, steps).db, Run(s, steps).uploads[u]);
  }

  // ----- published but not staged ------------------------------------------------------------------

  // The command may still come to claim that object b at the target key of f is its output.
  predicate Claims(pc: ApplyPc, f: FileId, b: Blob) {
    match pc
    case WriteOut(g, _) => g == f
    case HashSource(g, out) => g == f && out == b
    case Stage(g, out, _) => g == f && out == b
    case _ => false
  }

  // The record is at its legacy key, an object nobody recorded occupies its target key.
  ghost predicate Orphaned(s: State, f: FileId, b: Blob) {
    var db := s.db;
    f in db.files ==>
      && db.files[f].key == Legacy(f)
      && Target(f) in db.disk && db.disk[Target(f)] == b
      && (forall run | (run, f) in db.items :: db.items[(run, f)].outputSha != Some(b))
      && (s.command.Applying? ==> !Claims(s.command.pc, f, b))
  }

  lemma CommandKeepsOrphan(s: State, f: FileId, b: Blob, g: FileId, e: Env)
    requires CommandOk(s.db, s.command) && ItemsOk(s.db) && s.command.Applying? && Orphaned(s, f, b)
    ensures Orphaned(ApplyStep(s, g, e), f, b)
  {
    var pc := s.command.pc;
    if pc.Loop? { LoopKeepsOrphan(s, f, b, g, e); }
    else if pc.Inspect? { }
    else if pc.SetPending? || pc.SetStaged? || pc.SetFailed? { RecoverKeepsOrphan(s, f, b, e); }
    else if pc.CheckTarget? || pc.ReadRecord? || pc.CheckSource? || pc.Switch? || pc.Confirm? {
      CommitKeepsOrphan(s, f, b, e);
    }
    else if pc.ReadSource? || pc.CreateItem? || pc.MarkProcessing? || pc.Process? { PrepareKeepsOrphan(s, f, b, e); }
    else { PublishKeepsOrphan(s, f, b, e); }
  }

  ghost predicate ItemsOk(db: Store) { forall k | k in db.items :: ItemOk(db, k.1, db.items[k]) }

  lemma LoopKeepsOrphan(s: State, f: FileId, b: Blob, g: FileId, e: Env)
    requires s.command.Applying? && s.command.pc.Loop? && Orphaned(s, f, b)
    ensures Orphaned(LoopStep(s, g, e), f, b)
  {
  }

  lemma RecoverKeepsOrphan(s: State, f: FileId, b: Blob, e: Env)
    requires s.command.Applying? && Orphaned(s, f, b)
    ensures Orphaned(RecoverWriteStep(s, e), f, b)
  {
  }

  lemma CommitKeepsOrphan(s: State, f: FileId, b: Blob, e: Env)
    requires CommandOk(s.db, s.command) && s.command.Applying? && ItemsOk(s.db) && Orphaned(s, f, b)
    ensures Orphaned(CommitStep(s, e), f, b)
  {
    if s.command.pc.Switch? || s.command.pc.Confirm? { SwitchKeepsOrphan(s, f, b, e); }
  }

  // The orphan's record cannot be the one that moves: its item would know the object.
  lemma SwitchKeepsOrphan(s: State, f: FileId, b: Blob, e: Env)
    requires CommandOk(s.db, s.command) && s.command.Applying? && ItemsOk(s.db) && Orphaned(s, f, b)
    requires s.command.pc.Switch? || s.command.pc.Confirm?
    ensures Orphaned(CommitStep(s, e), f, b)
  {
  }

  lemma PrepareKeepsOrphan(s: State, f: FileId, b: Blob, e: Env)
    requires CommandOk(s.db, s.command) && s.command.Applying? && Orphaned(s, f, b)
    ensures Orphaned(PrepareStep(s, e), f, b)
  {
  }

  lemma PublishKeepsOrphan(s: State, f: FileId, b: Blob, e: Env)
    requires CommandOk(s.db, s.command) && s.command.Applying? && Orphaned(s, f, b)
    ensures Orphaned(PublishStep(s, e), f, b)
  {
    if s.command.pc.Publish? || s.command.pc.WriteOut? { WriteKeepsOrphan(s, f, b, e); }
    else { StageKeepsOrphan(s, f, b, e); }
  }

  lemma WriteKeepsOrphan(s: State, f: FileId, b: Blob, e: Env)
    requires s.command.Applying? && Orphaned(s, f, b) && (s.command.pc.Publish? || s.command.pc.WriteOut?)
    ensures Orphaned(PublishStep(s, e), f, b)
  {
  }

  lemma StageKeepsOrphan(s: State, f: FileId, b: Blob, e: Env)
    requires s.command.Applying? && Orphaned(s, f, b) && !s.command.pc.Publish? && !s.command.pc.WriteOut?
    ensures Orphaned(PublishStep(s, e), f, b)
  {
  }

  lemma UploadKeepsOrphan(s: State, f: FileId, b: Blob, u: nat, a: UploadAction, partial: Blob)
    requires StoreOk(s.db) && UploadsOk(s.db, s.uploads) && Orphaned(s, f, b)
    ensures Orphaned(UploadStep(s, u, a, partial), f, b)
  {
    if u in s.uploads { assert UploadOk(s.db, s.uploads[u]); }
  }

  lemma DeleteKeepsOrphan(s: State, f: FileId, b: Blob, d: nat, a: DeleteAction)
    requires DeletesOk(s.db, s.deletes) && Orphaned(s, f, b)
    ensures Orphaned(DeleteStep(s, d, a), f, b)
  {
    if d in s.deletes { assert RemovalOk(s.db, s.deletes[d]); }
  }

  lemma CleanTestKeepsOrphan(s: State, f: FileId, b: Blob, e: Env)
    requires s.command.Cleaning? && Orphaned(s, f, b)
    ensures Orphaned(CleanTestStep(s, e), f, b)
  {
  }

  lemma CleanWriteKeepsOrphan(s: State, f: FileId, b: Blob, g: FileId, e: Env)
    requires s.command.Cleaning? && Orphaned(s, f, b)
    ensures Orphaned(CleanWriteStep(s, g, e), f, b)
  {
  }

  lemma CleanRemoveKeepsOrphan(s: State, f: FileId, b: Blob, e: Env)
    requires CommandOk(s.db, s.command) && s.command.Cleaning? && Orphaned(s, f, b)
    ensures Orphaned(CleanRemoveStep(s, e), f, b)
  {
  }

  lemma CleanKeepsOrphan(s: State, f: FileId, b: Blob, g: FileId, e: Env)
    requires CommandOk(s.db, s.command) && s.command.Cleaning? && Orphaned(s, f, b)
    ensures Orphaned(CleanupStep(s, g, e), f, b)
  {
    CleanTestKeepsOrphan(s, f, b, e);
    CleanWriteKeepsOrphan(s, f, b, g, e);
    CleanRemoveKeepsOrphan(s, f, b, e);
  }

  lemma NextKeepsOrphan(s: State, f: FileId, b: Blob, a: Step)
    requires Inv(s) && Orphaned(s, f, b) && f in s.db.issued
    ensures Orphaned(Next(s, a), f, b) && f in Next(s, a).db.issued
  {
    IssuedGrows(s, f, a);
    match a
    case UploadBy(u, act, partial) => UploadKeepsOrphan(s, f, b, u, act, partial);
    case DeleteBy(d, act) => DeleteKeepsOrphan(s, f, b, d, act);
    case ApplyOne(g, e) => if s.command.Applying? { CommandKeepsOrphan(s, f, b, g, e); }
    case CleanupOne(g, e) => if s.command.Cleaning? { CleanKeepsOrphan(s, f, b, g, e); }
    case _ =>
  }

  lemma IssuedGrows(s: State, f: FileId, a: Step)
    requires f in s.db.issued
    ensures f in Next(s, a).db.issued
  {
    match a
    case UploadBy(u, act, partial) => UploadWritesNoItem(s, u, act, partial);
    case DeleteBy(d, act) => DeleteWritesNoItem(s, d, act);
    case ApplyOne(g, e) => if s.command.Applying? { ApplyIssuesNothing(s, g, e); }
    case CleanupOne(g, e) => if s.command.Cleaning? { CleanupIssuesNothing(s, g, e); }
    case _ =>
  }

  lemma ApplyIssuesNothing(s: State, g: FileId, e: Env)
    requires s.command.Applying?
    ensures s.command.pc.Loop? ==> LoopStep(s, g, e).db.issued == s.db.issued
    ensures RecoverWriteStep(s, e).db.issued == s.db.issued && CommitStep(s, e).db.issued == s.db.issued
    ensures PrepareStep(s, e).db.issued == s.db.issued && PublishStep(s, e).db.issued == s.db.issued
  {
    PrepareIssuesNothing(s, e);
    PublishIssuesNothing(s, e);
  }

  lemma PrepareIssuesNothing(s: State, e: Env)
    requires s.command.Applying?
    ensures PrepareStep(s, e).db.issued == s.db.issued
  {
  }

  lemma PublishIssuesNothing(s: State, e: Env)
    requires s.command.Applying?
    ensures PublishStep(s, e).db.issued == s.db.issued
  {
  }

  lemma CleanupIssuesNothing(s: State, g: FileId, e: Env)
    requires s.command.Cleaning?
    ensures CleanTestStep(s, e).db.issued == s.db.issued && CleanRemoveStep(s, e).db.issued == s.db.issued
    ensures CleanWriteStep(s, g, e).db.issued == s.db.issued
  {
  }

  /** An object at the target key that no item knows is never adopted: the record stays where it is. */
  lemma {:induction false} UnknownObjectIsNeverAdopted(s: State, f: FileId, b: Blob, steps: seq<Step>)
    requires Inv(s) && f in s.db.issued && Orphaned(s, f, b)
    ensures f in Run(s, steps).db.files ==> Run(s, steps).db.files[f].key == Legacy(f)
    decreases |steps|
  {
    if steps != [] {
      NextInv(s, steps[0]);
      NextKeepsOrphan(s, f, b, steps[0]);
      UnknownObjectIsNeverAdopted(Next(s, steps[0]), f, b, steps[1..]);
    }
  }
}
