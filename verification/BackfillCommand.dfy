/**
 The backfill command as the program it is: loops over items that read and write the database and
 the disk and keep a summary.

 Before every access the other actors may take any number of steps, and the access may fail. Each
 access is one step of the machine of ProductImages.dfy, recorded in `trace`; so whatever was proved
 about all runs of the machine holds at every point of the program.
 */
module BackfillCommands {
  import opened Wrappers
  import opened ProductImages
  import ProductImagesSafety
  import opened ProductImagesRecovery
  import opened ProductImagesTracking
  import opened ProductImagesOutcomes
  import opened ProductImagesDelay

  datatype Summary = Summary(
    evaluated: nat, committed: nat, failed: nat, pendingCleanup: nat, cleanupDone: nat, cleanupFailed: nat)

  const NOTHING := Summary(0, 0, 0, 0, 0, 0)

  function Add(a: Summary, b: Summary): Summary {
    Summary(a.evaluated + b.evaluated, a.committed + b.committed, a.failed + b.failed,
            a.pendingCleanup + b.pendingCleanup, a.cleanupDone + b.cleanupDone, a.cleanupFailed + b.cleanupFailed)
  }

  // ----- the machine, one step at a time -------------------------------------------------------------

  lemma OthersIgnoreTheCommand(s: State, a: Step)
    requires ByOthers(a)
    ensures var t := Next(s.(command := Down), a); Next(s, a) == t.(command := s.command) && t.db.items == s.db.items
  {
    match a
    case UploadBy(u, act, partial) =>
      UploadWritesNoItem(s, u, act, partial);
      UploadIgnoresTheCommand(s, u, act, partial);
    case DeleteBy(d, act) => DeleteIgnoresTheCommand(s, d, act);
    case _ =>
  }

  lemma UploadIgnoresTheCommand(s: State, u: nat, a: UploadAction, partial: Blob)
    ensures UploadStep(s, u, a, partial) == UploadStep(s.(command := Down), u, a, partial).(command := s.command)
    ensures UploadStep(s.(command := Down), u, a, partial).db.items == s.db.items
  {
  }

  lemma DeleteIgnoresTheCommand(s: State, d: nat, a: DeleteAction)
    ensures DeleteStep(s, d, a) == DeleteStep(s.(command := Down), d, a).(command := s.command)
    ensures DeleteStep(s.(command := Down), d, a).db.items == s.db.items
  {
  }

  lemma OneMore(s: State, steps: seq<Step>, a: Step)
    ensures Run(s, steps + [a]) == Next(Run(s, steps), a)
  {
    RunConcat(s, steps, [a]);
    assert [a][1..] == [];
    assert Run(Run(s, steps), [a]) == Run(Next(Run(s, steps), a), []);
  }

  predicate CommitPc(pc: ApplyPc) { pc.CheckTarget? || pc.ReadRecord? || pc.CheckSource? || pc.Switch? || pc.Confirm? }

  predicate RecoverPc(pc: ApplyPc) { pc.SetPending? || pc.SetStaged? || pc.SetFailed? }

  predicate PreparePc(pc: ApplyPc) { pc.ReadSource? || pc.CreateItem? || pc.MarkProcessing? || pc.Process? }

  predicate PublishPc(pc: ApplyPc) { pc.Publish? || pc.WriteOut? || pc.HashSource? || pc.Stage? || pc.Reload? }

  lemma ApplyIs(s: State, f: FileId, e: Env)
    requires s.command.Applying?
    ensures var t, pc := Next(s, ApplyOne(f, e)), s.command.pc;
      && (CommitPc(pc) ==> t == CommitStep(s, e)) && (RecoverPc(pc) ==> t == RecoverWriteStep(s, e))
      && (PreparePc(pc) ==> t == PrepareStep(s, e)) && (PublishPc(pc) ==> t == PublishStep(s, e))
      && (pc.Loop? ==> t == LoopStep(s, f, e))
      && (pc.Inspect? ==> t == To(s, s.db, InspectPc(s.db, pc.f, pc.it, e.fails)))
  {
  }

  lemma CleanIs(s: State, f: FileId, e: Env)
    requires s.command.Cleaning?
    ensures var t, pc := Next(s, CleanupOne(f, e)), s.command.cpc;
      && (pc.CleanRecord? || pc.CleanTarget? || pc.CleanCount? ==> t == CleanTestStep(s, e))
      && (pc.HashOld? || pc.RemoveOld? || pc.HashNew? || pc.RemoveNew? ==> t == CleanRemoveStep(s, e))
      && (pc.CleanLoop? || pc.CleanOk? || pc.CleanBad? ==> t == CleanWriteStep(s, f, e))
  {
  }

  // ----- counting ----------------------------------------------------------------------------------

  predicate CommittedAt(items: map<(RunId, FileId), Item>, run: RunId, f: FileId) {
    (run, f) in items && items[(run, f)].status == Committed
  }

  // The files of the run whose items are COMMITTED.
  ghost function CommittedIn(items: map<(RunId, FileId), Item>, run: RunId): (r: set<FileId>)
    ensures forall f :: f in r <==> CommittedAt(items, run, f)
  {
    var r := set k | k in items && k.0 == run && items[k].status == Committed :: k.1;
    assert forall f: FileId | CommittedAt(items, run, f) :: (run, f) in items && (run, f).1 == f;
    r
  }

  // The items cleanup works on, as selected at time `now`.
  ghost function DueIn(db: Store, run: RunId, now: int): (r: set<FileId>)
    ensures forall f :: f in r <==> IsDue(db, run, f, now)
  {
    var r := set k | k in db.items && k.0 == run && IsDue(db, run, k.1, now) :: k.1;
    assert forall f: FileId | IsDue(db, run, f, now) :: (run, f) in db.items && (run, f).1 == f;
    r
  }

  // A status update of recovery that fails.
  predicate UpdateFailed(s: State, a: Step) {
    s.command.Applying? && RecoverPc(s.command.pc) && a.ApplyOne? && a.env.fails
  }

  ghost function FailedUpdates(s: State, steps: seq<Step>): nat
    decreases |steps|
  {
    if steps == [] then 0
    else (if UpdateFailed(s, steps[0]) then 1 else 0) + FailedUpdates(Next(s, steps[0]), steps[1..])
  }

  lemma {:induction false} OneMoreUpdate(s: State, steps: seq<Step>, a: Step)
    ensures FailedUpdates(s, steps + [a])
         == FailedUpdates(s, steps) + if UpdateFailed(Run(s, steps), a) then 1 else 0
    decreases |steps|
  {
    if steps == [] {
      assert steps + [a] == [a] && [a][1..] == [];
    } else {
      assert (steps + [a])[0] == steps[0] && (steps + [a])[1..] == steps[1..] + [a];
      OneMoreUpdate(Next(s, steps[0]), steps[1..], a);
    }
  }

  // An access of `apply` that fails.
  predicate AccessFailed(s: State, a: Step) {
    s.command.Applying? && !s.command.pc.Loop? && a.ApplyOne? && a.env.fails
  }

  ghost function FailedAccesses(s: State, steps: seq<Step>): nat
    decreases |steps|
  {
    if steps == [] then 0
    else (if AccessFailed(s, steps[0]) then 1 else 0) + FailedAccesses(Next(s, steps[0]), steps[1..])
  }

  lemma {:induction false} OneMoreAccess(s: State, steps: seq<Step>, a: Step)
    ensures FailedAccesses(s, steps + [a])
         == FailedAccesses(s, steps) + if AccessFailed(Run(s, steps), a) then 1 else 0
    decreases |steps|
  {
    if steps == [] {
      assert steps + [a] == [a] && [a][1..] == [];
    } else {
      assert (steps + [a])[0] == steps[0] && (steps + [a])[1..] == steps[1..] + [a];
      OneMoreAccess(Next(s, steps[0]), steps[1..], a);
    }
  }

  // ----- what happens around the objects of one file -----------------------------------------------

  lemma OthersKeepRecords(s: State, a: Step)
    requires ProductImagesSafety.Inv(s) && ByOthers(a)
    ensures OthersKeep(s.db, Next(s.(command := Down), a).db)
  {
    match a
    case NewFile(f, kind, ext) => PresignKeeps(s.db, f, kind, ext);
    case UploadBy(u, act, partial) => UploadKeeps(s.(command := Down), u, act, partial);
    case DeleteBy(d, act) => DeleteKeeps(s.(command := Down), d, act);
    case _ =>
  }

  // Like OthersKeep, but the objects of f may be written and removed.
  ghost predicate KeptBut(a: Store, b: Store, f: FileId) {
    && b.items == a.items && a.issued <= b.issued
    && (forall g | g != f :: RecordKept(a, b, g))
    && (f in b.files && !b.files[f].key.Issued? ==> f in a.files && b.files[f] == a.files[f])
    && (forall g | g in b.files && g in a.issued ::
          g in a.files && (b.files[g].key.Issued? <==> a.files[g].key.Issued?))
    && (forall g | Legacy(g) in b.disk :: Legacy(g) in a.disk)
  }

  lemma OthersKeepBut(a: Store, b: Store, f: FileId)
    requires OthersKeep(a, b)
    ensures KeptBut(a, b, f)
  {
    assert RecordKept(a, b, f);
  }

  lemma KeptButBoth(a: Store, b: Store, c: Store, f: FileId)
    requires KeptBut(a, b, f) && KeptBut(b, c, f)
    ensures KeptBut(a, c, f)
  {
    forall g | g != f ensures RecordKept(a, c, g) { assert RecordKept(b, c, g) && RecordKept(a, b, g); }
  }

  // Writing or removing one object of f.
  lemma ObjectKeptBut(a: Store, b: Store, k: Key)
    requires !k.Issued? && b == a.(disk := b.disk) && forall j | j != k :: SameObject(a, b, j)
    requires k.Legacy? && k in b.disk ==> k in a.disk
    ensures KeptBut(a, b, k.file)
  {
    forall g | Legacy(g) in b.disk ensures Legacy(g) in a.disk { assert SameObject(a, b, Legacy(g)) || Legacy(g) == k; }
    forall g | g != k.file ensures RecordKept(a, b, g) {
      assert SameObject(a, b, Legacy(g)) && SameObject(a, b, Target(g));
    }
  }

  lemma LegacyKept(a: Store, b: Store, f: FileId)
    requires KeptBut(a, b, f) && ProductImagesSafety.IsLegacy(a, f)
    ensures ProductImagesSafety.IsLegacy(b, f) && (f in b.files ==> f in a.files && b.files[f] == a.files[f])
  {
  }

  // The others leave both objects of a legacy image alone while its record exists.
  ghost predicate Around(a: Store, b: Store, f: FileId) {
    && ProductImagesSafety.IsLegacy(b, f) && KeptBut(a, b, f)
    && (f in b.files ==>
          && f in a.files && b.files[f] == a.files[f]
          && SameObject(a, b, Legacy(f)) && SameObject(a, b, Target(f)))
  }

  lemma ObjectsKept(a: Store, b: Store, f: FileId)
    requires OthersKeep(a, b) && ProductImagesSafety.IsLegacy(a, f)
    ensures Around(a, b, f)
  {
    OthersKeepBut(a, b, f);
    LegacyKept(a, b, f);
    assert RecordKept(a, b, f);
  }

  lemma WritesTarget(b: Store, f: FileId, content: Blob)
    ensures forall k | k != Target(f) ::
      SameObject(b, WriteThrough(b, Target(f), content), k) && SameObject(b, Unlink(b, Target(f)), k)
    ensures WriteThrough(b, Target(f), content) == b.(disk := WriteThrough(b, Target(f), content).disk)
  {
  }

  // The others act around the image, then the command writes or removes its target object.
  lemma TargetWritten(a: Store, b: Store, c: Store, f: FileId)
    requires Around(a, b, f) && c == b.(disk := c.disk) && forall k | k != Target(f) :: SameObject(b, c, k)
    ensures KeptBut(a, c, f) && ProductImagesSafety.IsLegacy(c, f)
    ensures f in c.files ==> f in a.files && SameObject(a, c, Legacy(f))
  {
    ObjectKeptBut(b, c, Target(f));
    KeptButBoth(a, b, c, f);
    assert SameObject(b, c, Legacy(f));
  }

  lemma AroundBoth(a: Store, b: Store, c: Store, f: FileId)
    requires Around(a, b, f) && Around(b, c, f)
    ensures Around(a, c, f)
  {
    KeptButBoth(a, b, c, f);
  }

  // Of the run, only items of these files were written; records and objects of all other images are as
  // they were.
  ghost predicate Untouched(a: Store, b: Store, run: RunId, ids: set<FileId>) {
    && a.items.Keys == b.items.Keys && a.issued <= b.issued
    && (forall k | k in b.items && !(k.0 == run && k.1 in ids) :: b.items[k] == a.items[k])
    && (forall g | g !in ids :: RecordKept(a, b, g))
    && (forall g | g in b.files && g in a.issued ::
          g in a.files && (b.files[g].key.Issued? <==> a.files[g].key.Issued?))
  }

  lemma UntouchedBoth(a: Store, b: Store, c: Store, run: RunId, ids: set<FileId>, more: set<FileId>)
    requires Untouched(a, b, run, ids) && Untouched(b, c, run, more) && more <= ids
    ensures Untouched(a, c, run, ids)
  {
    forall g | g !in ids ensures RecordKept(a, c, g) { assert RecordKept(b, c, g) && RecordKept(a, b, g); }
  }

  lemma SameItems(a: Store, b: Store)
    requires OthersKeep(a, b)
    ensures b.items == a.items
  {
  }

  lemma StepAdded(before: seq<Step>, steps: seq<Step>, a: Step)
    requires before <= steps
    ensures a in (steps + [a])[|before|..]
  {
    assert (steps + [a])[|before|..][|steps| - |before|] == a;
  }

  lemma NothingTouched(a: Store, run: RunId, ids: set<FileId>)
    ensures Untouched(a, a, run, ids)
  {
  }

  // The items one query selects, and the machine with it; the others write no item before it.
  lemma QuerySelectsTheDue(a: Store, s: State, run: RunId, now: int, ids: set<FileId>)
    requires s.command.Down? && s.db.items == a.items
    requires ids == set k | k in s.db.items && k.0 == run && CleanupDue(s.db.items[k], now) :: k.1
    ensures ids == DueIn(a, run, now)
    ensures forall f | f in ids ::
      (run, f) in s.db.items && s.db.items[(run, f)].status == Committed && s.db.items[(run, f)].cleanup != CleanupDone
    ensures Next(s, BeginCleanup(run, now)) == s.(command := Cleaning(run, ids, CleanLoop))
  {
    forall f: FileId ensures f in ids <==> IsDue(a, run, f, now) { assert (run, f).1 == f; }
  }

  lemma OthersUntouched(a: Store, b: Store, run: RunId)
    requires OthersKeep(a, b)
    ensures Untouched(a, b, run, {})
  {
  }

  // The cleanup status of one item is written.
  lemma StatusUntouched(a: Store, b: Store, run: RunId, f: FileId, status: CleanupStatus)
    requires OthersKeep(a, b)
    ensures Untouched(a, PutCleanup(b, run, f, status), run, {f})
  {
    forall g ensures RecordKept(a, PutCleanup(b, run, f, status), g) { assert RecordKept(a, b, g); }
  }

  lemma KeptButUntouched(a: Store, b: Store, run: RunId, f: FileId)
    requires KeptBut(a, b, f)
    ensures Untouched(a, b, run, {f})
  {
  }

  // An item that is not among them, with its old object.
  lemma UntouchedImage(a: Store, b: Store, run: RunId, ids: set<FileId>, f: FileId)
    requires ProductImagesSafety.StoreOk(a) && Untouched(a, b, run, ids) && (run, f) in a.items && f !in ids
    ensures (run, f) in b.items && b.items[(run, f)] == a.items[(run, f)]
    ensures f in b.files ==> SameObject(a, b, Legacy(f))
  {
    assert ProductImagesSafety.ItemOk(a, f, a.items[(run, f)]) && RecordKept(a, b, f);
  }

  // One item of the run is written.
  lemma CommittedOneMore(a: map<(RunId, FileId), Item>, b: map<(RunId, FileId), Item>, run: RunId, f: FileId)
    requires a.Keys <= b.Keys <= a.Keys + {(run, f)} && !CommittedAt(a, run, f)
    requires forall k | k in b && k != (run, f) :: b[k] == a[k]
    ensures CommittedIn(b, run) == CommittedIn(a, run) + if CommittedAt(b, run, f) then {f} else {}
  {
    forall g | g != f ensures CommittedAt(b, run, g) <==> CommittedAt(a, run, g) { }
  }

  lemma ItemCommitted(a: Store, c: Store, run: RunId, f: FileId, it: Item, now: int)
    requires c.items == a.items && (run, f) in a.items && a.items[(run, f)] == it && it.status == Staged
    ensures var b := PutItem(c, run, f, CommittedItem(it, now));
      && CommittedAs(a, b, run, f, it) && b.items.Keys == a.items.Keys && CommittedAt(b.items, run, f)
      && (forall k | k in b.items && k != (run, f) :: b.items[k] == a.items[k])
  {
  }

  ghost predicate CleansItem(db: Store, pc: CleanPc) {
    match pc
    case HashOld(f, it, gone) => ProductImagesSafety.CleanItem(db, f, it, gone)
    case HashNew(f, it) => ProductImagesSafety.CleanItem(db, f, it, true)
    case CleanRecord(f, it) => ProductImagesSafety.CleanItem(db, f, it, false)
    case CleanTarget(f, it) => ProductImagesSafety.CleanItem(db, f, it, false)
    case CleanCount(f, it) => ProductImagesSafety.CleanItem(db, f, it, false)
    case _ => true
  }

  // None of the ids was committed before, and nothing else has been since.
  lemma CommittedAmong(before: set<FileId>, after: set<FileId>, ids: set<FileId>)
    requires before <= after <= before + ids && before !! ids
    ensures |after * ids| == |after| - |before|
  {
    assert before !! after * ids && after == before + after * ids;
  }

  class BackfillCommand {
    var db: Store
    var uploads: map<nat, Upload>
    var deletes: map<nat, Removal>
    ghost var command: Command
    ghost var trace: seq<Step>
    ghost var failures: nat       // status updates of recovery that failed
    ghost var errors: nat         // accesses of `apply` that failed, those included
    ghost const origin: State

    ghost function Machine(): State
      reads this
    { State(db, uploads, deletes, command) }

    ghost predicate Valid()
      reads this
    {
      && Init(origin) && Run(origin, trace) == Machine()
      && failures == FailedUpdates(origin, trace) && errors == FailedAccesses(origin, trace)
    }

    // The program is applying run `run` and has reached a point of the machine.
    ghost predicate At(run: RunId, pc: ApplyPc)
      reads this
    { Valid() && command.Applying? && command.run == run && command.pc == pc }

    // No item of another file or run is written, and this one is committed only if `committed` says so.
    twostate predicate OnlyItem(run: RunId, f: FileId, committed: bool)
      reads this
    {
      && old(db).items.Keys <= db.items.Keys <= old(db).items.Keys + {(run, f)}
      && (forall k | k in db.items && k != (run, f) :: db.items[k] == old(db).items[k])
      && (committed ==> CommittedAt(db.items, run, f))
      && (CommittedAt(db.items, run, f) ==> committed || CommittedAt(old(db).items, run, f))
    }

    // This many items of the run were committed.
    twostate predicate Commits(run: RunId, n: nat)
      reads this
    {
      && CommittedIn(old(db).items, run) <= CommittedIn(db.items, run)
      && |CommittedIn(db.items, run)| == |CommittedIn(old(db).items, run)| + n
    }

    constructor (start: State)
      requires Init(start)
      ensures Valid() && Machine() == start && trace == []
    {
      db, uploads, deletes, command := start.db, start.uploads, start.deletes, start.command;
      trace, failures, errors, origin := [], 0, 0, start;
    }

    lemma Reachable()
      requires Valid()
      ensures ProductImagesSafety.Inv(Machine()) && Tracked(Machine())
    {
      ReachableIsTracked(origin, trace);
    }

    /** Uploads and deletes of the server, any number of them. */
    method Others()
      requires Valid()
      modifies this`db, this`uploads, this`deletes, this`trace
      ensures Valid() && old(trace) <= trace && OthersKeep(old(db), db)
    {
      var n: nat := *;
      while n > 0
        invariant Valid() && old(trace) <= trace && OthersKeep(old(db), db)
      {
        var a: Step := *;
        if ByOthers(a) { Other(a); }
        n := n - 1;
      }
    }

    method Other(a: Step)
      requires Valid() && ByOthers(a)
      modifies this`db, this`uploads, this`deletes, this`trace
      ensures Valid() && trace == old(trace) + [a] && OthersKeep(old(db), db)
      ensures forall start | OthersKeep(start, old(db)) :: OthersKeep(start, db)
    {
      Reachable();
      OthersKeepRecords(Machine(), a);
      OthersIgnoreTheCommand(Machine(), a);
      OneMore(origin, trace, a);
      OneMoreUpdate(origin, trace, a);
      OneMoreAccess(origin, trace, a);
      var t := Next(State(db, uploads, deletes, Down), a);
      db, uploads, deletes := t.db, t.uploads, t.deletes;
      trace := trace + [a];
      forall start | OthersKeep(start, old(db)) ensures OthersKeep(start, db) { OthersKeepBoth(start, old(db), db); }
    }

    /** The next access: what the environment answers after the others had their turn. */
    method Ask() returns (e: Env)
      requires Valid()
      modifies this`db, this`uploads, this`deletes, this`trace
      ensures Valid() && old(trace) <= trace && db.items == old(db).items
    {
      Others();
      e := *;
    }

    // The same for an access to the objects of a legacy image.
    method AskAround(f: FileId) returns (e: Env)
      requires Valid() && ProductImagesSafety.IsLegacy(db, f)
      modifies this`db, this`uploads, this`deletes, this`trace
      ensures Valid() && old(trace) <= trace && Around(old(db), db, f)
    {
      Others();
      e := *;
      ObjectsKept(old(db), db, f);
    }

    // The access just made was this step.
    ghost method Took(before: State, a: Step)
      requires Init(origin) && Run(origin, trace) == before
      requires failures == FailedUpdates(origin, trace) && errors == FailedAccesses(origin, trace)
      requires var t := Next(before, a); db == t.db && uploads == t.uploads && deletes == t.deletes
      modifies this`command, this`trace, this`failures, this`errors
      ensures Valid() && command == Next(before, a).command && trace == old(trace) + [a]
      ensures failures == old(failures) + if UpdateFailed(before, a) then 1 else 0
      ensures errors == old(errors) + if AccessFailed(before, a) then 1 else 0
    {
      OneMore(origin, trace, a);
      OneMoreUpdate(origin, trace, a);
      OneMoreAccess(origin, trace, a);
      failures := failures + if UpdateFailed(before, a) then 1 else 0;
      errors := errors + if AccessFailed(before, a) then 1 else 0;
      command, trace := Next(before, a).command, trace + [a];
    }

    // `lost` was set exactly by the status updates that failed without ending the command.
    twostate predicate LostFailures()
      reads this
    {
      && old(command).Applying? && command.Applying? && old(failures) <= failures && old(errors) <= errors
      && (command.lost <==> old(command).lost || old(failures) < failures)
    }

    // The command moved on to `pc`.
    twostate predicate Reached(pc: ApplyPc)
      reads this
    {
      Valid() && old(trace) <= trace && LostFailures()
      && command == old(command).(pc := pc, lost := command.lost)
    }

    // The command gave up with an error.
    twostate predicate Stopped()
      reads this
    { Valid() && old(trace) <= trace && command == Down }

    // The command stops before its next access.
    ghost method GiveUp()
      requires Valid()
      modifies this`command, this`trace, this`failures, this`errors
      ensures Stopped()
    {
      Took(Machine(), Crash);
    }

    // ----- commitStagedItem --------------------------------------------------------------------------

    // The image the command is at, and its item.
    lemma ImageAtHand()
      requires Valid() && command.Applying?
      requires command.pc.Inspect? || RecoverPc(command.pc) || CommitPc(command.pc)
      ensures ProductImagesSafety.IsLegacy(db, command.pc.f)
      ensures CommitPc(command.pc) ==>
        ProductImagesSafety.Copy(db, command.run, command.pc.f, command.pc.it, Staged)
      ensures command.pc.Inspect? ==> command.pc.it.target == Target(command.pc.f)
    {
      Reachable();
      if command.pc.Inspect? {
        assert ProductImagesSafety.ItemOk(db, command.pc.f, db.items[(command.run, command.pc.f)]);
      }
    }

    // Both objects of a record that is still at its legacy key have the digests of the staged item.
    lemma StagedMatches()
      requires Valid() && command.Applying? && CommitPc(command.pc)
      ensures command.pc.it.source == Legacy(command.pc.f) && command.pc.it.target == Target(command.pc.f)
      ensures AtLegacy(db, command.pc.f) ==>
        && LegacyIfThere(db, command.pc.f)
        && HashIs(db, command.pc.it.source, command.pc.it.sourceSha)
        && HashIs(db, command.pc.it.target, command.pc.it.outputSha)
      ensures command.pc.f in db.files ==>
        db.files[command.pc.f].key == Legacy(command.pc.f) || db.files[command.pc.f].key == Target(command.pc.f)
    {
      Reachable();
      BothMatch(Machine(), command.pc.f, command.pc.it);
      if command.pc.f in db.files { LegacyOrTarget(Machine(), command.pc.f); }
    }

    // The others act, the command changes no store: the record and its objects are as they were.
    lemma AroundKeeps(a: Store, b: Store, f: FileId)
      requires Around(a, b, f)
      ensures RecordIsKept(a, b, f)
    {
    }

    method RequireHash(run: RunId, f: FileId, it: Item, ofSource: bool, recovering: bool) returns (ok: bool)
      requires At(run, if ofSource then CheckSource(f, it, recovering) else CheckTarget(f, it, recovering))
      modifies this
      ensures db.items == old(db).items && RecordIsKept(old(db), db, f)
      ensures Reached(if !ok then AfterFailedCommit(f, recovering)
                      else if ofSource then Switch(f, it, recovering) else ReadRecord(f, it, recovering))
      ensures ok ==> if ofSource then HashIs(db, it.source, it.sourceSha) else HashIs(db, it.target, it.outputSha)
      ensures !ok && errors == old(errors) ==>
        if ofSource then !HashIs(db, it.source, it.sourceSha) else !HashIs(db, it.target, it.outputSha)
    {
      ImageAtHand();
      var e := AskAround(f);
      AroundKeeps(old(db), db, f);
      ApplyIs(Machine(), f, e);
      ok := !e.fails && if ofSource then HashIs(db, it.source, it.sourceSha) else HashIs(db, it.target, it.outputSha);
      Took(Machine(), ApplyOne(f, e));
    }

    // One transaction: the record is moved if it is still where it was, and the item is COMMITTED.
    method SwitchRecord(run: RunId, f: FileId, it: Item, recovering: bool) returns (ok: bool)
      requires At(run, Switch(f, it, recovering))
      modifies this
      ensures Reached(if ok then Loop else AfterFailedCommit(f, recovering)) && OnlyItem(run, f, ok)
      ensures ok ==> CommittedAs(old(db), db, run, f, it) && Moved(old(db), db, f, it) && f in old(db).files
      ensures !ok ==> db.items == old(db).items && RecordIsKept(old(db), db, f)
      ensures !ok && errors == old(errors) ==> !(f in db.files && LegacyIfThere(db, f))
    {
      hide Init, Run, FailedUpdates, FailedAccesses;
      ImageAtHand();
      StagedMatches();
      var e := AskAround(f);
      AroundKeeps(old(db), db, f);
      ghost var before := Machine();
      ApplyIs(before, f, e);
      ok := !e.fails && (run, f) in db.items && CanMove(db, f, it);
      if ok {
        ItemCommitted(old(db), MoveRecord(db, f, it), run, f, it, e.now);
        db := PutItem(MoveRecord(db, f, it), run, f, CommittedItem(db.items[(run, f)], e.now));
      }
      Took(before, ApplyOne(f, e));
    }

    // The record is at the target key already: only the item is written.
    method ConfirmItem(run: RunId, f: FileId, it: Item, recovering: bool) returns (ok: bool)
      requires At(run, Confirm(f, it, recovering))
      modifies this
      ensures Reached(if ok then Loop else AfterFailedCommit(f, recovering)) && OnlyItem(run, f, ok)
      ensures RecordIsKept(old(db), db, f)
      ensures if ok then CommittedAs(old(db), db, run, f, it) else db.items == old(db).items
      ensures errors == old(errors) ==> ok
    {
      hide Init, Run, FailedUpdates, FailedAccesses;
      ImageAtHand();
      var e := AskAround(f);
      AroundKeeps(old(db), db, f);
      ghost var before := Machine();
      ApplyIs(before, f, e);
      ok := !e.fails && (run, f) in db.items;
      if ok {
        ItemCommitted(old(db), db, run, f, it, e.now);
        db := PutItem(db, run, f, CommittedItem(db.items[(run, f)], e.now));
      }
      Took(before, ApplyOne(f, e));
    }

    // The record as it is stored now, and where its key sends the commit.
    method LoadRecord(run: RunId, f: FileId, it: Item, recovering: bool) returns (record: Option<FileRecord>)
      requires At(run, ReadRecord(f, it, recovering))
      modifies this
      ensures db.items == old(db).items && RecordIsKept(old(db), db, f)
      ensures Reached(if record.None? then AfterFailedCommit(f, recovering)
                      else if record.value.key == it.source then CheckSource(f, it, recovering)
                      else if record.value.key != it.target || record.value.meta != TargetMeta(it) then
                        AfterFailedCommit(f, recovering)
                      else Confirm(f, it, recovering))
      ensures record.Some? ==> f in db.files && record.value == db.files[f]
      ensures record.None? && errors == old(errors) ==> f !in db.files
    {
      ImageAtHand();
      var e := AskAround(f);
      AroundKeeps(old(db), db, f);
      ApplyIs(Machine(), f, e);
      record := if !e.fails && f in db.files then Some(db.files[f]) else None;
      Took(Machine(), ApplyOne(f, e));
    }

    /**
     commitStagedItem. If no access fails, a record still at its legacy key is moved and its item is
     COMMITTED unless it is deleted meanwhile; one that is at the target key must describe the staged
     output, which must be there; an item without a record is refused.
     */
    method CommitStagedItem(run: RunId, f: FileId, it: Item, recovering: bool) returns (committed: bool)
      requires At(run, CheckTarget(f, it, recovering))
      modifies this
      ensures Reached(if committed then Loop else AfterFailedCommit(f, recovering)) && OnlyItem(run, f, committed)
      ensures !committed ==> db.items == old(db).items
      ensures committed ==> CommittedAs(old(db), db, run, f, it)
      ensures errors == old(errors) ==>
        CommitOutcome(old(db), db, run, f, it, false, HashIs(old(db), Target(f), it.outputSha))
    {
      hide Init, Run, FailedUpdates, FailedAccesses;
      StagedMatches();
      var ok := RequireHash(run, f, it, false, recovering);
      if !ok { return false; }
      label Hashed:
      committed := CommitHashed(run, f, it, recovering);
      if errors == old(errors) {
        OutcomeAfterOthers(old(db), old@Hashed(db), db, run, f, it, false,
                           HashIs(old(db), Target(f), it.outputSha), true);
      }
    }

    method CommitHashed(run: RunId, f: FileId, it: Item, recovering: bool) returns (committed: bool)
      requires At(run, ReadRecord(f, it, recovering))
      modifies this
      ensures Reached(if committed then Loop else AfterFailedCommit(f, recovering)) && OnlyItem(run, f, committed)
      ensures !committed ==> db.items == old(db).items
      ensures committed ==> CommittedAs(old(db), db, run, f, it)
      ensures errors == old(errors) ==> CommitOutcome(old(db), db, run, f, it, false, true)
    {
      hide Init, Run, FailedUpdates, FailedAccesses;
      StagedMatches();
      var record := LoadRecord(run, f, it, recovering);
      if record.None? { return false; }
      if record.value.key == it.source {
        label Loaded:
        committed := CommitFromSource(run, f, it, recovering);
        if errors == old(errors) {
          OutcomeAfterOthers(old(db), old@Loaded(db), db, run, f, it, false, true, true);
        }
      } else if record.value.key == it.target {
        if record.value.meta != TargetMeta(it) { return false; }
        committed := ConfirmItem(run, f, it, recovering);
      } else {
        return false;
      }
    }

    // The record is at the legacy key: the source must be what was processed.
    method CommitFromSource(run: RunId, f: FileId, it: Item, recovering: bool) returns (committed: bool)
      requires At(run, CheckSource(f, it, recovering)) && AtLegacy(db, f)
      modifies this
      ensures Reached(if committed then Loop else AfterFailedCommit(f, recovering)) && OnlyItem(run, f, committed)
      ensures !committed ==> db.items == old(db).items
      ensures committed ==> CommittedAs(old(db), db, run, f, it)
      ensures errors == old(errors) ==> CommitOutcome(old(db), db, run, f, it, false, true)
    {
      hide Init, Run, FailedUpdates, FailedAccesses;
      StagedMatches();
      var ok := RequireHash(run, f, it, true, recovering);
      if !ok { return false; }
      committed := SwitchRecord(run, f, it, recovering);
    }

    // ----- recovery ----------------------------------------------------------------------------------

    // The item the command is at exists and is in flight.
    lemma ItemInFlight()
      requires Valid() && command.Applying? && (command.pc.Inspect? || RecoverPc(command.pc))
      ensures var k := (command.run, command.pc.f);
        k in db.items && InFlight(db.items[k]) && (command.pc.Inspect? ==> db.items[k] == command.pc.it)
    {
      Reachable();
    }

    /** The failure mark of an item; that it cannot be written is ignored. */
    method MarkFailed(run: RunId, f: FileId)
      requires At(run, SetFailed(f))
      modifies this
      ensures Reached(Loop) && OnlyItem(run, f, false)
      ensures RecordIsKept(old(db), db, f) && (run, f) in old(db).items
      ensures db.items == old(db).items
           || ItemIs(old(db), db, run, f, old(db).items[(run, f)].(status := Failed))
      ensures errors == old(errors) ==> ItemIs(old(db), db, run, f, old(db).items[(run, f)].(status := Failed))
    {
      hide Init, Run, FailedUpdates, FailedAccesses;
      ItemInFlight();
      ImageAtHand();
      var e := AskAround(f);
      AroundKeeps(old(db), db, f);
      ghost var before := Machine();
      ApplyIs(before, f, e);
      if !e.fails && (run, f) in db.items { db := PutStatus(db, run, f, Failed); }
      Took(before, ApplyOne(f, e));
    }

    // The status update of recovery; a failure ends the command.
    method SetStatus(run: RunId, f: FileId, it: Item, staged: bool) returns (ok: bool)
      requires At(run, if staged then SetStaged(f, it) else SetPending(f))
      modifies this
      ensures OnlyItem(run, f, false) && RecordIsKept(old(db), db, f) && (run, f) in old(db).items
      ensures if ok then
                Reached(if staged then CheckTarget(f, it.(status := Staged), true) else Loop)
                && ItemIs(old(db), db, run, f, old(db).items[(run, f)].(status := if staged then Staged else Pending))
              else Stopped() && failures == old(failures) + 1 && errors == old(errors) + 1
    {
      hide Init, Run, FailedUpdates, FailedAccesses;
      ItemInFlight();
      ImageAtHand();
      var e := AskAround(f);
      AroundKeeps(old(db), db, f);
      ghost var before := Machine();
      ApplyIs(before, f, e);
      ok := !e.fails && (run, f) in db.items;
      if ok { db := PutStatus(db, run, f, if staged then Staged else Pending); }
      Took(before, ApplyOne(f, e));
    }

    // objectHashMatches: None is an error. A missing object does not match, and needs no digest.
    method TargetMatches(run: RunId, f: FileId, it: Item) returns (r: Option<bool>)
      requires At(run, Inspect(f, it)) && it.status == Processing
      modifies this
      ensures db.items == old(db).items && RecordIsKept(old(db), db, f)
      ensures Reached(if r.None? then SetFailed(f) else if r.value then SetStaged(f, it) else SetPending(f))
      ensures errors == old(errors) ==>
        && (it.target !in db.disk ==> r == Some(false))
        && (it.target in db.disk ==> r == if it.outputSha.None? then None
                                          else Some(it.outputSha.value == db.disk[it.target]))
    {
      ImageAtHand();
      var e := AskAround(f);
      AroundKeeps(old(db), db, f);
      ApplyIs(Machine(), f, e);
      if e.fails {
        r := None;
      } else if it.target !in db.disk {
        r := Some(false);
      } else if it.outputSha.None? {
        r := None;
      } else {
        r := Some(db.disk[it.target] == it.outputSha.value);
      }
      Took(Machine(), ApplyOne(f, e));
    }

    // Even if accesses failed: an empty summary means that the item is PENDING again, and one that counts a
    // failure that it is FAILED, or as it was because the mark could not be written.
    predicate Accounts(
        r: Summary, was: map<(RunId, FileId), Item>, items: map<(RunId, FileId), Item>, run: RunId, f: FileId)
    {
      (run, f) in was && (run, f) in items &&
      var it := items[(run, f)];
      && (r == NOTHING ==> it.status == Pending)
      && (r.failed == 1 ==> it.status == Failed || InFlight(it))
      && (r.committed == 1 ==> it.status == Committed)
      && it.sourceSha == was[(run, f)].sourceSha && it.outputSha == was[(run, f)].outputSha
    }

    // What the summary of one recovered item says.
    predicate Tells(r: Summary, items: map<(RunId, FileId), Item>, run: RunId, f: FileId) {
      (run, f) in items &&
      match items[(run, f)].status
      case Pending => r == NOTHING
      case Failed => r == NOTHING.(failed := 1)
      case Committed => r == NOTHING.(committed := 1, pendingCleanup := 1)
      case _ => false
    }

    /**
     recoverApplyItem: None exactly when a status update failed and ended the command. The summary says
     whether the item became COMMITTED, which it was not before. If no access failed, the stores as they
     were when the target object was checked decide what the item is now: see `Decided`; and the summary
     counts it as what it became.
     */
    method RecoverApplyItem(run: RunId, f: FileId, it: Item) returns (r: Option<Summary>, ghost seen: Store)
      requires At(run, Inspect(f, it)) && InFlight(it)
      modifies this
      ensures if r.None? then Stopped() && old(failures) < failures else Reached(Loop)
      ensures r.Some? ==> r.value in {NOTHING, NOTHING.(failed := 1), NOTHING.(committed := 1, pendingCleanup := 1)}
      ensures r.Some? ==> Accounts(r.value, old(db).items, db.items, run, f)
      ensures OnlyItem(run, f, r.Some? && r.value.committed == 1)
      ensures r.Some? ==> Commits(run, r.value.committed)
      ensures CommittedIn(db.items, run) <= CommittedIn(old(db).items, run) + {f}
      ensures seen.items == old(db).items && RecordIsKept(old(db), seen, f)
      ensures errors == old(errors) ==>
        r.Some? && Decided(seen, db, run, f, it) && Tells(r.value, db.items, run, f)
    {
      ItemInFlight();
      r, seen := RecoverInFlight(run, f, it);
      CommittedOneMore(old(db).items, db.items, run, f);
    }

    method RecoverInFlight(run: RunId, f: FileId, it: Item) returns (r: Option<Summary>, ghost seen: Store)
      requires At(run, Inspect(f, it)) && InFlight(it)
      modifies this
      ensures if r.None? then Stopped() && old(failures) < failures && old(errors) < errors else Reached(Loop)
      ensures r.Some? ==> r.value in {NOTHING, NOTHING.(failed := 1), NOTHING.(committed := 1, pendingCleanup := 1)}
      ensures r.Some? ==> Accounts(r.value, old(db).items, db.items, run, f)
      ensures OnlyItem(run, f, r.Some? && r.value.committed == 1)
      ensures seen.items == old(db).items && RecordIsKept(old(db), seen, f)
      ensures errors == old(errors) ==>
        r.Some? && Decided(seen, db, run, f, it) && Tells(r.value, db.items, run, f)
    {
      hide Init, Run, FailedUpdates, FailedAccesses;
      if it.status == Processing {
        r, seen := RecoverProcessing(run, f, it);
      } else {
        ghost var e := Env(false, "", false, {}, 0);
        seen := db;
        ApplyIs(Machine(), f, e);
        Took(Machine(), ApplyOne(f, e));
        var one := CommitRecovered(run, f, it);
        return Some(one), seen;
      }
    }

    method RecoverProcessing(run: RunId, f: FileId, it: Item) returns (r: Option<Summary>, ghost seen: Store)
      requires At(run, Inspect(f, it)) && it.status == Processing
      modifies this
      ensures if r.None? then Stopped() && old(failures) < failures && old(errors) < errors else Reached(Loop)
      ensures r.Some? ==> r.value in {NOTHING, NOTHING.(failed := 1), NOTHING.(committed := 1, pendingCleanup := 1)}
      ensures r.Some? ==> Accounts(r.value, old(db).items, db.items, run, f)
      ensures OnlyItem(run, f, r.Some? && r.value.committed == 1)
      ensures seen.items == old(db).items && RecordIsKept(old(db), seen, f)
      ensures errors == old(errors) ==>
        r.Some? && Decided(seen, db, run, f, it) && Tells(r.value, db.items, run, f)
    {
      hide CommittedAt;
      hide Init, Run, FailedUpdates, FailedAccesses;
      ItemInFlight();
      ImageAtHand();
      var matches := TargetMatches(run, f, it);
      seen := db;
      if matches.None? {
        MarkFailed(run, f);
        return Some(NOTHING.(failed := 1)), seen;
      }
      if !matches.value {
        var ok := SetStatus(run, f, it, false);
        return if ok then Some(NOTHING) else None, seen;
      }
      r := RecoverMatching(run, f, it);
    }

    // Its target object has the digest the item recorded: the item is staged and committed.
    method RecoverMatching(run: RunId, f: FileId, it: Item) returns (r: Option<Summary>)
      requires At(run, SetStaged(f, it)) && (run, f) in db.items && db.items[(run, f)] == it
      modifies this
      ensures if r.None? then Stopped() && old(failures) < failures && old(errors) < errors else Reached(Loop)
      ensures r.Some? ==> r.value in {NOTHING.(failed := 1), NOTHING.(committed := 1, pendingCleanup := 1)}
      ensures r.Some? ==> Accounts(r.value, old(db).items, db.items, run, f)
      ensures OnlyItem(run, f, r.Some? && r.value.committed == 1)
      ensures errors == old(errors) ==>
        && r.Some? && Tells(r.value, db.items, run, f)
        && CommitOutcome(old(db), db, run, f, it, true, HashIs(old(db), Target(f), it.outputSha))
    {
      hide Init, Run, FailedUpdates, FailedAccesses;
      var ok := SetStatus(run, f, it, true);
      if !ok { return None; }
      label Marked:
      var one := CommitRecovered(run, f, it.(status := Staged));
      if errors == old(errors) {
        OutcomeFromStaged(old(db), old@Marked(db), db, run, f, it, HashIs(old(db), Target(f), it.outputSha),
                          HashIs(old@Marked(db), Target(f), it.outputSha));
      }
      return Some(one);
    }

    // A staged item is committed or marked as failed.
    method CommitRecovered(run: RunId, f: FileId, it: Item) returns (r: Summary)
      requires At(run, CheckTarget(f, it, true))
      modifies this
      ensures Reached(Loop) && OnlyItem(run, f, r.committed == 1)
      ensures r in {NOTHING.(failed := 1), NOTHING.(committed := 1, pendingCleanup := 1)}
      ensures Accounts(r, old(db).items, db.items, run, f)
      ensures errors == old(errors) ==>
        && CommitOutcome(old(db), db, run, f, it, true, HashIs(old(db), Target(f), it.outputSha))
        && Tells(r, db.items, run, f)
    {
      ImageAtHand();
      var committed := CommitStagedItem(run, f, it, true);
      if !committed {
        label Tried:
        MarkFailed(run, f);
        if errors == old(errors) {
          OutcomeMarked(old(db), old@Tried(db), db, run, f, it, HashIs(old(db), Target(f), it.outputSha));
        }
        return NOTHING.(failed := 1);
      }
      return NOTHING.(committed := 1, pendingCleanup := 1);
    }

    // What is still to be recovered, as the list read at the start shows it.
    ghost predicate Outstanding(run: RunId, items: map<FileId, Item>, left: set<FileId>)
      reads this
    {
      && Valid() && command.Applying? && command.run == run && command.recover == left <= items.Keys
      && command.todo.None? && command.pc == Loop
      && (forall f | f in left :: (run, f) in db.items && db.items[(run, f)] == items[f])
      && (forall f | f in items :: InFlight(items[f]))
    }

    /**
     recoverApplyItems: if its status updates succeed, it ends well and nothing of the run is PROCESSING
     or STAGED afterwards. The summary counts the items that are COMMITTED now.
     */
    method RecoverApplyItems(run: RunId, items: map<FileId, Item>) returns (r: Option<Summary>)
      requires Outstanding(run, items, items.Keys)
      modifies this
      ensures if r.None? then Stopped() && old(failures) < failures else AtLoop(run, {}, None) && LostFailures()
      ensures r.Some? ==> r.value.committed == r.value.pendingCleanup == |CommittedIn(db.items, run) * items.Keys|
      ensures r.Some? ==> Commits(run, r.value.committed)
      ensures r.Some? && !command.lost ==> NothingInFlight(run)
      ensures !old(command).lost && failures == old(failures) ==> r.Some? && NothingInFlight(run)
    {
      NoneCommitted(run, items);
      r := RecoverAll(run, items);
      if r.Some? {
        CommittedAmong(CommittedIn(old(db).items, run), CommittedIn(db.items, run), items.Keys);
        if !command.lost { RecoveryIsOver(); }
      }
    }

    lemma NoneCommitted(run: RunId, items: map<FileId, Item>)
      requires Outstanding(run, items, items.Keys)
      ensures CommittedIn(db.items, run) !! items.Keys
    {
      forall f | f in items ensures f !in CommittedIn(db.items, run) { assert (run, f) in db.items; }
    }

    lemma RecoveryIsOver()
      requires Valid() && Recovered(command)
      ensures NothingInFlight(command.run)
    {
      RecoveryLeavesNothingInFlight(origin, trace);
    }

    ghost predicate NothingInFlight(run: RunId)
      reads this
    { forall f | (run, f) in db.items :: !InFlight(db.items[(run, f)]) }

    // Since `before`, the summary has counted the items that were committed.
    ghost predicate Gained(run: RunId, before: set<FileId>, got: Summary)
      reads this
    {
      && before <= CommittedIn(db.items, run)
      && got.committed == got.pendingCleanup == |CommittedIn(db.items, run)| - |before|
    }

    // All of them are among `ids`.
    ghost predicate Counted(run: RunId, before: set<FileId>, ids: set<FileId>, got: Summary)
      reads this
    { Gained(run, before, got) && CommittedIn(db.items, run) <= before + ids }

    method RecoverAll(run: RunId, items: map<FileId, Item>) returns (r: Option<Summary>)
      requires Outstanding(run, items, items.Keys)
      modifies this
      ensures if r.None? then Stopped() && old(failures) < failures else AtLoop(run, {}, None) && LostFailures()
      ensures r.Some? ==> Counted(run, CommittedIn(old(db).items, run), items.Keys, r.value)
    {
      var got, left := NOTHING, items.Keys;
      ghost var before := CommittedIn(db.items, run);
      while left != {}
        invariant Outstanding(run, items, left) && old(trace) <= trace && LostFailures()
        invariant Counted(run, before, items.Keys, got)
        decreases |left|
      {
        var f :| f in left;
        var itemSummary := RecoverNext(run, items, left, f, got, before);
        if itemSummary.None? { return None; }
        got := Add(got, itemSummary.value);
        left := left - {f};
      }
      return Some(got);
    }

    method RecoverNext(run: RunId, items: map<FileId, Item>, left: set<FileId>, f: FileId, got: Summary,
                       ghost before: set<FileId>)
      returns (r: Option<Summary>)
      requires Outstanding(run, items, left) && f in left && Counted(run, before, items.Keys, got)
      modifies this
      ensures if r.None? then Stopped() && old(failures) < failures
              else Outstanding(run, items, left - {f}) && old(trace) <= trace && LostFailures()
      ensures r.Some? ==> Counted(run, before, items.Keys, Add(got, r.value))
    {
      r := RecoverPicked(run, items, left, f);
    }

    method RecoverPicked(run: RunId, items: map<FileId, Item>, left: set<FileId>, f: FileId)
      returns (r: Option<Summary>)
      requires Outstanding(run, items, left) && f in left
      modifies this
      ensures if r.None? then Stopped() && old(failures) < failures
              else Outstanding(run, items, left - {f}) && old(trace) <= trace && LostFailures()
      ensures r.Some? ==> r.value.committed == r.value.pendingCleanup && Commits(run, r.value.committed)
      ensures CommittedIn(db.items, run) <= CommittedIn(old(db).items, run) + {f}
    {
      hide Decided;
      hide Tells;
      hide RecordIsKept;
      hide Init, Run, FailedUpdates, FailedAccesses;
      hide CommittedIn;
      PickItem(run, f, items[f]);
      ghost var seen;
      r, seen := RecoverApplyItem(run, f, items[f]);
    }

    // Taking the next item from the list is a step of the machine that touches no store.
    ghost method PickItem(run: RunId, f: FileId, it: Item)
      requires Valid() && command.Applying? && command.run == run && command.todo.None? && command.pc == Loop
      requires f in command.recover && (run, f) in db.items && db.items[(run, f)] == it
      modifies this`command, this`trace, this`failures, this`errors
      ensures Valid() && old(trace) <= trace && failures == old(failures) && errors == old(errors)
      ensures command == old(command).(recover := old(command).recover - {f}, pc := Inspect(f, it))
    {
      var e := Env(false, "", false, {}, 0);
      ApplyIs(Machine(), f, e);
      Took(Machine(), ApplyOne(f, e));
    }

    // At the head of the candidate loop, or of the recovery loop when `todo` is None.
    twostate predicate AtLoop(run: RunId, recover: set<FileId>, todo: Option<map<FileId, Key>>)
      reads this
    {
      Valid() && old(trace) <= trace && command.Applying? && command == Applying(run, recover, todo, command.lost, Loop)
    }

    // ----- converting one candidate ------------------------------------------------------------------

    method FirstOrCreate(run: RunId, f: FileId, content: Blob) returns (ok: bool)
      requires At(run, CreateItem(f, content))
      modifies this
      ensures Reached(if ok then MarkProcessing(f, content) else Loop) && OnlyItem(run, f, false)
    {
      var e := Ask();
      ghost var before := Machine();
      ApplyIs(before, f, e);
      ok := !e.fails;
      if ok && (run, f) !in db.items { db := PutItem(db, run, f, NewItem(f)); }
      Took(before, ApplyOne(f, e));
    }

    method BeginProcessingItem(run: RunId, f: FileId, content: Blob) returns (ok: bool)
      requires At(run, CreateItem(f, content))
      modifies this
      ensures Reached(if ok then Process(f, content) else Loop) && OnlyItem(run, f, false)
    {
      ok := FirstOrCreate(run, f, content);
      if ok { ok := SetProcessing(run, f, content); }
    }

    method SetProcessing(run: RunId, f: FileId, content: Blob) returns (ok: bool)
      requires At(run, MarkProcessing(f, content))
      modifies this
      ensures Reached(if ok then Process(f, content) else Loop) && OnlyItem(run, f, false)
    {
      var e := Ask();
      ghost var before := Machine();
      ApplyIs(before, f, e);
      ok := !e.fails && (run, f) in db.items;
      if ok { db := PutItem(db, run, f, ProcessingItem(db.items[(run, f)], f)); }
      Took(before, ApplyOne(f, e));
    }

    // The object just published is there while the record exists.
    lemma OutputIsThere(f: FileId, out: Blob)
      requires Valid() && command.Applying? && command.pc == HashSource(f, out)
      ensures f in db.files ==> Target(f) in db.disk && db.disk[Target(f)] == out
    {
      Reachable();
    }

    lemma FileIsLegacy()
      requires Valid() && command.Applying? && (command.pc.Publish? || command.pc.WriteOut?)
      ensures ProductImagesSafety.IsLegacy(db, command.pc.f)
    {
      Reachable();
    }

    lemma PartIsUnknown(f: FileId)
      requires Valid() && command.Applying? && command.pc.WriteOut? && command.pc.f == f
      ensures f in db.files ==> NoDigest(db, f)
    {
      Reachable();
    }

    /**
     PublishObjectNoReplace: a hard link, or exclusive create and write, with removal on failure, which
     may fail as well. While the record exists, success means that the free target key now holds the
     whole output, and failure that the target key is as it was, or was free and holds an object no item
     knows; the source and the objects of all other images are untouched.
     */
    method PublishObject(run: RunId, f: FileId, out: Blob) returns (ok: bool)
      requires At(run, Publish(f, out))
      modifies this
      ensures Reached(if ok then HashSource(f, out) else SetFailed(f)) && KeptBut(old(db), db, f)
      ensures f in db.files ==> SameObject(old(db), db, Legacy(f))
      ensures f in db.files && ok ==> Target(f) !in old(db).disk && Target(f) in db.disk && db.disk[Target(f)] == out
      ensures f in db.files && !ok ==>
        SameObject(old(db), db, Target(f)) || (Target(f) !in old(db).disk && NoDigest(db, f))
    {
      var written;
      ok, written := CreateObject(run, f, out);
      if ok && !written {
        label Created:
        ok := WriteObject(run, f, out);
        KeptButBoth(old(db), old@Created(db), db, f);
        LegacyKept(old@Created(db), db, f);
      }
    }

    // The target key is taken, by the whole output or by an empty or partial object.
    method CreateObject(run: RunId, f: FileId, out: Blob) returns (ok: bool, written: bool)
      requires At(run, Publish(f, out))
      modifies this
      ensures Reached(if !ok then SetFailed(f) else if written then HashSource(f, out) else WriteOut(f, out))
      ensures KeptBut(old(db), db, f) && ProductImagesSafety.IsLegacy(db, f)
      ensures f in db.files ==> f in old(db).files && SameObject(old(db), db, Legacy(f))
      ensures ok ==> Target(f) in db.disk && (written ==> db.disk[Target(f)] == out)
      ensures f in db.files ==> if ok then Target(f) !in old(db).disk else SameObject(old(db), db, Target(f))
    {
      hide Init, Run, FailedUpdates, FailedAccesses;
      FileIsLegacy();
      var e := AskAround(f);
      ghost var before, asked := Machine(), db;
      ApplyIs(before, f, e);
      ok, written := !e.fails && Target(f) !in db.disk, e.flag;
      if ok {
        db := PutObject(db, Target(f), if written then out else e.bytes);
        TargetWritten(old(db), asked, db, f);
      }
      Took(before, ApplyOne(f, e));
    }

    method WriteObject(run: RunId, f: FileId, out: Blob) returns (ok: bool)
      requires At(run, WriteOut(f, out))
      modifies this
      ensures Reached(if ok then HashSource(f, out) else SetFailed(f)) && KeptBut(old(db), db, f)
      ensures f in db.files ==> SameObject(old(db), db, Legacy(f))
      ensures f in db.files && ok ==> Target(f) in db.disk && db.disk[Target(f)] == out
      ensures f in db.files && !ok ==> Target(f) !in db.disk || NoDigest(db, f)
    {
      hide Init, Run, FailedUpdates, FailedAccesses;
      FileIsLegacy();
      var e := AskAround(f);
      ghost var before, asked := Machine(), db;
      ApplyIs(before, f, e);
      ok := !e.fails;
      var left := e.flag;     // the removal of what was written so far fails
      PartIsUnknown(f);
      WritesTarget(db, f, out);
      WritesTarget(db, f, e.bytes);
      db := if ok then WriteThrough(db, Target(f), out)
            else if left then WriteThrough(db, Target(f), e.bytes) else Unlink(db, Target(f));
      TargetWritten(old(db), asked, db, f);
      Took(before, ApplyOne(f, e));
      if ok { OutputIsThere(f, out); }
    }

    // The digest of the source as it is now.
    method DigestSource(run: RunId, f: FileId, out: Blob) returns (sha: Option<Blob>)
      requires At(run, HashSource(f, out))
      modifies this
      ensures Reached(if sha.Some? then Stage(f, out, sha.value) else Loop) && db.items == old(db).items
    {
      var e := Ask();
      ApplyIs(Machine(), f, e);
      sha := if !e.fails && Legacy(f) in db.disk then Some(db.disk[Legacy(f)]) else None;
      Took(Machine(), ApplyOne(f, e));
    }

    method StageItem(run: RunId, f: FileId, out: Blob, sha: Blob) returns (ok: bool)
      requires At(run, Stage(f, out, sha))
      modifies this
      ensures Reached(if ok then Reload(f) else Loop) && OnlyItem(run, f, false)
    {
      hide Init, Run, FailedUpdates, FailedAccesses;
      var e := Ask();
      ghost var before := Machine();
      ApplyIs(before, f, e);
      ok := !e.fails && (run, f) in db.items;
      if ok { db := PutItem(db, run, f, StagedItem(db.items[(run, f)], f, sha, out)); }
      Took(before, ApplyOne(f, e));
    }

    method ReloadItem(run: RunId, f: FileId) returns (r: Option<Item>)
      requires At(run, Reload(f))
      modifies this
      ensures Reached(if r.Some? then CheckTarget(f, r.value, false) else Loop) && db.items == old(db).items
    {
      var e := Ask();
      ApplyIs(Machine(), f, e);
      r := if !e.fails && (run, f) in db.items then Some(db.items[(run, f)]) else None;
      Took(Machine(), ApplyOne(f, e));
    }

    method ApplyCandidate(run: RunId, f: FileId, out: Blob) returns (committed: bool)
      requires At(run, Publish(f, out))
      modifies this
      ensures Reached(Loop) && OnlyItem(run, f, committed)
    {
      hide Init, Run, FailedUpdates, FailedAccesses;
      var ok := PublishObject(run, f, out);
      if !ok {
        MarkFailed(run, f);
        return false;
      }
      committed := StageAndCommit(run, f, out);
    }

    method StageAndCommit(run: RunId, f: FileId, out: Blob) returns (committed: bool)
      requires At(run, HashSource(f, out))
      modifies this
      ensures Reached(Loop) && OnlyItem(run, f, committed)
    {
      hide Init, Run, FailedUpdates, FailedAccesses;
      hide CommitOutcome, CommittedAs, HashIs;
      var sha := DigestSource(run, f, out);
      if sha.None? { return false; }
      var ok := StageItem(run, f, out, sha.value);
      if !ok { return false; }
      var item := ReloadItem(run, f);
      if item.None? { return false; }
      committed := CommitStagedItem(run, f, item.value, false);
    }

    method ReadContent(run: RunId, f: FileId) returns (content: Blob)
      requires At(run, ReadSource(f))
      modifies this
      ensures Reached(if content != "" then CreateItem(f, content) else Loop) && db.items == old(db).items
    {
      var e := Ask();
      ApplyIs(Machine(), f, e);
      content := if e.fails || Legacy(f) !in db.disk then "" else db.disk[Legacy(f)];
      Took(Machine(), ApplyOne(f, e));
    }

    // Processing and validating the output; an empty result is a failure, which is marked.
    method ProcessContent(run: RunId, f: FileId, content: Blob) returns (out: Blob)
      requires At(run, Process(f, content))
      modifies this
      ensures Reached(if out != "" then Publish(f, out) else Loop) && OnlyItem(run, f, false)
    {
      hide Init, Run, FailedUpdates, FailedAccesses;
      var e := Ask();
      ghost var before := Machine();
      ApplyIs(before, f, e);
      out := if e.fails then "" else e.bytes;
      if out != "" { db := db.(outputs := db.outputs + {(content, out)}); }   // history only
      Took(before, ApplyOne(f, e));
      if out == "" { MarkFailed(run, f); }
    }

    lemma NotYetCommitted()
      requires Valid() && command.Applying? && command.pc.ReadSource?
      ensures !CommittedAt(db.items, command.run, command.pc.f)
    {
      Reachable();
    }

    /** One candidate: the summary says whether its item became COMMITTED, which it was not before. */
    method Convert(run: RunId, f: FileId) returns (r: Summary)
      requires At(run, ReadSource(f))
      modifies this
      ensures Reached(Loop) && OnlyItem(run, f, r.committed == 1)
      ensures r.committed == r.pendingCleanup == 1 - r.failed && Commits(run, r.committed)
    {
      NotYetCommitted();
      r := ConvertOnce(run, f);
      CommittedOneMore(old(db).items, db.items, run, f);
    }

    method ConvertOnce(run: RunId, f: FileId) returns (r: Summary)
      requires At(run, ReadSource(f))
      modifies this
      ensures Reached(Loop) && OnlyItem(run, f, r.committed == 1)
      ensures r.committed == r.pendingCleanup == 1 - r.failed
    {
      hide Init, Run, FailedUpdates, FailedAccesses;
      var content := ReadContent(run, f);
      if content == "" { return NOTHING.(failed := 1); }
      var ok := BeginProcessingItem(run, f, content);
      if !ok { return NOTHING.(failed := 1); }
      r := ConvertContent(run, f, content);
    }

    method ConvertContent(run: RunId, f: FileId, content: Blob) returns (r: Summary)
      requires At(run, Process(f, content))
      modifies this
      ensures Reached(Loop) && OnlyItem(run, f, r.committed == 1)
      ensures r.committed == r.pendingCleanup == 1 - r.failed
    {
      hide Init, Run, FailedUpdates, FailedAccesses;
      var out := ProcessContent(run, f, content);
      if out == "" { return NOTHING.(evaluated := 1, failed := 1); }
      var committed := ApplyCandidate(run, f, out);
      if !committed { return NOTHING.(evaluated := 1, failed := 1); }
      return NOTHING.(evaluated := 1, committed := 1, pendingCleanup := 1);
    }

    // ----- apply -------------------------------------------------------------------------------------

    method BeginRun(run: RunId) returns (r: Option<map<FileId, Item>>)
      requires Valid() && command == Down
      modifies this
      ensures db.items == old(db).items && failures == old(failures)
      ensures if r.None? then Stopped()
              else Outstanding(run, r.value, r.value.Keys) && old(trace) <= trace && !command.lost
    {
      var e := Ask();
      if e.fails { return None; }
      var ids := set k | k in db.items && k.0 == run && InFlight(db.items[k]) :: k.1;
      assert forall f | f in ids :: (run, f) in db.items && InFlight(db.items[(run, f)]);
      var items := map f | f in ids :: db.items[(run, f)];
      Took(Machine(), BeginApply(run));
      return Some(items);
    }

    method LoadCandidates(run: RunId) returns (r: Option<map<FileId, Key>>)
      requires Valid() && command.Applying? && command == Applying(run, {}, None, command.lost, Loop)
      modifies this
      ensures db.items == old(db).items
      ensures if r.None? then Stopped() else AtLoop(run, {}, Some(r.value))
    {
      var e := Ask();
      if e.fails {
        GiveUp();
        return None;
      }
      ApplyIs(Machine(), 0, e);
      var candidates := Candidates(db, e.ids);
      Took(Machine(), ApplyOne(0, e));
      return Some(candidates);
    }

    // Where a candidate with this item goes on.
    function ItemPc(f: FileId, item: Option<Item>, retryFailed: bool): ApplyPc {
      if item.None? || item.value.status == Pending then ReadSource(f)
      else if InFlight(item.value) then Inspect(f, item.value)
      else if item.value.status == Committed || !retryFailed then Loop
      else ReadSource(f)
    }

    // What is known of a candidate: whether a product references it, its unfinished item of another run,
    // and its item of this run.
    method InspectCandidate(run: RunId, left: map<FileId, Key>, f: FileId, retryFailed: bool)
      returns (referenced: bool, unresolved: bool, item: Option<Item>)
      requires Valid() && command.Applying? && command == Applying(run, {}, Some(left), command.lost, Loop) && f in left
      modifies this
      ensures Valid() && old(trace) <= trace && db.items == old(db).items
      ensures command == if referenced && unresolved then Down
                         else old(command).(todo := Some(left - {f}),
                                            pc := if referenced then ItemPc(f, item, retryFailed) else Loop)
    {
      var answer := Ask();
      referenced := !answer.flag;
      ghost var e := Env(!retryFailed, "", !referenced, {}, 0);
      ApplyIs(Machine(), f, e);
      unresolved := Unresolved(db, run, f);
      item := if (run, f) in db.items then Some(db.items[(run, f)]) else None;
      Took(Machine(), ApplyOne(f, e));
    }

    /** One round of the candidate loop; None ends the command with an error. */
    method ApplyOneCandidate(run: RunId, left: map<FileId, Key>, f: FileId, retryFailed: bool)
      returns (r: Option<Summary>)
      requires Valid() && command.Applying? && command == Applying(run, {}, Some(left), command.lost, Loop) && f in left
      modifies this
      ensures if r.None? then Stopped() else AtLoop(run, {}, Some(left - {f}))
      ensures r.Some? ==> r.value.committed == r.value.pendingCleanup && Commits(run, r.value.committed)
    {
      var referenced, unresolved, item := InspectCandidate(run, left, f, retryFailed);
      if !referenced { return Some(NOTHING); }
      if unresolved { return None; }
      if item.Some? {
        if item.value.status == Committed { return Some(NOTHING); }
        if InFlight(item.value) {
          ghost var seen;
          r, seen := RecoverApplyItem(run, f, item.value);
          return;
        }
        if item.value.status == Failed && !retryFailed { return Some(NOTHING); }
      }
      var one := Convert(run, f);
      return Some(one);
    }

    /**
     runApply: recovery, then the candidates. Whether it ends well or with an error, every accepted
     image is still on disk and every committed item's record is at its target key or deleted. The
     summary counts the items of the run that became COMMITTED.
     */
    method RunApply(run: RunId, retryFailed: bool) returns (r: Option<Summary>)
      requires Valid() && command == Down
      modifies this
      ensures Stopped() && (forall f :: ProductImagesSafety.Served(db, f))
      ensures forall k | k in db.items && db.items[k].status == Committed ::
        k.1 in db.files ==> db.files[k.1].key == db.items[k].target && db.files[k.1].pass
      ensures r.Some? ==> r.value.committed == r.value.pendingCleanup && Commits(run, r.value.committed)
    {
      r := ApplyAll(run, retryFailed);
      ProductImagesSafety.AcceptedImagesAreServed(origin, trace);
      ProductImagesSafety.CommittedMeansMoved(origin, trace);
    }

    method ApplyAll(run: RunId, retryFailed: bool) returns (r: Option<Summary>)
      requires Valid() && command == Down
      modifies this
      ensures Stopped()
      ensures r.Some? ==> r.value.committed == r.value.pendingCleanup && Commits(run, r.value.committed)
    {
      var items := BeginRun(run);
      if items.None? { return None; }
      r := RecoverApplyItems(run, items.value);
      if r.None? { return; }
      var rest := ApplyRest(run, retryFailed);
      if rest.None? { return None; }
      return Some(Add(r.value, rest.value));
    }

    method ApplyRest(run: RunId, retryFailed: bool) returns (r: Option<Summary>)
      requires Valid() && command.Applying? && command == Applying(run, {}, None, command.lost, Loop)
      modifies this
      ensures Stopped()
      ensures r.Some? ==> r.value.committed == r.value.pendingCleanup && Commits(run, r.value.committed)
    {
      var candidates := LoadCandidates(run);
      if candidates.None? { return None; }
      r := ApplyCandidates(run, candidates.value, retryFailed);
    }

    method ApplyCandidates(run: RunId, candidates: map<FileId, Key>, retryFailed: bool) returns (r: Option<Summary>)
      requires Valid() && command.Applying? && command == Applying(run, {}, Some(candidates), command.lost, Loop)
      modifies this
      ensures Stopped()
      ensures r.Some? ==> r.value.committed == r.value.pendingCleanup && Commits(run, r.value.committed)
    {
      var got, left := NOTHING, candidates;
      ghost var before := CommittedIn(db.items, run);
      while left != map[]
        invariant Valid() && old(trace) <= trace && command.Applying?
        invariant command == Applying(run, {}, Some(left), command.lost, Loop)
        invariant Gained(run, before, got)
        decreases |left|
      {
        var cancelled: bool := *;
        if cancelled {
          GiveUp();
          return None;
        }
        var f :| f in left;
        var one := ApplyNext(run, left, f, retryFailed, got, before);
        if one.None? { return None; }
        got := Add(got, one.value);
        left := left - {f};
      }
      EndApplying(run);
      return Some(got);
    }

    method ApplyNext(run: RunId, left: map<FileId, Key>, f: FileId, retryFailed: bool, got: Summary,
                     ghost before: set<FileId>)
      returns (r: Option<Summary>)
      requires Valid() && command.Applying? && command == Applying(run, {}, Some(left), command.lost, Loop) && f in left
      requires Gained(run, before, got)
      modifies this
      ensures if r.None? then Stopped() else AtLoop(run, {}, Some(left - {f}))
      ensures r.Some? ==> Gained(run, before, Add(got, r.value))
    {
      r := ApplyOneCandidate(run, left, f, retryFailed);
    }

    ghost method EndApplying(run: RunId)
      requires Valid() && command.Applying? && command == Applying(run, {}, Some(map[]), command.lost, Loop)
      modifies this`command, this`trace, this`failures, this`errors
      ensures Stopped()
    {
      var e := Env(false, "", false, {}, 0);
      ApplyIs(Machine(), 0, e);
      Took(Machine(), ApplyOne(0, e));
    }

    // ----- cleanup -----------------------------------------------------------------------------------

    ghost predicate AtClean(run: RunId, left: set<FileId>, cpc: CleanPc)
      reads this
    { Valid() && command == Cleaning(run, left, cpc) }

    twostate predicate Cleaned(cpc: CleanPc)
      reads this
    {
      Valid() && old(trace) <= trace && old(command).Cleaning? && command == old(command).(cpc := cpc)
    }

    // What the machine keeps about the item being cleaned.
    lemma CleanedItem()
      requires Valid() && command.Cleaning?
      ensures CleansItem(db, command.cpc)
    {
      Reachable();
    }

    /**
     removeObjectIfExistsAndMatches: the content is read first, the unlink is a later access. Success
     means that the object is gone, and failure that it is as it was, while the record exists; it was
     removed only if it had the expected digest.
     */
    method RemoveIfMatches(run: RunId, left: set<FileId>, f: FileId, it: Item, gone: bool, target: bool)
      returns (ok: bool)
      requires AtClean(run, left, if target then HashNew(f, it) else HashOld(f, it, gone))
      modifies this
      ensures KeptBut(old(db), db, f)
      ensures Cleaned(if !ok then CleanBad(f) else if target then CleanOk(f) else AfterOld(f, it, gone))
      ensures ok ==> (if target then it.target else it.source) !in db.disk
      ensures f in db.files ==> !target && SameObject(old(db), db, it.target)
      ensures f in db.files && ok && it.source in old(db).disk ==> HashIs(old(db), it.source, it.sourceSha)
      ensures f in db.files && !ok ==> SameObject(old(db), db, it.source)
    {
      hide Init, Run, FailedUpdates, FailedAccesses;
      CleanedItem();
      var key, expected := if target then it.target else it.source, if target then it.outputSha else it.sourceSha;
      var e := AskAround(f);
      CleanIs(Machine(), f, e);
      var exists_ := key in db.disk;
      ok := !e.fails && (!exists_ || HashIs(db, key, expected));
      Took(Machine(), CleanupOne(f, e));
      if !ok || !exists_ { return; }
      label Hashed:
      ok := RemoveObject(run, left, f, it, gone, target);
      KeptButBoth(old(db), old@Hashed(db), db, f);
    }

    method RemoveObject(run: RunId, left: set<FileId>, f: FileId, it: Item, gone: bool, target: bool)
      returns (ok: bool)
      requires AtClean(run, left, if target then RemoveNew(f, it) else RemoveOld(f, it, gone))
      requires ProductImagesSafety.CleanItem(db, f, it, target)
      modifies this
      ensures KeptBut(old(db), db, f)
      ensures Cleaned(if !ok then CleanBad(f) else if target then CleanOk(f) else AfterOld(f, it, gone))
      ensures ok ==> (if target then it.target else it.source) !in db.disk
      ensures f in db.files ==> !target && SameObject(old(db), db, it.target)
      ensures f in db.files && !ok ==> SameObject(old(db), db, it.source)
    {
      hide Init, Run, FailedUpdates, FailedAccesses;
      var e := AskAround(f);
      ghost var before, asked := Machine(), db;
      CleanIs(before, f, e);
      ok := !e.fails;
      if ok {
        var key := if target then it.target else it.source;
        db := Unlink(db, key);
        ObjectKeptBut(asked, db, key);
        KeptButBoth(old(db), asked, db, f);
      }
      Took(before, CleanupOne(f, e));
    }

    // The tests that must pass before the old object may go: None is an error that ends the command,
    // Some((false, _)) a refusal; the second part tells whether the record was deleted.
    method MayRemove(run: RunId, left: set<FileId>, f: FileId, it: Item) returns (r: Option<(bool, bool)>)
      requires AtClean(run, left, CleanRecord(f, it))
      modifies this
      ensures Around(old(db), db, f)
      ensures if r.None? then Stopped() else Cleaned(if r.value.0 then HashOld(f, it, r.value.1) else CleanBad(f))
      ensures r.Some? && r.value.0 && f in db.files ==> !r.value.1 && HashIs(db, it.target, it.outputSha)
      ensures r.Some? && r.value.0 && f !in old(db).files ==> r.value.1
    {
      CleanedItem();
      var e := AskAround(f);
      CleanIs(Machine(), f, e);
      var record := if f in db.files then Some(db.files[f]) else None;
      Took(Machine(), CleanupOne(f, e));
      if it.source == it.target { return Some((false, false)); }
      if e.fails { return None; }
      if record.None? { return Some((!e.flag, true)); }
      if record.value.key != it.target { return Some((false, false)); }
      label Read:
      r := TargetIsKept(run, left, f, it);
      AroundBoth(old(db), old@Read(db), db, f);
    }

    // The record is at the target: the target object must be intact and no record at the old key.
    method TargetIsKept(run: RunId, left: set<FileId>, f: FileId, it: Item) returns (r: Option<(bool, bool)>)
      requires AtClean(run, left, CleanTarget(f, it))
      modifies this
      ensures Around(old(db), db, f)
      ensures if r.None? then Stopped() else Cleaned(if r.value.0 then HashOld(f, it, r.value.1) else CleanBad(f))
      ensures r.Some? && r.value.0 ==> !r.value.1 && (f in db.files ==> HashIs(db, it.target, it.outputSha))
    {
      var matches := TargetHasDigest(run, left, f, it);
      if !matches { return Some((false, false)); }
      label Matched:
      var referenced := SourceIsReferenced(run, left, f, it);
      AroundBoth(old(db), old@Matched(db), db, f);
      if referenced.None? { return None; }
      return Some((!referenced.value, false));
    }

    method TargetHasDigest(run: RunId, left: set<FileId>, f: FileId, it: Item) returns (matches: bool)
      requires AtClean(run, left, CleanTarget(f, it))
      modifies this
      ensures Around(old(db), db, f) && Cleaned(if matches then CleanCount(f, it) else CleanBad(f))
      ensures matches ==> it.target == Target(f) && HashIs(db, it.target, it.outputSha)
    {
      CleanedItem();
      var e := AskAround(f);
      CleanIs(Machine(), f, e);
      matches := !e.fails && HashIs(db, it.target, it.outputSha);
      Took(Machine(), CleanupOne(f, e));
    }

    // Whether some record is still at the old key; None is an error.
    method SourceIsReferenced(run: RunId, left: set<FileId>, f: FileId, it: Item) returns (r: Option<bool>)
      requires AtClean(run, left, CleanCount(f, it))
      modifies this
      ensures Around(old(db), db, f)
      ensures if r.None? then Stopped() else Cleaned(if r.value then CleanBad(f) else HashOld(f, it, false))
      ensures r == Some(false) ==> forall g | g in db.files :: db.files[g].key != it.source
    {
      CleanedItem();
      var e := AskAround(f);
      CleanIs(Machine(), f, e);
      var referenced := exists g | g in db.files :: db.files[g].key == it.source;
      Took(Machine(), CleanupOne(f, e));
      return if e.fails then None else Some(referenced);
    }

    /**
     cleanupCommittedItem. Done: the old object is gone and no record is at its key; if the record
     exists, it is at the target, whose object has the recorded digest, and so had the old object; if it
     was deleted before, the target object is gone as well. Not done: the old object of an existing
     record is as it was. The target object of an existing record and all other images are untouched.
     */
    method CleanupCommittedItem(run: RunId, left: set<FileId>, f: FileId, it: Item) returns (done: Option<bool>)
      requires AtClean(run, left, CleanRecord(f, it))
      modifies this
      ensures if done.None? then Stopped() else Cleaned(if done.value then CleanOk(f) else CleanBad(f))
      ensures KeptBut(old(db), db, f)
      ensures done == Some(true) ==> it.source !in db.disk && forall g | g in db.files :: db.files[g].key != it.source
      ensures f in db.files ==> db.files[f].key == it.target && SameObject(old(db), db, it.target)
      ensures f in db.files && done == Some(true) ==>
        HashIs(db, it.target, it.outputSha)
        && (it.source in old(db).disk ==> HashIs(old(db), it.source, it.sourceSha))
      ensures f in db.files && done != Some(true) ==> SameObject(old(db), db, it.source)
      ensures f !in old(db).files && done == Some(true) ==> it.target !in db.disk
    {
      CleanedItem();
      var may := MayRemove(run, left, f, it);
      if may.None? { return None; }
      if !may.value.0 { return Some(false); }
      label Allowed:
      done := RemoveBoth(run, left, f, it, may.value.1);
      KeptButBoth(old(db), old@Allowed(db), db, f);
      if done == Some(true) { NoRecordAtOld(f); }
    }

    method RemoveBoth(run: RunId, left: set<FileId>, f: FileId, it: Item, gone: bool) returns (done: Option<bool>)
      requires AtClean(run, left, HashOld(f, it, gone))
      modifies this
      ensures done.Some? && Cleaned(if done.value then CleanOk(f) else CleanBad(f))
      ensures KeptBut(old(db), db, f)
      ensures done.value ==> it.source !in db.disk && (gone ==> it.target !in db.disk)
      ensures f in db.files ==> SameObject(old(db), db, it.target)
      ensures f in db.files && done.value && it.source in old(db).disk ==> HashIs(old(db), it.source, it.sourceSha)
      ensures f in db.files && !done.value ==> SameObject(old(db), db, it.source)
    {
      CleanedItem();
      var ok := RemoveIfMatches(run, left, f, it, gone, false);
      if ok && gone {
        label Removed:
        ok := RemoveIfMatches(run, left, f, it, gone, true);
        KeptButBoth(old(db), old@Removed(db), db, f);
      }
      return Some(ok);
    }

    lemma NoRecordAtOld(f: FileId)
      requires Valid() && ProductImagesSafety.AtTarget(db, f)
      ensures forall g | g in db.files :: db.files[g].key != Legacy(f)
    {
      Reachable();
      forall g | g in db.files ensures db.files[g].key != Legacy(f) {
        assert ProductImagesSafety.RecordOk(db, g);
      }
    }

    /** The cleanup status of an item; only failing to record success ends the command. */
    method UpdateCleanupStatus(run: RunId, left: set<FileId>, f: FileId, done: bool) returns (ok: bool)
      requires AtClean(run, left, if done then CleanOk(f) else CleanBad(f)) && (run, f) in db.items
      modifies this
      ensures OnlyItem(run, f, false) && Untouched(old(db), db, run, {f})
      ensures if !ok && done then Stopped() else Cleaned(CleanLoop)
      ensures !ok ==> db.items == old(db).items
      ensures ok ==> db.items[(run, f)].cleanup == if done then CleanupDone else CleanupFailed
    {
      hide Init, Run, FailedUpdates, FailedAccesses;
      Others();
      var e: Env := *;
      ghost var before := Machine();
      CleanIs(before, f, e);
      ok := !e.fails;
      OthersUntouched(old(db), db, run);
      StatusUntouched(old(db), db, run, f, if done then CleanupDone else CleanupFailed);
      if ok { db := PutCleanup(db, run, f, if done then CleanupDone else CleanupFailed); }
      Took(before, CleanupOne(f, e));
    }

    ghost predicate Due(run: RunId, items: map<FileId, Item>, left: set<FileId>)
      reads this
    {
      AtClean(run, left, CleanLoop) && left <= items.Keys
      && (forall f | f in left :: (run, f) in db.items && db.items[(run, f)] == items[f])
      && (forall f | f in items :: items[f].status == Committed && items[f].cleanup != CleanupDone)
    }

    ghost function DoneOf(run: RunId, ids: set<FileId>): set<FileId>
      reads this
    { set f | f in ids && (run, f) in db.items && db.items[(run, f)].cleanup == CleanupDone }

    // Of these items, the summary counts the ones done and the others.
    ghost predicate Counts(got: Summary, run: RunId, ids: set<FileId>)
      reads this
    {
      got.cleanupDone == |DoneOf(run, ids)| && got.cleanupDone + got.cleanupFailed == |ids|
      && got.committed == got.failed == got.evaluated == got.pendingCleanup == 0
    }

    // The items whose delay is over, as one query reads them.
    method BeginCleaning(run: RunId) returns (r: Option<map<FileId, Item>>, ghost now: int)
      requires Valid() && command == Down
      modifies this
      ensures if r.None? then Stopped() else Due(run, r.value, r.value.Keys)
      ensures r.Some? ==> old(trace) <= trace && BeginCleanup(run, now) in trace[|old(trace)|..]
      ensures r.Some? ==> r.value.Keys == DueIn(old(db), run, now)
      ensures Untouched(old(db), db, run, {})
    {
      hide Init, Run, FailedUpdates, FailedAccesses, Untouched, CleanupDue, Next, OthersKeep, IsDue;
      Others();
      var e: Env := *;
      now := e.now;
      OthersUntouched(old(db), db, run);
      assert db.items == old(db).items by { SameItems(old(db), db); }
      if e.fails { return None, now; }
      var ids := set k | k in db.items && k.0 == run && CleanupDue(db.items[k], e.now) :: k.1;
      QuerySelectsTheDue(old(db), Machine(), run, now, ids);
      var items := map f | f in ids :: db.items[(run, f)];
      StepAdded(old(trace), trace, BeginCleanup(run, now));
      Took(Machine(), BeginCleanup(run, e.now));
      return Some(items), now;
    }

    // One item of the list, from reading it to recording the outcome.
    method CleanItem(run: RunId, items: map<FileId, Item>, left: set<FileId>, f: FileId) returns (r: Option<bool>)
      requires Due(run, items, left) && f in left
      modifies this
      ensures OnlyItem(run, f, false) && Untouched(old(db), db, run, {f})
      ensures if r.None? then Stopped() else Due(run, items, left - {f}) && old(trace) <= trace
      ensures r.Some? ==> (run, f) in db.items && (r.value <==> db.items[(run, f)].cleanup == CleanupDone)
    {
      hide Init, Run, FailedUpdates, FailedAccesses;
      PickCleanup(run, left, f, items[f]);
      r := CleanupCommittedItem(run, left - {f}, f, items[f]);
      KeptButUntouched(old(db), db, run, f);
      if r.Some? {
        label Cleaned:
        var ok := UpdateCleanupStatus(run, left - {f}, f, r.value);
        UntouchedBoth(old(db), old@Cleaned(db), db, run, {f}, {f});
        if !ok && r.value { return None; }
      }
    }

    method CleanNext(run: RunId, items: map<FileId, Item>, left: set<FileId>, f: FileId, got: Summary)
      returns (r: Option<Summary>)
      requires Due(run, items, left) && f in left && Counts(got, run, items.Keys - left)
      modifies this
      ensures if r.None? then Stopped() else Due(run, items, left - {f}) && old(trace) <= trace
      ensures r.Some? ==> Counts(r.value, run, items.Keys - (left - {f}))
      ensures Untouched(old(db), db, run, {f})
    {
      hide Init, Run, FailedUpdates, FailedAccesses, Untouched;
      ghost var finished := items.Keys - left;
      ghost var before := DoneOf(run, finished);
      var done := CleanItem(run, items, left, f);
      if done.None? { return None; }
      DoneOneMore(run, finished, f, done.value, before);
      assert items.Keys - (left - {f}) == finished + {f};
      return Some(if done.value then got.(cleanupDone := got.cleanupDone + 1)
                  else got.(cleanupFailed := got.cleanupFailed + 1));
    }

    ghost method PickCleanup(run: RunId, left: set<FileId>, f: FileId, it: Item)
      requires AtClean(run, left, CleanLoop) && f in left && (run, f) in db.items && db.items[(run, f)] == it
      modifies this`command, this`trace, this`failures, this`errors
      ensures AtClean(run, left - {f}, CleanRecord(f, it)) && old(trace) <= trace
    {
      var e := Env(false, "", false, {}, 0);
      CleanIs(Machine(), f, e);
      Took(Machine(), CleanupOne(f, e));
    }

    lemma DoneOneMore(run: RunId, finished: set<FileId>, f: FileId, done: bool, before: set<FileId>)
      requires f !in finished && DoneOf(run, finished) == before
      requires done <==> (run, f) in db.items && db.items[(run, f)].cleanup == CleanupDone
      ensures |DoneOf(run, finished + {f})| == |before| + if done then 1 else 0
    {
      if done {
        assert DoneOf(run, finished + {f}) == before + {f};
      } else {
        assert DoneOf(run, finished + {f}) == before;
      }
    }

    /**
     runCleanup: the summary counts exactly the COMMITTED items of the run that are not cleaned and whose
     time had come when it read them at time `now`: those whose objects are now recorded as removed, and
     the others. All other items of the run are as they were, and so is the old object of each whose
     record exists.
     */
    method RunCleanup(run: RunId) returns (r: Option<Summary>, ghost now: int)
      requires Valid() && command == Down
      modifies this
      ensures Stopped() && (forall f :: ProductImagesSafety.Served(db, f))
      ensures r.Some? ==> BeginCleanup(run, now) in trace[|old(trace)|..]
      ensures r.Some? ==> Counts(r.value, run, DueIn(old(db), run, now))
      ensures forall f | (run, f) in old(db).items && !IsDue(old(db), run, f, now) ::
        && (run, f) in db.items && db.items[(run, f)] == old(db).items[(run, f)]
        && (f in db.files ==> SameObject(old(db), db, Legacy(f)))
    {
      hide Init, Run, FailedUpdates, FailedAccesses, Untouched;
      Reachable();
      r, now := CleanAll(run);
      forall f | (run, f) in old(db).items && !IsDue(old(db), run, f, now)
        ensures (run, f) in db.items && db.items[(run, f)] == old(db).items[(run, f)]
        ensures f in db.files ==> SameObject(old(db), db, Legacy(f))
      {
        UntouchedImage(old(db), db, run, DueIn(old(db), run, now), f);
      }
      EveryoneIsServed();
    }

    lemma EveryoneIsServed()
      requires Valid()
      ensures forall f :: ProductImagesSafety.Served(db, f)
    {
      ProductImagesSafety.AcceptedImagesAreServed(origin, trace);
    }

    method CleanAll(run: RunId) returns (r: Option<Summary>, ghost now: int)
      requires Valid() && command == Down
      modifies this
      ensures Stopped()
      ensures r.Some? ==> BeginCleanup(run, now) in trace[|old(trace)|..]
      ensures r.Some? ==> Counts(r.value, run, DueIn(old(db), run, now))
      ensures Untouched(old(db), db, run, DueIn(old(db), run, now))
    {
      hide Init, Run, FailedUpdates, FailedAccesses;
      var items;
      items, now := BeginCleaning(run);
      if items.None? { return None, now; }
      label Begun:
      r := CleanDue(run, items.value);
      UntouchedBoth(old(db), old@Begun(db), db, run, items.value.Keys, items.value.Keys);
      if r.Some? {
        assert old@Begun(trace)[|old(trace)|..] <= trace[|old(trace)|..];
      }
    }

    lemma NothingCounted(run: RunId)
      ensures Counts(NOTHING, run, {})
    {
      assert DoneOf(run, {}) == {};
    }

    method CleanDue(run: RunId, items: map<FileId, Item>) returns (r: Option<Summary>)
      requires Due(run, items, items.Keys)
      modifies this
      ensures Stopped()
      ensures r.Some? ==> Counts(r.value, run, items.Keys)
      ensures Untouched(old(db), db, run, items.Keys)
    {
      hide Init, Run, FailedUpdates, FailedAccesses, Untouched;
      r := CleanEach(run, items);
      if r.Some? {
        ghost var finished := DoneOf(run, items.Keys);
        EndCleaning(run);
        assert DoneOf(run, items.Keys) == finished;
      }
    }

    method CleanEach(run: RunId, items: map<FileId, Item>) returns (r: Option<Summary>)
      requires Due(run, items, items.Keys)
      modifies this
      ensures if r.None? then Stopped() else Due(run, items, {}) && old(trace) <= trace
      ensures r.Some? ==> Counts(r.value, run, items.Keys)
      ensures Untouched(old(db), db, run, items.Keys)
    {
      hide Init, Run, FailedUpdates, FailedAccesses, Untouched, Due, Counts;
      var got, left := NOTHING, items.Keys;
      NothingTouched(db, run, items.Keys);
      NothingCounted(run);
      assert items.Keys - left == {};
      while left != {}
        invariant left <= items.Keys && Due(run, items, left) && old(trace) <= trace
        invariant Counts(got, run, items.Keys - left)
        invariant Untouched(old(db), db, run, items.Keys)
        decreases |left|
      {
        var f :| f in left;
        ghost var before := db;
        var next := CleanNext(run, items, left, f, got);
        UntouchedBoth(old(db), before, db, run, items.Keys, {f});
        if next.None? { return None; }
        got, left := next.value, left - {f};
      }
      assert items.Keys - left == items.Keys;
      return Some(got);
    }

    ghost method EndCleaning(run: RunId)
      requires AtClean(run, {}, CleanLoop)
      modifies this`command, this`trace, this`failures, this`errors
      ensures Stopped()
    {
      var e := Env(false, "", false, {}, 0);
      CleanIs(Machine(), 0, e);
      Took(Machine(), CleanupOne(0, e));
    }
  }
}
