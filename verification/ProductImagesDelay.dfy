/**
 The delay between moving an image and removing its old object: over every run, cleanup touches an item
 only a day after the step that committed it.
 */
module ProductImagesDelay {
  import opened Wrappers
  import opened ProductImages
  import opened ProductImagesSafety
  import opened ProductImagesRecovery

  // ----- when an item was committed ----------------------------------------------------------------

  // A committed item may be cleaned from this time on.
  predicate CleanFrom(s: State, k: (RunId, FileId), time: int) {
    k in s.db.items && s.db.items[k].status == Committed && s.db.items[k].cleanupAfter == time
  }

  // The item was committed before and may be cleaned from the same time on, or it is committed now, for a
  // day later.
  ghost predicate CommittedNowOrBefore(s: State, t: State, a: Step, k: (RunId, FileId)) {
    IsCommitted(t, k) ==>
      || CleanFrom(s, k, t.db.items[k].cleanupAfter)
      || (!IsCommitted(s, k) && a.ApplyOne? && t.db.items[k].cleanupAfter == a.env.now + 24 * 60 * 60)
  }

  lemma CommitTime(s: State, e: Env, k: (RunId, FileId), f: FileId)
    requires s.command.Applying? && ApplyPcOk(s.db, s.command.run, s.command.pc)
    ensures CommittedNowOrBefore(s, CommitStep(s, e), ApplyOne(f, e), k)
  {
  }

  lemma OtherStepsCommitNothing(s: State, e: Env, k: (RunId, FileId), f: FileId)
    requires s.command.Applying? && ApplyPcOk(s.db, s.command.run, s.command.pc)
    ensures CommittedNowOrBefore(s, RecoverWriteStep(s, e), ApplyOne(f, e), k)
    ensures CommittedNowOrBefore(s, PrepareStep(s, e), ApplyOne(f, e), k)
    ensures CommittedNowOrBefore(s, PublishStep(s, e), ApplyOne(f, e), k)
  {
    RecoveryCommitsNothing(s, e, k, f);
    PublishCommitsNothing(s, e, k, f);
  }

  lemma RecoveryCommitsNothing(s: State, e: Env, k: (RunId, FileId), f: FileId)
    requires s.command.Applying?
    ensures CommittedNowOrBefore(s, RecoverWriteStep(s, e), ApplyOne(f, e), k)
  {
  }

  lemma PublishCommitsNothing(s: State, e: Env, k: (RunId, FileId), f: FileId)
    requires s.command.Applying?
    ensures CommittedNowOrBefore(s, PublishStep(s, e), ApplyOne(f, e), k)
  {
  }

  lemma ApplyTime(s: State, e: Env, k: (RunId, FileId), f: FileId)
    requires s.command.Applying? && ApplyPcOk(s.db, s.command.run, s.command.pc)
    ensures CommittedNowOrBefore(s, ApplyStep(s, f, e), ApplyOne(f, e), k)
  {
    CommitTime(s, e, k, f);
    OtherStepsCommitNothing(s, e, k, f);
    LoopWritesNothing(s, f, e);
  }

  // Cleanup writes no item but its cleanup status.
  ghost predicate TimesKept(a: Store, b: Store) {
    a.items.Keys == b.items.Keys
    && forall k | k in b.items :: b.items[k] == a.items[k].(cleanup := b.items[k].cleanup)
  }

  lemma CleanupKeepsTimes(s: State, f: FileId, e: Env)
    requires s.command.Cleaning?
    ensures TimesKept(s.db, CleanTestStep(s, e).db)
    ensures TimesKept(s.db, CleanRemoveStep(s, e).db)
    ensures TimesKept(s.db, CleanWriteStep(s, f, e).db)
  {
    StatusKeepsTimes(s.db, s.command.run, if s.command.cpc.CleanLoop? then 0 else s.command.cpc.f, CleanupDone);
    StatusKeepsTimes(s.db, s.command.run, if s.command.cpc.CleanLoop? then 0 else s.command.cpc.f, CleanupFailed);
    StoresKeepTimes(s, e);
  }

  lemma StatusKeepsTimes(db: Store, run: RunId, f: FileId, status: CleanupStatus)
    ensures TimesKept(db, PutCleanup(db, run, f, status)) && TimesKept(db, db)
  {
  }

  lemma StoresKeepTimes(s: State, e: Env)
    requires s.command.Cleaning?
    ensures CleanTestStep(s, e).db == s.db && CleanRemoveStep(s, e).db.items == s.db.items
  {
  }

  lemma CleanupTime(s: State, k: (RunId, FileId), f: FileId, e: Env)
    requires s.command.Cleaning?
    ensures CommittedNowOrBefore(s, CleanupStep(s, f, e), CleanupOne(f, e), k)
  {
    CleanupKeepsTimes(s, f, e);
  }

  lemma NextTime(s: State, a: Step, k: (RunId, FileId))
    requires CommandOk(s.db, s.command)
    ensures CommittedNowOrBefore(s, Next(s, a), a, k)
  {
    match a
    case UploadBy(u, act, partial) => UploadWritesNoItem(s, u, act, partial);
    case DeleteBy(d, act) => DeleteWritesNoItem(s, d, act);
    case ApplyOne(f, e) => if s.command.Applying? { ApplyTime(s, e, k, f); }
    case CleanupOne(f, e) => if s.command.Cleaning? { CleanupTime(s, k, f, e); }
    case _ =>
  }

  lemma PrefixStep(s: State, steps: seq<Step>, n: nat)
    requires n < |steps|
    ensures Run(s, steps[..n + 1]) == Next(Run(s, steps[..n]), steps[n])
  {
    assert steps[..n + 1] == steps[..n] + [steps[n]];
    RunConcat(s, steps[..n], [steps[n]]);
    assert [steps[n]][1..] == [];
    assert Run(Run(s, steps[..n]), [steps[n]]) == Run(Next(Run(s, steps[..n]), steps[n]), []);
  }

  lemma ReachableOk(s: State, steps: seq<Step>, n: nat)
    requires Init(s) && n <= |steps|
    ensures Inv(Run(s, steps[..n]))
  {
    InitInv(s);
    RunInv(s, steps[..n]);
  }

  // Step c of the run is an access of `apply` that commits the item.
  ghost predicate CommitsAt(s: State, steps: seq<Step>, c: nat, k: (RunId, FileId)) {
    && c < |steps| && steps[c].ApplyOne?
    && !IsCommitted(Run(s, steps[..c]), k) && IsCommitted(Run(s, steps[..c + 1]), k)
  }

  lemma {:induction false} CommittedSince(s: State, steps: seq<Step>, n: nat, k: (RunId, FileId))
    requires Init(s) && n <= |steps| && IsCommitted(Run(s, steps[..n]), k)
    ensures exists c: nat ::
      c < n && CommitsAt(s, steps, c, k)
      && steps[c].env.now + 24 * 60 * 60 == Run(s, steps[..n]).db.items[k].cleanupAfter
  {
    if n > 0 {
      PrefixStep(s, steps, n - 1);
      ReachableOk(s, steps, n - 1);
      var t := Run(s, steps[..n - 1]);
      NextTime(t, steps[n - 1], k);
      if CleanFrom(t, k, Run(s, steps[..n]).db.items[k].cleanupAfter) {
        CommittedSince(s, steps, n - 1, k);
      } else {
        assert CommitsAt(s, steps, n - 1, k);
      }
    }
  }

  // ----- what a cleanup works on -------------------------------------------------------------------

  predicate WorksOn(c: Command, f: FileId) {
    c.Cleaning? && (f in c.left || (!c.cpc.CleanLoop? && c.cpc.f == f))
  }

  // Committed, not cleaned, and the time has come.
  predicate IsDue(db: Store, run: RunId, f: FileId, now: int) {
    && (run, f) in db.items
    && db.items[(run, f)].status == Committed
    && db.items[(run, f)].cleanup in {CleanupPending, CleanupFailed}
    && db.items[(run, f)].cleanupAfter <= now
  }

  /** A cleanup works on exactly the items of its run that are due when it begins. */
  lemma CleanupSelectsTheDue(s: State, run: RunId, now: int)
    requires s.command.Down?
    ensures var t := Next(s, BeginCleanup(run, now));
      && t == s.(command := t.command) && t.command.Cleaning? && t.command.run == run && t.command.cpc.CleanLoop?
      && forall f :: WorksOn(t.command, f) <==> IsDue(s.db, run, f, now)
  {
    var t := Next(s, BeginCleanup(run, now));
    forall f: FileId ensures WorksOn(t.command, f) <==> IsDue(s.db, run, f, now) { assert (run, f).1 == f; }
  }

  lemma WorkShrinks(s: State, f: FileId, e: Env, g: FileId)
    requires s.command.Cleaning?
    ensures var t := CleanupStep(s, f, e);
      WorksOn(t.command, g) ==> WorksOn(s.command, g) && t.command.run == s.command.run
    ensures var t := CleanupStep(s, f, e); t.command.Cleaning? ==> t.command.run == s.command.run
  {
  }

  lemma NextWork(s: State, a: Step)
    ensures Next(s, a).command.Cleaning? ==>
      if s.command.Cleaning? then
        Next(s, a).command.run == s.command.run && forall g :: WorksOn(Next(s, a).command, g) ==> WorksOn(s.command, g)
      else s.command.Down? && a.BeginCleanup?
  {
    match a
    case UploadBy(u, act, partial) => UploadWritesNoItem(s, u, act, partial);
    case DeleteBy(d, act) => DeleteWritesNoItem(s, d, act);
    case ApplyOne(f, e) => if s.command.Applying? { ApplyIsNoCleanup(s, f, e); }
    case CleanupOne(f, e) => if s.command.Cleaning? { forall g { WorkShrinks(s, f, e, g); } }
    case _ =>
  }

  lemma ApplyIsNoCleanup(s: State, f: FileId, e: Env)
    requires s.command.Applying?
    ensures !ApplyStep(s, f, e).command.Cleaning?
  {
    ApplyGroups(s, e);
  }

  lemma ApplyGroups(s: State, e: Env)
    requires s.command.Applying?
    ensures !CommitStep(s, e).command.Cleaning? && !RecoverWriteStep(s, e).command.Cleaning?
    ensures !PrepareStep(s, e).command.Cleaning? && !PublishStep(s, e).command.Cleaning?
  {
  }

  // The cleanup running after n steps began with step j, and works on items due then.
  ghost predicate BeganAt(s: State, steps: seq<Step>, n: nat, j: nat) {
    && j < n <= |steps| && steps[j].BeginCleanup?
    && Run(s, steps[..j]).command.Down?
    && (forall m | j < m <= n :: Run(s, steps[..m]).command.Cleaning?)
    && var c := Run(s, steps[..n]).command;
    && c.run == steps[j].run
    && forall f | WorksOn(c, f) :: IsDue(Run(s, steps[..j]).db, c.run, f, steps[j].now)
  }

  lemma {:induction false} EveryCleanupBegan(s: State, steps: seq<Step>, n: nat)
    requires Init(s) && n <= |steps| && Run(s, steps[..n]).command.Cleaning?
    ensures exists j: nat :: BeganAt(s, steps, n, j)
  {
    if n > 0 {
      var t, a := Run(s, steps[..n - 1]), steps[n - 1];
      PrefixStep(s, steps, n - 1);
      NextWork(t, a);
      if t.command.Cleaning? {
        EveryCleanupBegan(s, steps, n - 1);
        var j: nat :| BeganAt(s, steps, n - 1, j);
        StillBegan(s, steps, n, j);
      } else {
        CleanupSelectsTheDue(t, a.run, a.now);
        assert BeganAt(s, steps, n, n - 1);
      }
    }
  }

  lemma StillBegan(s: State, steps: seq<Step>, n: nat, j: nat)
    requires 0 < n <= |steps| && Run(s, steps[..n]).command.Cleaning? && BeganAt(s, steps, n - 1, j)
    ensures BeganAt(s, steps, n, j)
  {
    PrefixStep(s, steps, n - 1);
    NextWork(Run(s, steps[..n - 1]), steps[n - 1]);
  }

  // ----- what a step of cleanup does to an item or its old object ----------------------------------

  // The old object of the item goes, or the item changes.
  predicate Touches(s: State, t: State, k: (RunId, FileId)) {
    || (s.command.Cleaning? && s.command.run == k.0 && Legacy(k.1) in s.db.disk && Legacy(k.1) !in t.db.disk)
    || (k in s.db.items && (k !in t.db.items || t.db.items[k] != s.db.items[k]))
  }

  lemma CleanupTouches(s: State, f: FileId, e: Env, k: (RunId, FileId))
    requires Inv(s) && Touches(s, Next(s, CleanupOne(f, e)), k)
    ensures s.command.Cleaning? && s.command.run == k.0 && WorksOn(s.command, k.1)
  {
    assert s.command.Cleaning?;
    if s.command.cpc.HashOld? || s.command.cpc.RemoveOld? || s.command.cpc.HashNew? || s.command.cpc.RemoveNew? {
      RemovalTouches(s, e, k);
    } else {
      WriteTouches(s, f, e, k);
    }
  }

  lemma RemovalTouches(s: State, e: Env, k: (RunId, FileId))
    requires s.command.Cleaning? && CleanPcOk(s.db, s.command.cpc)
    requires Touches(s, CleanRemoveStep(s, e), k)
    ensures s.command.run == k.0 && WorksOn(s.command, k.1)
  {
  }

  lemma WriteTouches(s: State, f: FileId, e: Env, k: (RunId, FileId))
    requires s.command.Cleaning?
    requires Touches(s, CleanWriteStep(s, f, e), k) || Touches(s, CleanTestStep(s, e), k)
    ensures s.command.run == k.0 && WorksOn(s.command, k.1)
  {
  }

  // The item was committed by step c, and the cleanup that began with step j did so a day later or more.
  ghost predicate ADayApart(s: State, steps: seq<Step>, c: nat, j: nat, k: (RunId, FileId)) {
    && c < j < |steps| && CommitsAt(s, steps, c, k) && steps[j].BeginCleanup? && steps[j].run == k.0
    && steps[c].env.now <= steps[j].now - 24 * 60 * 60
  }

  /**
   Over every run, a step of cleanup removes the old object of an item, or changes the item, only if the
   item was committed by an earlier step, at least 24 hours before the time at which this cleanup began.
   */
  lemma CleanupWaitsADay(s: State, steps: seq<Step>, i: nat, k: (RunId, FileId))
    requires Init(s) && i < |steps| && steps[i].CleanupOne?
    requires Touches(Run(s, steps[..i]), Run(s, steps[..i + 1]), k)
    ensures exists c: nat, j: nat :: ADayApart(s, steps, c, j, k) && BeganAt(s, steps, i, j)
  {
    hide Inv, Next, Run, Touches;
    PrefixStep(s, steps, i);
    ReachableOk(s, steps, i);
    CleanupTouches(Run(s, steps[..i]), steps[i].next, steps[i].env, k);
    EveryCleanupBegan(s, steps, i);
    var j: nat :| BeganAt(s, steps, i, j);
    assert (k.0, k.1) == k;
    assert IsDue(Run(s, steps[..j]).db, k.0, k.1, steps[j].now);
    CommittedSince(s, steps, j, k);
    var c: nat :| c < j && CommitsAt(s, steps, c, k)
      && steps[c].env.now + 24 * 60 * 60 == Run(s, steps[..j]).db.items[k].cleanupAfter;
    assert ADayApart(s, steps, c, j, k);
  }
}
