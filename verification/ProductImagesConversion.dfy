/**
 Which images can still be converted. A record at its legacy key whose target key is taken gets
 converted in some continuation exactly when an item knows the object that is there, or the command is
 about to tell one.
 */
module ProductImagesConversion {
  import opened Wrappers
  import opened ProductImages
  import opened ProductImagesSafety
  import opened ProductImagesRecovery
  import opened ProductImagesTracking

  predicate Converted(s: State, f: FileId) { f in s.db.files && s.db.files[f].key == Target(f) }

  ghost predicate CanConvert(s: State, f: FileId) { exists steps :: Converted(Run(s, steps), f) }

  lemma Before(s: State, a: Step, f: FileId)
    requires CanConvert(Next(s, a), f)
    ensures CanConvert(s, f)
  {
    var steps :| Converted(Run(Next(s, a), steps), f);
    assert ([a] + steps)[1..] == steps;
    assert Run(s, [a] + steps) == Run(Next(s, a), steps);
  }

  lemma Now(s: State, f: FileId)
    requires Converted(s, f)
    ensures CanConvert(s, f)
  {
    assert Run(s, []) == s;
  }

  // Every access succeeds, or every access fails.
  const WORKS := Env(false, "", false, {}, 0)
  const FAILS := Env(true, "", false, {}, 0)

  // An item of the record knows both objects.
  ghost predicate Ready(db: Store, run: RunId, f: FileId) {
    && AtLegacy(db, f) && db.files[f].pass && db.files[f].kind == ProductImage && (run, f) in db.items
    && Legacy(f) in db.disk && db.disk[Legacy(f)] != "" && Target(f) in db.disk
    && Knows(db, f, db.items[(run, f)])
  }

  ghost predicate Knows(db: Store, f: FileId, it: Item) {
    && it.source == Legacy(f) && it.target == Target(f)
    && HashIs(db, it.source, it.sourceSha) && HashIs(db, it.target, it.outputSha)
  }

  predicate Running(s: State, run: RunId, pc: ApplyPc) {
    s.command.Applying? && s.command.run == run && s.command.pc == pc
  }

  // ----- from the digest checks on -----------------------------------------------------------------

  lemma FromSwitch(s: State, run: RunId, f: FileId, it: Item, r: bool)
    requires Running(s, run, Switch(f, it, r)) && Ready(s.db, run, f) && Knows(s.db, f, it)
    ensures CanConvert(s, f)
  {
    Now(Next(s, ApplyOne(f, WORKS)), f);
    Before(s, ApplyOne(f, WORKS), f);
  }

  lemma FromCheckSource(s: State, run: RunId, f: FileId, it: Item, r: bool)
    requires Running(s, run, CheckSource(f, it, r)) && Ready(s.db, run, f) && Knows(s.db, f, it)
    ensures CanConvert(s, f)
  {
    FromSwitch(Next(s, ApplyOne(f, WORKS)), run, f, it, r);
    Before(s, ApplyOne(f, WORKS), f);
  }

  lemma FromReadRecord(s: State, run: RunId, f: FileId, it: Item, r: bool)
    requires Running(s, run, ReadRecord(f, it, r)) && Ready(s.db, run, f) && Knows(s.db, f, it)
    ensures CanConvert(s, f)
  {
    FromCheckSource(Next(s, ApplyOne(f, WORKS)), run, f, it, r);
    Before(s, ApplyOne(f, WORKS), f);
  }

  lemma FromCheckTarget(s: State, run: RunId, f: FileId, it: Item, r: bool)
    requires Running(s, run, CheckTarget(f, it, r)) && Ready(s.db, run, f) && Knows(s.db, f, it)
    ensures CanConvert(s, f)
  {
    FromReadRecord(Next(s, ApplyOne(f, WORKS)), run, f, it, r);
    Before(s, ApplyOne(f, WORKS), f);
  }

  // ----- from recovery on --------------------------------------------------------------------------

  lemma FromSetStaged(s: State, run: RunId, f: FileId, it: Item)
    requires Running(s, run, SetStaged(f, it)) && Ready(s.db, run, f) && Knows(s.db, f, it)
    ensures CanConvert(s, f)
  {
    FromCheckTarget(Next(s, ApplyOne(f, WORKS)), run, f, it.(status := Staged), true);
    Before(s, ApplyOne(f, WORKS), f);
  }

  lemma FromInspect(s: State, run: RunId, f: FileId, it: Item)
    requires Running(s, run, Inspect(f, it)) && Ready(s.db, run, f) && Knows(s.db, f, it) && InFlight(it)
    ensures CanConvert(s, f)
  {
    var t := Next(s, ApplyOne(f, WORKS));
    if it.status == Staged { FromCheckTarget(t, run, f, it, true); } else { FromSetStaged(t, run, f, it); }
    Before(s, ApplyOne(f, WORKS), f);
  }

  // An item in flight is converted by the next recovery of its run.
  lemma FromInFlight(s: State, run: RunId, f: FileId)
    requires s.command.Down? && Ready(s.db, run, f) && InFlight(s.db.items[(run, f)])
    ensures CanConvert(s, f)
  {
    var t := Next(s, BeginApply(run));
    assert f in t.command.recover by { assert (run, f).1 == f; }
    FromInspect(Next(t, ApplyOne(f, WORKS)), run, f, s.db.items[(run, f)]);
    Before(t, ApplyOne(f, WORKS), f);
    Before(s, BeginApply(run), f);
  }

  lemma FromCrash(s: State, run: RunId, f: FileId)
    requires Ready(s.db, run, f) && InFlight(s.db.items[(run, f)])
    ensures CanConvert(s, f)
  {
    FromInFlight(Next(s, Crash), run, f);
    Before(s, Crash, f);
  }

  // ----- from an item that is waiting or failed ----------------------------------------------------

  lemma FromMarkProcessing(s: State, run: RunId, f: FileId, c: Blob)
    requires Running(s, run, MarkProcessing(f, c)) && Ready(s.db, run, f)
    ensures CanConvert(s, f)
  {
    FromCrash(Next(s, ApplyOne(f, WORKS)), run, f);
    Before(s, ApplyOne(f, WORKS), f);
  }

  lemma FromReadSource(s: State, run: RunId, f: FileId)
    requires Running(s, run, ReadSource(f)) && Ready(s.db, run, f)
    ensures CanConvert(s, f)
  {
    var t := Next(s, ApplyOne(f, WORKS));
    FromMarkProcessing(Next(t, ApplyOne(f, WORKS)), run, f, s.db.disk[Legacy(f)]);
    Before(t, ApplyOne(f, WORKS), f);
    Before(s, ApplyOne(f, WORKS), f);
  }

  predicate Waits(it: Item) { it.status == Pending || it.status == Failed }

  // The candidate loop, with recovery over.
  lemma FromCandidates(s: State, run: RunId, f: FileId)
    requires Running(s, run, Loop) && s.command.recover == {} && s.command.todo.None?
    requires Ready(s.db, run, f) && OneRun(s.db) && Waits(s.db.items[(run, f)])
    ensures CanConvert(s, f)
  {
    var ids := WORKS.(ids := {f});
    var t := Next(s, ApplyOne(f, ids));
    assert Candidates(s.db, {f}) == map[f := Legacy(f)];
    assert t.command.todo.Some? && f in t.command.todo.value;
    forall k | k in s.db.items && k.1 == f ensures k.0 == run { assert k.1 == (run, f).1; }
    FromReadSource(Next(t, ApplyOne(f, WORKS)), run, f);
    Before(t, ApplyOne(f, WORKS), f);
    Before(s, ApplyOne(f, ids), f);
  }

  // One item of recovery whose accesses all fail, the failure mark included.
  lemma FromSetFailed(s: State, run: RunId, g: FileId, f: FileId)
    requires Running(s, run, SetFailed(g)) && CanConvert(s.(command := s.command.(pc := Loop, lost := true)), f)
    ensures CanConvert(s, f)
  {
    Before(s, ApplyOne(g, FAILS), f);
  }

  lemma FromLostItem(s: State, run: RunId, g: FileId, it: Item, f: FileId)
    requires Running(s, run, Inspect(g, it)) && CanConvert(s.(command := s.command.(pc := Loop, lost := true)), f)
    ensures CanConvert(s, f)
  {
    var t := Next(s, ApplyOne(g, FAILS));
    if it.status == Staged {
      FromSetFailed(Next(t, ApplyOne(g, FAILS)), run, g, f);
      Before(t, ApplyOne(g, FAILS), f);
    } else {
      FromSetFailed(t, run, g, f);
    }
    Before(s, ApplyOne(g, FAILS), f);
  }

  lemma {:induction false} FromRecovery(s: State, run: RunId, f: FileId)
    requires Running(s, run, Loop) && s.command.todo.None?
    requires forall g | g in s.command.recover :: (run, g) in s.db.items
    requires Ready(s.db, run, f) && OneRun(s.db) && Waits(s.db.items[(run, f)])
    ensures CanConvert(s, f)
    decreases |s.command.recover|
  {
    if s.command.recover == {} {
      FromCandidates(s, run, f);
    } else {
      var g :| g in s.command.recover;
      var t := Next(s, ApplyOne(g, WORKS));
      FromRecovery(t.(command := t.command.(pc := Loop, lost := true)), run, f);
      FromLostItem(t, run, g, s.db.items[(run, g)], f);
      Before(s, ApplyOne(g, WORKS), f);
    }
  }

  lemma FromWaiting(s: State, run: RunId, f: FileId)
    requires s.command.Down? && Ready(s.db, run, f) && OneRun(s.db) && Waits(s.db.items[(run, f)])
    ensures CanConvert(s, f)
  {
    var t := Next(s, BeginApply(run));
    FromRecovery(t, run, f);
    Before(s, BeginApply(run), f);
  }

  // ----- from a command that has published ---------------------------------------------------------

  lemma FromStage(s: State, f: FileId)
    requires Inv(s) && Tracked(s) && f in s.db.files
    requires s.command.Applying? && s.command.pc.Stage? && s.command.pc.f == f
    ensures CanConvert(s, f)
  {
    var c := s.command;
    WorkedOn(s, f);
    ServedAtLegacy(s, f);
    var t := Next(s, ApplyOne(f, WORKS));
    assert Ready(t.db, c.run, f) && InFlight(t.db.items[(c.run, f)]);
    FromCrash(t, c.run, f);
    Before(s, ApplyOne(f, WORKS), f);
  }

  ghost predicate LegacyRecordServed(db: Store, f: FileId) {
    AtLegacy(db, f) ==>
      && db.files[f].kind == ProductImage
      && (db.files[f].pass ==> f in db.original && Legacy(f) in db.disk && db.disk[Legacy(f)] == db.original[f])
  }

  lemma ServedAtLegacy(s: State, f: FileId)
    requires Inv(s)
    ensures LegacyRecordServed(s.db, f)
  {
    if f in s.db.files { assert RecordOk(s.db, f) && Served(s.db, f); }
  }

  // The item of the file the command works on, and its record.
  lemma WorkedOn(s: State, f: FileId)
    requires Inv(s) && Tracked(s) && s.command.Applying? && Works(s.db, s.command.run, f) && AtLegacy(s.db, f)
    ensures s.db.files[f].pass && Legacy(f) in s.db.disk && s.db.disk[Legacy(f)] != ""
  {
    ServedAtLegacy(s, f);
    assert ItemTracked(s.db, f, s.db.items[(s.command.run, f)]);
  }

  lemma FromHashSource(s: State, f: FileId)
    requires Inv(s) && Tracked(s) && f in s.db.files
    requires s.command.Applying? && s.command.pc.HashSource? && s.command.pc.f == f
    ensures CanConvert(s, f)
  {
    WorkedOn(s, f);
    var a := ApplyOne(f, WORKS);
    NextInv(s, a);
    NextTracked(s, a);
    FromStage(Next(s, a), f);
    Before(s, a, f);
  }

  lemma FromWriteOut(s: State, f: FileId)
    requires Inv(s) && Tracked(s) && f in s.db.files
    requires s.command.Applying? && s.command.pc.WriteOut? && s.command.pc.f == f
    ensures CanConvert(s, f)
  {
    var a := ApplyOne(f, WORKS);
    NextInv(s, a);
    NextTracked(s, a);
    FromHashSource(Next(s, a), f);
    Before(s, a, f);
  }

  // ----- exactly when ------------------------------------------------------------------------------

  ghost predicate SomeItemKnows(db: Store, f: FileId, b: Blob) {
    exists k | k in db.items :: k.1 == f && db.items[k].outputSha == Some(b)
  }

  lemma KnownIsReady(s: State, k: (RunId, FileId))
    requires Inv(s) && Tracked(s) && k in s.db.items && s.db.items[k].outputSha.Some? && AtLegacy(s.db, k.1)
    ensures Ready(s.db, k.0, k.1) && s.db.items[k].status != Committed
  {
    assert (k.0, k.1) == k;
    assert ItemOk(s.db, k.1, s.db.items[k]) && ItemTracked(s.db, k.1, s.db.items[k]);
    ServedAtLegacy(s, k.1);
  }

  lemma KnownCanConvert(s: State, k: (RunId, FileId))
    requires Inv(s) && Tracked(s) && k in s.db.items && s.db.items[k].outputSha.Some? && AtLegacy(s.db, k.1)
    ensures CanConvert(s, k.1)
  {
    KnownIsReady(s, k);
    assert (k.0, k.1) == k;
    if InFlight(s.db.items[k]) {
      FromCrash(s, k.0, k.1);
    } else {
      FromWaiting(Next(s, Crash), k.0, k.1);
      Before(s, Crash, k.1);
    }
  }

  lemma UnknownCannotConvert(s: State, f: FileId, b: Blob)
    requires Inv(s) && Tracked(s) && AtLegacy(s.db, f) && Target(f) in s.db.disk && s.db.disk[Target(f)] == b
    requires !SomeItemKnows(s.db, f, b) && !Publishing(s.command, f)
    ensures !CanConvert(s, f)
  {
    forall run | (run, f) in s.db.items ensures s.db.items[(run, f)].outputSha != Some(b) {
      assert (run, f).1 == f;
    }
    assert RecordOk(s.db, f);
    forall steps ensures !Converted(Run(s, steps), f) { UnknownObjectIsNeverAdopted(s, f, b, steps); }
  }

  /**
   In every reachable state, a record at its legacy key whose target key is taken by an object can
   still be converted if and only if an item of it has the digest of that object, or the command
   running has just published it and not yet staged the item.
   */
  lemma ConvertibleIffKnown(s: State, steps: seq<Step>, f: FileId)
    requires Init(s) && AtLegacy(Run(s, steps).db, f) && Target(f) in Run(s, steps).db.disk
    ensures var t := Run(s, steps);
      CanConvert(t, f) <==> SomeItemKnows(t.db, f, t.db.disk[Target(f)]) || Publishing(t.command, f)
  {
    var t := Run(s, steps);
    ReachableIsTracked(s, steps);
    if SomeItemKnows(t.db, f, t.db.disk[Target(f)]) {
      var k :| k in t.db.items && k.1 == f && t.db.items[k].outputSha == Some(t.db.disk[Target(f)]);
      KnownCanConvert(t, k);
    } else if Publishing(t.command, f) {
      if t.command.pc.WriteOut? { FromWriteOut(t, f); }
      else if t.command.pc.HashSource? { FromHashSource(t, f); }
      else { FromStage(t, f); }
    } else {
      UnknownCannotConvert(t, f, t.db.disk[Target(f)]);
    }
  }
}
