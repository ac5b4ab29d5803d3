/**
 What an item of the ledger becomes when no access of the command fails. The server may take any
 number of steps in between. Outcomes are stated over the item, the record and the objects alone.
 */
module ProductImagesOutcomes {
  import opened Wrappers
  import opened ProductImages
  import opened ProductImagesSafety
  import opened ProductImagesRecovery
  import opened ProductImagesTracking

  // Steps of the server and accesses of the command that succeed, up to the head of its loop.
  predicate UntilLoop(s: State, steps: seq<Step>)
    decreases |steps|
  {
    s.command.Applying? &&
    if steps == [] then s.command.pc.Loop?
    else
      && !s.command.pc.Loop?
      && (ByOthers(steps[0]) || (steps[0].ApplyOne? && !steps[0].env.fails))
      && UntilLoop(Next(s, steps[0]), steps[1..])
  }

  // The first of these steps was taken.
  ghost predicate Onwards(s: State, steps: seq<Step>) {
    && steps != [] && Inv(Next(s, steps[0])) && Tracked(Next(s, steps[0]))
    && UntilLoop(Next(s, steps[0]), steps[1..])
    && Run(s, steps) == Run(Next(s, steps[0]), steps[1..])
    && (ByOthers(steps[0]) ==>
          Next(s, steps[0]).command == s.command && OthersKeep(s.db, Next(s, steps[0]).db))
  }

  lemma FirstStep(s: State, steps: seq<Step>)
    requires Inv(s) && Tracked(s) && UntilLoop(s, steps) && !s.command.pc.Loop?
    ensures Onwards(s, steps)
  {
    NextInv(s, steps[0]);
    NextTracked(s, steps[0]);
    if ByOthers(steps[0]) { OthersStep(s, steps[0]); }
  }

  lemma AtTheLoop(s: State, steps: seq<Step>)
    requires UntilLoop(s, steps) && s.command.pc.Loop?
    ensures Run(s, steps) == s
  {
  }

  // ----- outcomes ----------------------------------------------------------------------------------

  // The item of f is now this one, and every other item is as it was.
  predicate ItemIs(a: Store, b: Store, run: RunId, f: FileId, it: Item) { b.items == a.items[(run, f) := it] }

  // While the record exists, its objects are as they were.
  predicate ObjectsAreKept(a: Store, b: Store, f: FileId) {
    f in b.files ==> SameObject(a, b, Legacy(f)) && SameObject(a, b, Target(f))
  }

  predicate RecordIsKept(a: Store, b: Store, f: FileId) {
    (f in b.files ==> f in a.files && b.files[f] == a.files[f]) && ObjectsAreKept(a, b, f)
  }

  predicate CommittedAs(a: Store, b: Store, run: RunId, f: FileId, it: Item) {
    (run, f) in b.items &&
    ItemIs(a, b, run, f, it.(status := Committed, cleanup := CleanupPending,
                             cleanupAfter := b.items[(run, f)].cleanupAfter))
  }

  // The commit was refused: recovery marks the item, conversion leaves it STAGED.
  predicate RefusedAs(a: Store, b: Store, run: RunId, f: FileId, it: Item, recovering: bool) {
    && (if recovering then ItemIs(a, b, run, f, it.(status := Failed)) else b.items == a.items)
    && RecordIsKept(a, b, f)
  }

  // The metadata of a JPEG of this size served from the target key.
  predicate DescribesTarget(m: Meta, f: FileId, it: Item) {
    m == Meta(Some(Target(f)), true, if it.outputSha.Some? then |it.outputSha.value| else 0)
  }

  predicate Moved(a: Store, b: Store, f: FileId, it: Item) {
    ObjectsAreKept(a, b, f) && (f in b.files ==>
      && f in a.files && b.files[f].key == Target(f) && DescribesTarget(b.files[f].meta, f, it)
      && b.files[f].pass == a.files[f].pass && b.files[f].kind == a.files[f].kind)
  }

  // ----- the status updates of recovery ------------------------------------------------------------

  lemma OthersKeepTheRecord(a: Store, b: Store, f: FileId)
    requires OthersKeep(a, b) && IsLegacy(a, f)
    ensures RecordIsKept(a, b, f) && IsLegacy(b, f)
  {
    assert RecordKept(a, b, f);
  }

  lemma {:induction false} FromSetFailed(s: State, steps: seq<Step>, f: FileId)
    requires Inv(s) && Tracked(s) && UntilLoop(s, steps) && s.command.pc == SetFailed(f)
    ensures (s.command.run, f) in s.db.items
    ensures var u := Run(s, steps);
      ItemIs(s.db, u.db, s.command.run, f, s.db.items[(s.command.run, f)].(status := Failed))
      && RecordIsKept(s.db, u.db, f)
    decreases |steps|
  {
    hide StoreOk;
    hide UploadsOk;
    hide ItemsTracked;
    FirstStep(s, steps);
    var t := Next(s, steps[0]);
    if ByOthers(steps[0]) {
      OthersKeepTheRecord(s.db, t.db, f);
      FromSetFailed(t, steps[1..], f);
    } else {
      AtTheLoop(t, steps[1..]);
    }
  }

  lemma {:induction false} FromSetPending(s: State, steps: seq<Step>, f: FileId)
    requires Inv(s) && Tracked(s) && UntilLoop(s, steps) && s.command.pc == SetPending(f)
    ensures (s.command.run, f) in s.db.items
    ensures var u := Run(s, steps);
      ItemIs(s.db, u.db, s.command.run, f, s.db.items[(s.command.run, f)].(status := Pending))
      && RecordIsKept(s.db, u.db, f)
    decreases |steps|
  {
    hide StoreOk;
    hide UploadsOk;
    hide ItemsTracked;
    FirstStep(s, steps);
    var t := Next(s, steps[0]);
    if ByOthers(steps[0]) {
      OthersKeepTheRecord(s.db, t.db, f);
      FromSetPending(t, steps[1..], f);
    } else {
      AtTheLoop(t, steps[1..]);
    }
  }

  predicate LegacyIfThere(db: Store, f: FileId) { f in db.files ==> AtLegacy(db, f) && db.files[f].pass }

  // ----- the commit --------------------------------------------------------------------------------

  // What becomes of a staged item: by where the record is now, if it still exists in the end.
  ghost predicate CommitOutcome(a: Store, b: Store, run: RunId, f: FileId, it: Item, recovering: bool, intact: bool) {
    && (AtLegacy(a, f) && f in b.files ==> CommittedAs(a, b, run, f, it) && Moved(a, b, f, it))
    && (!AtLegacy(a, f) && f in b.files ==>
          && RecordIsKept(a, b, f)
          && if intact && DescribesTarget(b.files[f].meta, f, it) then CommittedAs(a, b, run, f, it)
             else RefusedAs(a, b, run, f, it, recovering))
    && (f !in a.files ==> RefusedAs(a, b, run, f, it, recovering))
    && (CommittedAs(a, b, run, f, it) || RefusedAs(a, b, run, f, it, recovering))
  }

  lemma Refused(s: State, steps: seq<Step>, f: FileId, it: Item, r: bool)
    requires Inv(s) && Tracked(s) && UntilLoop(s, steps) && s.command.pc == AfterFailedCommit(f, r)
    requires Works(s.db, s.command.run, f) && s.db.items[(s.command.run, f)] == it
    ensures RefusedAs(s.db, Run(s, steps).db, s.command.run, f, it, r)
  {
    if r { FromSetFailed(s, steps, f); } else { AtTheLoop(s, steps); }
  }

  lemma {:induction false} FromConfirm(s: State, steps: seq<Step>, f: FileId, it: Item, r: bool)
    requires Inv(s) && Tracked(s) && UntilLoop(s, steps) && s.command.pc == Confirm(f, it, r)
    ensures CommittedAs(s.db, Run(s, steps).db, s.command.run, f, it) && RecordIsKept(s.db, Run(s, steps).db, f)
    decreases |steps|
  {
    hide StoreOk;
    hide UploadsOk;
    hide ItemsTracked;
    FirstStep(s, steps);
    var t := Next(s, steps[0]);
    if ByOthers(steps[0]) {
      OthersKeepTheRecord(s.db, t.db, f);
      FromConfirm(t, steps[1..], f, it, r);
    } else {
      AtTheLoop(t, steps[1..]);
    }
  }

  lemma OutcomeAfterOthers(a: Store, c: Store, b: Store, run: RunId, f: FileId, it: Item, r: bool, was: bool, is_: bool)
    requires c.items == a.items && RecordIsKept(a, c, f) && (f in c.files ==> was == is_)
    requires CommitOutcome(c, b, run, f, it, r, is_)
    ensures CommitOutcome(a, b, run, f, it, r, was)
  {
  }

  lemma {:induction false} FromSwitch(s: State, steps: seq<Step>, f: FileId, it: Item, r: bool, intact: bool)
    requires Inv(s) && Tracked(s) && UntilLoop(s, steps) && s.command.pc == Switch(f, it, r)
    requires LegacyIfThere(s.db, f)
    ensures CommitOutcome(s.db, Run(s, steps).db, s.command.run, f, it, r, intact)
    decreases |steps|
  {
    hide StoreOk;
    hide UploadsOk;
    hide ItemsTracked;
    FirstStep(s, steps);
    var t := Next(s, steps[0]);
    if ByOthers(steps[0]) {
      OthersKeepTheRecord(s.db, t.db, f);
      FromSwitch(t, steps[1..], f, it, r, intact);
      OutcomeAfterOthers(s.db, t.db, Run(s, steps).db, s.command.run, f, it, r, intact, intact);
    } else {
      SwitchNow(s, steps, f, it, r, intact);
    }
  }

  // The item the command has at hand is the one that is stored.
  lemma ItemAtHand(s: State, f: FileId, it: Item)
    requires Inv(s) && s.command.Applying?
    requires s.command.pc == SetStaged(f, it) || (s.command.pc.Switch? && s.command.pc.f == f && s.command.pc.it == it)
    ensures (s.command.run, f) in s.db.items && s.db.items[(s.command.run, f)] == it
    ensures it.source == Legacy(f) && it.target == Target(f)
    ensures Works(s.db, s.command.run, f)
  {
    assert ItemOk(s.db, f, s.db.items[(s.command.run, f)]);
  }

  lemma SwitchStep(s: State, g: FileId, e: Env, f: FileId, it: Item, r: bool)
    requires s.command.Applying? && s.command.pc == Switch(f, it, r) && !e.fails && (s.command.run, f) in s.db.items
    requires LegacyIfThere(s.db, f) && it.source == Legacy(f)
    ensures var t, run := Next(s, ApplyOne(g, e)), s.command.run;
      if f in s.db.files then
        && t == State(PutItem(MoveRecord(s.db, f, it), run, f, CommittedItem(s.db.items[(run, f)], e.now)),
                      s.uploads, s.deletes, s.command.(pc := Loop))
      else t == s.(command := s.command.(pc := AfterFailedCommit(f, r)))
  {
  }

  lemma SwitchNow(s: State, steps: seq<Step>, f: FileId, it: Item, r: bool, intact: bool)
    requires Inv(s) && Onwards(s, steps) && steps[0].ApplyOne? && !steps[0].env.fails
    requires s.command.Applying? && s.command.pc == Switch(f, it, r)
    requires LegacyIfThere(s.db, f)
    ensures CommitOutcome(s.db, Run(s, steps).db, s.command.run, f, it, r, intact)
  {
    hide Inv;
    hide Next;
    var t := Next(s, steps[0]);
    ItemAtHand(s, f, it);
    SwitchStep(s, steps[0].next, steps[0].env, f, it, r);
    if f in s.db.files {
      AtTheLoop(t, steps[1..]);
    } else {
      Refused(t, steps[1..], f, it, r);
    }
  }

  // Both objects of a record that is still at its legacy key match the staged item.
  lemma BothMatch(s: State, f: FileId, it: Item)
    requires Inv(s) && Tracked(s) && s.command.Applying? && Copy(s.db, s.command.run, f, it, Staged)
    ensures it.source == Legacy(f) && it.target == Target(f)
    ensures AtLegacy(s.db, f) ==>
      LegacyIfThere(s.db, f) && HashIs(s.db, it.source, it.sourceSha) && HashIs(s.db, it.target, it.outputSha)
  {
    assert ItemOk(s.db, f, it) by { assert s.db.items[(s.command.run, f)] == it; }
    assert ItemTracked(s.db, f, it) by { assert s.db.items[(s.command.run, f)] == it; }
    if AtLegacy(s.db, f) { assert Served(s.db, f); }
  }

  lemma {:induction false} FromCheckSource(s: State, steps: seq<Step>, f: FileId, it: Item, r: bool, intact: bool)
    requires Inv(s) && Tracked(s) && UntilLoop(s, steps) && s.command.pc == CheckSource(f, it, r)
    requires LegacyIfThere(s.db, f)
    ensures CommitOutcome(s.db, Run(s, steps).db, s.command.run, f, it, r, intact)
    decreases |steps|
  {
    hide StoreOk;
    hide UploadsOk;
    hide ItemsTracked;
    FirstStep(s, steps);
    var t := Next(s, steps[0]);
    if ByOthers(steps[0]) {
      OthersKeepTheRecord(s.db, t.db, f);
      FromCheckSource(t, steps[1..], f, it, r, intact);
      OutcomeAfterOthers(s.db, t.db, Run(s, steps).db, s.command.run, f, it, r, intact, intact);
    } else {
      BothMatch(s, f, it);
      assert t.db == s.db;
      if t.command.pc.Switch? { FromSwitch(t, steps[1..], f, it, r, intact); }
      else { Refused(t, steps[1..], f, it, r); }
    }
  }

  lemma {:induction false} FromReadRecord(s: State, steps: seq<Step>, f: FileId, it: Item, r: bool)
    requires Inv(s) && Tracked(s) && UntilLoop(s, steps) && s.command.pc == ReadRecord(f, it, r)
    ensures CommitOutcome(s.db, Run(s, steps).db, s.command.run, f, it, r, true)
    decreases |steps|
  {
    hide StoreOk;
    hide UploadsOk;
    hide ItemsTracked;
    FirstStep(s, steps);
    var t := Next(s, steps[0]);
    if ByOthers(steps[0]) {
      OthersKeepTheRecord(s.db, t.db, f);
      FromReadRecord(t, steps[1..], f, it, r);
      OutcomeAfterOthers(s.db, t.db, Run(s, steps).db, s.command.run, f, it, r, true, true);
    } else {
      ReadRecordNow(s, steps, f, it, r);
    }
  }

  lemma ReadRecordStep(s: State, g: FileId, e: Env, f: FileId, it: Item, r: bool)
    requires s.command.Applying? && s.command.pc == ReadRecord(f, it, r) && !e.fails
    requires it.source == Legacy(f) && it.target == Target(f)
    requires f in s.db.files ==> s.db.files[f].key == Legacy(f) || s.db.files[f].key == Target(f)
    ensures Next(s, ApplyOne(g, e)) == s.(command := s.command.(pc :=
              if f !in s.db.files then AfterFailedCommit(f, r)
              else if AtLegacy(s.db, f) then CheckSource(f, it, r)
              else if DescribesTarget(s.db.files[f].meta, f, it) then Confirm(f, it, r)
              else AfterFailedCommit(f, r)))
  {
  }

  lemma ReadRecordNow(s: State, steps: seq<Step>, f: FileId, it: Item, r: bool)
    requires Inv(s) && Tracked(s) && Onwards(s, steps) && steps[0].ApplyOne? && !steps[0].env.fails
    requires s.command.Applying? && s.command.pc == ReadRecord(f, it, r)
    ensures CommitOutcome(s.db, Run(s, steps).db, s.command.run, f, it, r, true)
  {
    var t := Next(s, steps[0]);
    BothMatch(s, f, it);
    if f in s.db.files { LegacyOrTarget(s, f); }
    ReadRecordStep(s, steps[0].next, steps[0].env, f, it, r);
    if AtLegacy(s.db, f) {
      FromCheckSource(t, steps[1..], f, it, r, true);
    } else if f in s.db.files && DescribesTarget(s.db.files[f].meta, f, it) {
      FromConfirm(t, steps[1..], f, it, r);
    } else {
      Refused(t, steps[1..], f, it, r);
    }
  }

  lemma LegacyOrTarget(s: State, f: FileId)
    requires Inv(s) && f in s.db.files && IsLegacy(s.db, f)
    ensures s.db.files[f].key == Legacy(f) || s.db.files[f].key == Target(f)
  {
    assert RecordOk(s.db, f);
  }

  lemma {:induction false} FromCheckTarget(s: State, steps: seq<Step>, f: FileId, it: Item, r: bool)
    requires Inv(s) && Tracked(s) && UntilLoop(s, steps) && s.command.pc == CheckTarget(f, it, r)
    ensures CommitOutcome(s.db, Run(s, steps).db, s.command.run, f, it, r, HashIs(s.db, Target(f), it.outputSha))
    decreases |steps|
  {
    hide StoreOk;
    hide UploadsOk;
    hide ItemsTracked;
    FirstStep(s, steps);
    var t := Next(s, steps[0]);
    if ByOthers(steps[0]) {
      OthersKeepTheRecord(s.db, t.db, f);
      FromCheckTarget(t, steps[1..], f, it, r);
      OutcomeAfterOthers(s.db, t.db, Run(s, steps).db, s.command.run, f, it, r,
                         HashIs(s.db, Target(f), it.outputSha), HashIs(t.db, Target(f), it.outputSha));
    } else {
      assert t.db == s.db;
      BothMatch(s, f, it);
      if t.command.pc.ReadRecord? { FromReadRecord(t, steps[1..], f, it, r); }
      else { Refused(t, steps[1..], f, it, r); }
    }
  }

  // ----- recovery ----------------------------------------------------------------------------------

  // At some moment on the way the item was stored as STAGED.
  ghost predicate PassesStaged(s: State, steps: seq<Step>, f: FileId, it: Item) {
    s.command.Applying? &&
    exists i | 0 < i < |steps| :: ItemIs(s.db, Run(s, steps[..i]).db, s.command.run, f, it.(status := Staged))
  }

  lemma PassedLater(s: State, steps: seq<Step>, f: FileId, it: Item)
    requires steps != [] && s.command.Applying? && PassesStaged(Next(s, steps[0]), steps[1..], f, it)
    requires Next(s, steps[0]).command.run == s.command.run && Next(s, steps[0]).db.items == s.db.items
    ensures PassesStaged(s, steps, f, it)
  {
    var t := Next(s, steps[0]);
    var i :| 0 < i < |steps[1..]| && ItemIs(t.db, Run(t, steps[1..][..i]).db, t.command.run, f, it.(status := Staged));
    assert steps[..i + 1][0] == steps[0] && steps[..i + 1][1..] == steps[1..][..i];
    assert Run(s, steps[..i + 1]) == Run(t, steps[1..][..i]);
  }

  lemma SetStagedStep(s: State, g: FileId, e: Env, f: FileId, it: Item)
    requires s.command.Applying? && s.command.pc == SetStaged(f, it) && !e.fails
    requires (s.command.run, f) in s.db.items && s.db.items[(s.command.run, f)] == it
    ensures var staged := it.(status := Staged);
      Next(s, ApplyOne(g, e)) == State(PutItem(s.db, s.command.run, f, staged), s.uploads, s.deletes,
                                       s.command.(pc := CheckTarget(f, staged, true)))
  {
  }

  // The outcome does not depend on the status the item had before it was staged.
  lemma OutcomeFromStaged(a: Store, c: Store, b: Store, run: RunId, f: FileId, it: Item, was: bool, is_: bool)
    requires ItemIs(a, c, run, f, it.(status := Staged)) && RecordIsKept(a, c, f) && (f in c.files ==> was == is_)
    requires CommitOutcome(c, b, run, f, it.(status := Staged), true, is_)
    ensures CommitOutcome(a, b, run, f, it, true, was)
  {
    var staged := it.(status := Staged);
    assert ItemIs(c, b, run, f, it.(status := Failed)) ==> ItemIs(a, b, run, f, it.(status := Failed));
    if CommittedAs(c, b, run, f, staged) { assert CommittedAs(a, b, run, f, it); }
  }

  // A refused commit, and then the failure mark.
  lemma OutcomeMarked(a: Store, c: Store, b: Store, run: RunId, f: FileId, it: Item, intact: bool)
    requires (run, f) in a.items && a.items[(run, f)] == it && it.status == Staged && c.items == a.items
    requires CommitOutcome(a, c, run, f, it, false, intact)
    requires ItemIs(c, b, run, f, it.(status := Failed)) && RecordIsKept(c, b, f)
    ensures CommitOutcome(a, b, run, f, it, true, intact)
  {
    assert !CommittedAs(a, c, run, f, it);
  }

  lemma {:induction false} FromSetStaged(s: State, steps: seq<Step>, f: FileId, it: Item)
    requires Inv(s) && Tracked(s) && UntilLoop(s, steps) && s.command.pc == SetStaged(f, it)
    ensures CommitOutcome(s.db, Run(s, steps).db, s.command.run, f, it, true, HashIs(s.db, Target(f), it.outputSha))
    ensures PassesStaged(s, steps, f, it)
    decreases |steps|
  {
    hide StoreOk;
    hide UploadsOk;
    hide ItemsTracked;
    FirstStep(s, steps);
    var t := Next(s, steps[0]);
    if ByOthers(steps[0]) {
      OthersKeepTheRecord(s.db, t.db, f);
      FromSetStaged(t, steps[1..], f, it);
      OutcomeAfterOthers(s.db, t.db, Run(s, steps).db, s.command.run, f, it, true,
                         HashIs(s.db, Target(f), it.outputSha), HashIs(t.db, Target(f), it.outputSha));
      PassedLater(s, steps, f, it);
    } else {
      SetStagedNow(s, steps, f, it);
    }
  }

  lemma SetStagedNow(s: State, steps: seq<Step>, f: FileId, it: Item)
    requires Inv(s) && Tracked(s) && Onwards(s, steps) && steps[0].ApplyOne? && !steps[0].env.fails
    requires s.command.Applying? && s.command.pc == SetStaged(f, it)
    ensures CommitOutcome(s.db, Run(s, steps).db, s.command.run, f, it, true, HashIs(s.db, Target(f), it.outputSha))
    ensures PassesStaged(s, steps, f, it)
  {
    hide Inv;
    hide Tracked;
    hide Next;
    var t := Next(s, steps[0]);
    ItemAtHand(s, f, it);
    SetStagedStep(s, steps[0].next, steps[0].env, f, it);
    FromCheckTarget(t, steps[1..], f, it.(status := Staged), true);
    var intact := HashIs(s.db, Target(f), it.outputSha);
    OutcomeFromStaged(s.db, t.db, Run(s, steps).db, s.command.run, f, it, intact, intact);
    assert steps[..1][1..] == [] && Run(s, steps[..1]) == t;
    assert 1 < |steps|;
  }

  // What recovery finds at the target key of a PROCESSING item decides what the item becomes.
  ghost predicate Decided(a: Store, b: Store, run: RunId, f: FileId, it: Item) {
    && (it.status == Processing && Target(f) !in a.disk ==>
          ItemIs(a, b, run, f, it.(status := Pending)) && RecordIsKept(a, b, f))
    && (it.status == Processing && Target(f) in a.disk && it.outputSha.None? ==>
          ItemIs(a, b, run, f, it.(status := Failed)) && RecordIsKept(a, b, f))
    && (it.status == Processing && Target(f) in a.disk && it.outputSha.Some?
        && a.disk[Target(f)] != it.outputSha.value ==>
          ItemIs(a, b, run, f, it.(status := Pending)) && RecordIsKept(a, b, f))
    && (it.status == Processing && Target(f) in a.disk && it.outputSha == Some(a.disk[Target(f)]) ==>
          CommitOutcome(a, b, run, f, it, true, true))
    && (it.status == Staged ==> CommitOutcome(a, b, run, f, it, true, HashIs(a, Target(f), it.outputSha)))
  }

  ghost predicate RecoveryOutcome(s: State, steps: seq<Step>, f: FileId, it: Item)
    requires s.command.Applying?
  {
    && Decided(s.db, Run(s, steps).db, s.command.run, f, it)
    && (it.status == Processing && Target(f) in s.db.disk && it.outputSha == Some(s.db.disk[Target(f)]) ==>
          PassesStaged(s, steps, f, it))
  }

  lemma InspectStep(s: State, g: FileId, e: Env, f: FileId, it: Item)
    requires s.command.Applying? && s.command.pc == Inspect(f, it) && !e.fails && it.target == Target(f)
    ensures Next(s, ApplyOne(g, e)) == s.(command := s.command.(pc :=
              if it.status == Staged then CheckTarget(f, it, true)
              else if Target(f) !in s.db.disk then SetPending(f)
              else if it.outputSha.None? then SetFailed(f)
              else if s.db.disk[Target(f)] == it.outputSha.value then SetStaged(f, it)
              else SetPending(f)))
  {
  }

  lemma FromInspect(s: State, steps: seq<Step>, f: FileId, it: Item)
    requires Inv(s) && Tracked(s) && UntilLoop(s, steps) && s.command.pc == Inspect(f, it)
    requires steps != [] && steps[0].ApplyOne?
    ensures (s.command.run, f) in s.db.items && s.db.items[(s.command.run, f)] == it && InFlight(it)
    ensures RecoveryOutcome(s, steps, f, it)
  {
    FirstStep(s, steps);
    var t := Next(s, steps[0]);
    assert it.target == Target(f) by { assert ItemOk(s.db, f, s.db.items[(s.command.run, f)]); }
    InspectStep(s, steps[0].next, steps[0].env, f, it);
    if it.status == Staged {
      FromCheckTarget(t, steps[1..], f, it, true);
    } else if t.command.pc.SetStaged? {
      FromSetStaged(t, steps[1..], f, it);
      PassedLater(s, steps, f, it);
    } else if t.command.pc.SetFailed? {
      FromSetFailed(t, steps[1..], f);
    } else {
      FromSetPending(t, steps[1..], f);
    }
  }

  /**
   What recovery makes of an item a crash left in flight, in every reachable state, if no access fails.
   A PROCESSING item without an object at its target key, or with another one than it recorded, is PENDING
   again; one whose target object has the recorded digest goes through STAGED and is committed unless its
   record is gone or was moved elsewhere. It is FAILED only if there is an object and no digest, or if the
   commit is refused.
   */
  lemma RecoveryDecides(s: State, before: seq<Step>, steps: seq<Step>)
    requires Init(s) && steps != [] && steps[0].ApplyOne?
    requires var t := Run(s, before); UntilLoop(t, steps) && t.command.pc.Inspect?
    ensures var t := Run(s, before);
      var k := (t.command.run, t.command.pc.f);
      && k in t.db.items && t.db.items[k] == t.command.pc.it && t.db.items[k].status in {Processing, Staged}
      && RecoveryOutcome(t, steps, t.command.pc.f, t.command.pc.it)
  {
    ReachableIsTracked(s, before);
    var t := Run(s, before);
    FromInspect(t, steps, t.command.pc.f, t.command.pc.it);
  }

  /** Recovery inspects every item of its run that is PROCESSING or STAGED, one after the other, and no other. */
  lemma RecoveryInspectsWhatIsInFlight(s: State, run: RunId)
    requires s.command.Down?
    ensures var c := Next(s, BeginApply(run)).command;
      && c.Applying? && c.run == run && c.todo.None? && !c.lost && c.pc.Loop?
      && (forall f :: f in c.recover <==> (run, f) in s.db.items && s.db.items[(run, f)].status in {Processing, Staged})
  {
    var c := Next(s, BeginApply(run)).command;
    forall f: FileId
      ensures f in c.recover <==> (run, f) in s.db.items && s.db.items[(run, f)].status in {Processing, Staged}
    {
      assert (run, f).1 == f;
    }
  }

  lemma RecoveryTakesOne(s: State, f: FileId, e: Env)
    requires s.command.Applying? && s.command.pc.Loop? && s.command.todo.None?
    requires f in s.command.recover && (s.command.run, f) in s.db.items
    ensures Next(s, ApplyOne(f, e)) == s.(command := s.command.(recover := s.command.recover - {f},
                                            pc := Inspect(f, s.db.items[(s.command.run, f)])))
  {
  }

  // ----- conversion --------------------------------------------------------------------------------

  // Whenever the content is processed, the result is `out`; nothing is a failure.
  predicate Renders(s: State, steps: seq<Step>, out: Blob)
    decreases |steps|
  {
    steps != [] ==>
      && (s.command.Applying? && s.command.pc.Process? && steps[0].ApplyOne? ==> steps[0].env.bytes == out)
      && Renders(Next(s, steps[0]), steps[1..], out)
  }

  // The image was converted: item, record and object.
  predicate ConvertedTo(a: Store, b: Store, run: RunId, f: FileId, content: Blob, out: Blob) {
    && (run, f) in b.items && f in a.files && f in b.files && Target(f) in b.disk
    && var it := b.items[(run, f)];
    && ItemIs(a, b, run, f, it)
    && it.status == Committed && it.cleanup == CleanupPending
    && it.source == Legacy(f) && it.target == Target(f) && it.sourceSha == Some(content) && it.outputSha == Some(out)
    && b.files[f].key == Target(f) && b.files[f].meta == Meta(Some(Target(f)), true, |out|)
    && b.files[f].pass == a.files[f].pass && b.files[f].kind == a.files[f].kind
    && b.disk[Target(f)] == out && SameObject(a, b, Legacy(f))
  }

  lemma StillThere(s: State, steps: seq<Step>, f: FileId)
    requires Inv(s) && f in s.db.issued && f in Run(s, steps).db.files
    ensures f in s.db.files
  {
    if f !in s.db.files { GoneStaysGone(s, f, steps); }
  }

  // A record at its legacy key that is there in the end is at that key in the state the others leave.
  lemma StillAtLegacy(s: State, steps: seq<Step>, f: FileId)
    requires Inv(s) && Onwards(s, steps) && AtLegacy(s.db, f) && f in Run(s, steps).db.files && ByOthers(steps[0])
    ensures AtLegacy(Next(s, steps[0]).db, f) && RecordIsKept(s.db, Next(s, steps[0]).db, f)
    ensures Next(s, steps[0]).command == s.command && Next(s, steps[0]).db.items == s.db.items
  {
    var t := Next(s, steps[0]);
    assert RecordOk(s.db, f);
    OthersKeepTheRecord(s.db, t.db, f);
    StillThere(t, steps[1..], f);
  }

  lemma {:induction false} FromReload(s: State, steps: seq<Step>, f: FileId, content: Blob, out: Blob)
    requires Inv(s) && Tracked(s) && UntilLoop(s, steps) && s.command.pc == Reload(f)
    requires (s.command.run, f) in s.db.items
    requires s.db.items[(s.command.run, f)].sourceSha == Some(content)
    requires s.db.items[(s.command.run, f)].outputSha == Some(out)
    requires AtLegacy(s.db, f) && f in Run(s, steps).db.files
    ensures ConvertedTo(s.db, Run(s, steps).db, s.command.run, f, content, out)
    decreases |steps|
  {
    hide Inv;
    hide Tracked;
    hide Next;
    FirstStep(s, steps);
    var t := Next(s, steps[0]);
    if ByOthers(steps[0]) {
      StillAtLegacy(s, steps, f);
      FromReload(t, steps[1..], f, content, out);
    } else {
      ReloadNow(s, steps, f, content, out);
    }
  }

  lemma ReloadStep(s: State, g: FileId, e: Env, f: FileId)
    requires s.command.Applying? && s.command.pc == Reload(f) && !e.fails && (s.command.run, f) in s.db.items
    ensures Next(s, ApplyOne(g, e))
         == s.(command := s.command.(pc := CheckTarget(f, s.db.items[(s.command.run, f)], false)))
  {
  }

  lemma ReloadNow(s: State, steps: seq<Step>, f: FileId, content: Blob, out: Blob)
    requires Inv(s) && Tracked(s) && Onwards(s, steps) && steps[0].ApplyOne? && !steps[0].env.fails
    requires s.command.Applying? && s.command.pc == Reload(f) && (s.command.run, f) in s.db.items
    requires s.db.items[(s.command.run, f)].sourceSha == Some(content)
    requires s.db.items[(s.command.run, f)].outputSha == Some(out)
    requires AtLegacy(s.db, f) && f in Run(s, steps).db.files
    ensures ConvertedTo(s.db, Run(s, steps).db, s.command.run, f, content, out)
  {
    var it := s.db.items[(s.command.run, f)];
    ReloadStep(s, steps[0].next, steps[0].env, f);
    FromCheckTarget(Next(s, steps[0]), steps[1..], f, it, false);
    assert ItemOk(s.db, f, it) && ItemTracked(s.db, f, it);
  }

  lemma ItemOfWork(s: State, f: FileId)
    requires Inv(s) && s.command.Applying?
    requires var pc := s.command.pc; (pc.Publish? || pc.WriteOut? || pc.Stage?) && pc.f == f
    ensures (s.command.run, f) in s.db.items
    ensures ItemIs(s.db, s.db, s.command.run, f, s.db.items[(s.command.run, f)])
  {
  }

  lemma {:induction false} FromStage(s: State, steps: seq<Step>, f: FileId, out: Blob, content: Blob)
    requires Inv(s) && Tracked(s) && UntilLoop(s, steps) && s.command.pc == Stage(f, out, content)
    requires AtLegacy(s.db, f) && f in Run(s, steps).db.files
    ensures ConvertedTo(s.db, Run(s, steps).db, s.command.run, f, content, out)
    decreases |steps|
  {
    hide Inv;
    hide Tracked;
    hide Next;
    FirstStep(s, steps);
    var t := Next(s, steps[0]);
    if ByOthers(steps[0]) {
      StillAtLegacy(s, steps, f);
      FromStage(t, steps[1..], f, out, content);
    } else {
      ItemOfWork(s, f);
      StageStep(s, steps[0].next, steps[0].env, f, out, content);
      FromReload(t, steps[1..], f, content, out);
      ConvertedLater(s.db, t.db, Run(s, steps).db, s.command.run, f, content, out);
    }
  }

  lemma StageStep(s: State, g: FileId, e: Env, f: FileId, out: Blob, content: Blob)
    requires s.command.Applying? && s.command.pc == Stage(f, out, content) && !e.fails
    requires (s.command.run, f) in s.db.items
    ensures var t, k := Next(s, ApplyOne(g, e)), (s.command.run, f);
      && t == s.(db := s.db.(items := t.db.items), command := s.command.(pc := Reload(f)))
      && k in t.db.items && ItemIs(s.db, t.db, k.0, f, t.db.items[k])
      && t.db.items[k].sourceSha == Some(content) && t.db.items[k].outputSha == Some(out)
  {
  }

  // Only the item of f was written before.
  lemma ConvertedLater(a: Store, c: Store, b: Store, run: RunId, f: FileId, content: Blob, out: Blob)
    requires (run, f) in c.items && ItemIs(a, c, run, f, c.items[(run, f)]) && a.files == c.files
    requires SameObject(a, c, Legacy(f))
    requires ConvertedTo(c, b, run, f, content, out)
    ensures ConvertedTo(a, b, run, f, content, out)
  {
  }

  lemma {:induction false} FromHashSource(s: State, steps: seq<Step>, f: FileId, out: Blob)
    requires Inv(s) && Tracked(s) && UntilLoop(s, steps) && s.command.pc == HashSource(f, out)
    requires AtLegacy(s.db, f) && f in Run(s, steps).db.files && Legacy(f) in s.db.disk
    ensures ConvertedTo(s.db, Run(s, steps).db, s.command.run, f, s.db.disk[Legacy(f)], out)
    decreases |steps|
  {
    hide Inv;
    hide Tracked;
    hide Next;
    FirstStep(s, steps);
    var t := Next(s, steps[0]);
    if ByOthers(steps[0]) {
      StillAtLegacy(s, steps, f);
      FromHashSource(t, steps[1..], f, out);
    } else {
      HashSourceStep(s, steps[0].next, steps[0].env, f, out);
      FromStage(t, steps[1..], f, out, s.db.disk[Legacy(f)]);
    }
  }

  lemma HashSourceStep(s: State, g: FileId, e: Env, f: FileId, out: Blob)
    requires s.command.Applying? && s.command.pc == HashSource(f, out) && !e.fails && Legacy(f) in s.db.disk
    ensures Next(s, ApplyOne(g, e)) == s.(command := s.command.(pc := Stage(f, out, s.db.disk[Legacy(f)])))
  {
  }

  lemma {:induction false} FromWriteOut(s: State, steps: seq<Step>, f: FileId, out: Blob)
    requires Inv(s) && Tracked(s) && UntilLoop(s, steps) && s.command.pc == WriteOut(f, out)
    requires AtLegacy(s.db, f) && f in Run(s, steps).db.files && Legacy(f) in s.db.disk
    ensures ConvertedTo(s.db, Run(s, steps).db, s.command.run, f, s.db.disk[Legacy(f)], out)
    decreases |steps|
  {
    hide Inv;
    hide Tracked;
    hide Next;
    FirstStep(s, steps);
    var t := Next(s, steps[0]);
    if ByOthers(steps[0]) {
      StillAtLegacy(s, steps, f);
      FromWriteOut(t, steps[1..], f, out);
    } else {
      WriteOutStep(s, steps[0].next, steps[0].env, f, out);
      FromHashSource(t, steps[1..], f, out);
      ItemOfWork(s, f);
      ConvertedLater(s.db, t.db, Run(s, steps).db, s.command.run, f, s.db.disk[Legacy(f)], out);
    }
  }

  lemma WriteOutStep(s: State, g: FileId, e: Env, f: FileId, out: Blob)
    requires s.command.Applying? && s.command.pc == WriteOut(f, out) && !e.fails
    ensures var t := Next(s, ApplyOne(g, e));
      && t == s.(db := s.db.(disk := t.db.disk), command := s.command.(pc := HashSource(f, out)))
      && SameObject(s.db, t.db, Legacy(f))
  {
  }

  lemma {:induction false} FromPublish(s: State, steps: seq<Step>, f: FileId, out: Blob)
    requires Inv(s) && Tracked(s) && UntilLoop(s, steps) && s.command.pc == Publish(f, out)
    requires AtLegacy(s.db, f) && f in Run(s, steps).db.files && Legacy(f) in s.db.disk
    ensures (s.command.run, f) in s.db.items
    ensures var a, b, k := s.db, Run(s, steps).db, (s.command.run, f);
      if Target(f) !in a.disk then ConvertedTo(a, b, k.0, f, a.disk[Legacy(f)], out)
      else ItemIs(a, b, k.0, f, a.items[k].(status := Failed)) && RecordIsKept(a, b, f)
    decreases |steps|
  {
    hide Inv;
    hide Tracked;
    hide Next;
    ItemOfWork(s, f);
    FirstStep(s, steps);
    var t := Next(s, steps[0]);
    if ByOthers(steps[0]) {
      StillAtLegacy(s, steps, f);
      FromPublish(t, steps[1..], f, out);
    } else {
      if Target(f) in s.db.disk { PublishTaken(s, steps, f, out); } else { PublishFree(s, steps, f, out); }
    }
  }

  lemma PublishedStep(s: State, g: FileId, e: Env, f: FileId, out: Blob)
    requires s.command.Applying? && s.command.pc == Publish(f, out) && !e.fails
    ensures var t := Next(s, ApplyOne(g, e));
      if Target(f) in s.db.disk then t == s.(command := s.command.(pc := SetFailed(f)))
      else
        && t == s.(db := s.db.(disk := t.db.disk),
                   command := s.command.(pc := if e.flag then HashSource(f, out) else WriteOut(f, out)))
        && SameObject(s.db, t.db, Legacy(f))
  {
  }

  lemma PublishTaken(s: State, steps: seq<Step>, f: FileId, out: Blob)
    requires Inv(s) && Onwards(s, steps) && steps[0].ApplyOne? && !steps[0].env.fails
    requires s.command.Applying? && s.command.pc == Publish(f, out) && Target(f) in s.db.disk
    ensures (s.command.run, f) in s.db.items
    ensures ItemIs(s.db, Run(s, steps).db, s.command.run, f, s.db.items[(s.command.run, f)].(status := Failed))
    ensures RecordIsKept(s.db, Run(s, steps).db, f)
  {
    PublishedStep(s, steps[0].next, steps[0].env, f, out);
    FromSetFailed(Next(s, steps[0]), steps[1..], f);
  }

  lemma PublishFree(s: State, steps: seq<Step>, f: FileId, out: Blob)
    requires Inv(s) && Onwards(s, steps) && steps[0].ApplyOne? && !steps[0].env.fails
    requires s.command.Applying? && s.command.pc == Publish(f, out) && Target(f) !in s.db.disk
    requires AtLegacy(s.db, f) && f in Run(s, steps).db.files && Legacy(f) in s.db.disk
    ensures ConvertedTo(s.db, Run(s, steps).db, s.command.run, f, s.db.disk[Legacy(f)], out)
  {
    var t := Next(s, steps[0]);
    PublishedStep(s, steps[0].next, steps[0].env, f, out);
    ItemOfWork(s, f);
    if t.command.pc.HashSource? { FromHashSource(t, steps[1..], f, out); } else { FromWriteOut(t, steps[1..], f, out); }
    ConvertedLater(s.db, t.db, Run(s, steps).db, s.command.run, f, s.db.disk[Legacy(f)], out);
  }

  // The image is converted if something came out of processing and the target key was free; otherwise
  // the item is FAILED and the record where it was.
  predicate ConversionOutcome(a: Store, b: Store, run: RunId, f: FileId, it: Item, out: Blob) {
    Legacy(f) in a.disk &&
    if out != "" && Target(f) !in a.disk then ConvertedTo(a, b, run, f, a.disk[Legacy(f)], out)
    else ItemIs(a, b, run, f, it.(status := Failed, cleanup := NotScheduled)) && RecordIsKept(a, b, f)
  }

  lemma {:induction false} FromProcess(s: State, steps: seq<Step>, f: FileId, c: Blob, out: Blob)
    requires Inv(s) && Tracked(s) && UntilLoop(s, steps) && Renders(s, steps, out) && s.command.pc == Process(f, c)
    requires AtLegacy(s.db, f) && f in Run(s, steps).db.files && Legacy(f) in s.db.disk
    requires (s.command.run, f) in s.db.items && s.db.items[(s.command.run, f)].cleanup == NotScheduled
    ensures ConversionOutcome(s.db, Run(s, steps).db, s.command.run, f, s.db.items[(s.command.run, f)], out)
    decreases |steps|
  {
    hide Inv;
    hide Tracked;
    hide Next;
    FirstStep(s, steps);
    var t := Next(s, steps[0]);
    if ByOthers(steps[0]) {
      StillAtLegacy(s, steps, f);
      FromProcess(t, steps[1..], f, c, out);
    } else {
      ProcessNow(s, steps, f, c, out);
    }
  }

  lemma ProcessStep(s: State, g: FileId, e: Env, f: FileId, c: Blob)
    requires s.command.Applying? && s.command.pc == Process(f, c) && !e.fails
    ensures var t := Next(s, ApplyOne(g, e));
      t == s.(db := s.db.(outputs := t.db.outputs),
              command := s.command.(pc := if e.bytes == "" then SetFailed(f) else Publish(f, e.bytes)))
  {
  }

  lemma ProcessNow(s: State, steps: seq<Step>, f: FileId, c: Blob, out: Blob)
    requires Inv(s) && Onwards(s, steps) && steps[0].ApplyOne? && !steps[0].env.fails && steps[0].env.bytes == out
    requires s.command.Applying? && s.command.pc == Process(f, c)
    requires AtLegacy(s.db, f) && f in Run(s, steps).db.files && Legacy(f) in s.db.disk
    requires (s.command.run, f) in s.db.items && s.db.items[(s.command.run, f)].cleanup == NotScheduled
    ensures ConversionOutcome(s.db, Run(s, steps).db, s.command.run, f, s.db.items[(s.command.run, f)], out)
  {
    var t := Next(s, steps[0]);
    ProcessStep(s, steps[0].next, steps[0].env, f, c);
    if out == "" { FromSetFailed(t, steps[1..], f); } else { FromPublish(t, steps[1..], f, out); }
  }

  lemma {:induction false} FromMarkProcessing(s: State, steps: seq<Step>, f: FileId, c: Blob, out: Blob)
    requires Inv(s) && Tracked(s) && UntilLoop(s, steps) && Renders(s, steps, out)
    requires s.command.pc == MarkProcessing(f, c) && (s.command.run, f) in s.db.items
    requires AtLegacy(s.db, f) && f in Run(s, steps).db.files && Legacy(f) in s.db.disk
    ensures ConversionOutcome(s.db, Run(s, steps).db, s.command.run, f, s.db.items[(s.command.run, f)], out)
    decreases |steps|
  {
    hide Inv;
    hide Tracked;
    hide Next;
    FirstStep(s, steps);
    var t := Next(s, steps[0]);
    if ByOthers(steps[0]) {
      StillAtLegacy(s, steps, f);
      FromMarkProcessing(t, steps[1..], f, c, out);
    } else {
      MarkNow(s, steps, f, c, out);
    }
  }

  lemma MarkStep(s: State, g: FileId, e: Env, f: FileId, c: Blob)
    requires s.command.Applying? && s.command.pc == MarkProcessing(f, c) && !e.fails
    requires (s.command.run, f) in s.db.items
    requires ItemOk(s.db, f, s.db.items[(s.command.run, f)])
    ensures Next(s, ApplyOne(g, e)) ==
      State(PutItem(s.db, s.command.run, f,
                    s.db.items[(s.command.run, f)].(status := Processing, cleanup := NotScheduled)),
            s.uploads, s.deletes, s.command.(pc := Process(f, c)))
  {
  }

  lemma MarkNow(s: State, steps: seq<Step>, f: FileId, c: Blob, out: Blob)
    requires Inv(s) && Onwards(s, steps) && Renders(Next(s, steps[0]), steps[1..], out)
    requires steps[0].ApplyOne? && !steps[0].env.fails
    requires s.command.Applying? && s.command.pc == MarkProcessing(f, c) && (s.command.run, f) in s.db.items
    requires AtLegacy(s.db, f) && f in Run(s, steps).db.files && Legacy(f) in s.db.disk
    ensures ConversionOutcome(s.db, Run(s, steps).db, s.command.run, f, s.db.items[(s.command.run, f)], out)
  {
    var t, it := Next(s, steps[0]), s.db.items[(s.command.run, f)];
    MarkStep(s, steps[0].next, steps[0].env, f, c);
    FromProcess(t, steps[1..], f, c, out);
    OutcomeLater(s.db, t.db, Run(s, steps).db, s.command.run, f, it,
                 it.(status := Processing, cleanup := NotScheduled), out);
  }

  // The item was written before, by which only its status and its cleanup status may have changed.
  lemma OutcomeLater(a: Store, c: Store, b: Store, run: RunId, f: FileId, it: Item, was: Item, out: Blob)
    requires c == PutItem(a, run, f, was)
    requires it.(status := Failed, cleanup := NotScheduled) == was.(status := Failed, cleanup := NotScheduled)
    requires ConversionOutcome(c, b, run, f, was, out)
    ensures ConversionOutcome(a, b, run, f, it, out)
  {
    if out != "" && Target(f) !in a.disk { ConvertedLater(a, c, b, run, f, a.disk[Legacy(f)], out); }
  }

  // The item of the run, or the one that is about to be created.
  function ItemOrNew(db: Store, run: RunId, f: FileId): Item {
    if (run, f) in db.items then db.items[(run, f)]
    else Item(Legacy(f), Target(f), None, None, Pending, NotScheduled, 0)
  }

  lemma {:induction false} FromCreateItem(s: State, steps: seq<Step>, f: FileId, c: Blob, out: Blob)
    requires Inv(s) && Tracked(s) && UntilLoop(s, steps) && Renders(s, steps, out) && s.command.pc == CreateItem(f, c)
    requires AtLegacy(s.db, f) && f in Run(s, steps).db.files && Legacy(f) in s.db.disk
    ensures ConversionOutcome(s.db, Run(s, steps).db, s.command.run, f, ItemOrNew(s.db, s.command.run, f), out)
    decreases |steps|
  {
    hide Inv;
    hide Tracked;
    hide Next;
    FirstStep(s, steps);
    var t := Next(s, steps[0]);
    if ByOthers(steps[0]) {
      StillAtLegacy(s, steps, f);
      FromCreateItem(t, steps[1..], f, c, out);
    } else {
      CreateNow(s, steps, f, c, out);
    }
  }

  lemma CreateStep(s: State, g: FileId, e: Env, f: FileId, c: Blob)
    requires s.command.Applying? && s.command.pc == CreateItem(f, c) && !e.fails
    ensures Next(s, ApplyOne(g, e)).db == PutItem(s.db, s.command.run, f, ItemOrNew(s.db, s.command.run, f))
    ensures Next(s, ApplyOne(g, e)).command == s.command.(pc := MarkProcessing(f, c))
  {
    var k := (s.command.run, f);
    if k in s.db.items { assert s.db.items[k := s.db.items[k]] == s.db.items; }
  }

  lemma CreateNow(s: State, steps: seq<Step>, f: FileId, c: Blob, out: Blob)
    requires Inv(s) && Onwards(s, steps) && Renders(Next(s, steps[0]), steps[1..], out)
    requires steps[0].ApplyOne? && !steps[0].env.fails
    requires s.command.Applying? && s.command.pc == CreateItem(f, c)
    requires AtLegacy(s.db, f) && f in Run(s, steps).db.files && Legacy(f) in s.db.disk
    ensures ConversionOutcome(s.db, Run(s, steps).db, s.command.run, f, ItemOrNew(s.db, s.command.run, f), out)
  {
    var t, it := Next(s, steps[0]), ItemOrNew(s.db, s.command.run, f);
    CreateStep(s, steps[0].next, steps[0].env, f, c);
    FromMarkProcessing(t, steps[1..], f, c, out);
    OutcomeLater(s.db, t.db, Run(s, steps).db, s.command.run, f, it, it, out);
  }

  // A candidate: nothing happens to an empty image.
  predicate CandidateOutcome(a: Store, b: Store, run: RunId, f: FileId, out: Blob) {
    Legacy(f) in a.disk &&
    if a.disk[Legacy(f)] == "" then b.items == a.items && RecordIsKept(a, b, f)
    else ConversionOutcome(a, b, run, f, ItemOrNew(a, run, f), out)
  }

  lemma {:induction false} FromReadSource(s: State, steps: seq<Step>, f: FileId, out: Blob)
    requires Inv(s) && Tracked(s) && UntilLoop(s, steps) && Renders(s, steps, out) && s.command.pc == ReadSource(f)
    requires AtLegacy(s.db, f) && f in Run(s, steps).db.files && Legacy(f) in s.db.disk
    ensures CandidateOutcome(s.db, Run(s, steps).db, s.command.run, f, out)
    decreases |steps|
  {
    hide Inv;
    hide Tracked;
    hide Next;
    FirstStep(s, steps);
    var t := Next(s, steps[0]);
    if ByOthers(steps[0]) {
      StillAtLegacy(s, steps, f);
      FromReadSource(t, steps[1..], f, out);
    } else {
      ReadSourceStep(s, steps[0].next, steps[0].env, f);
      if s.db.disk[Legacy(f)] == "" { AtTheLoop(t, steps[1..]); }
      else { FromCreateItem(t, steps[1..], f, s.db.disk[Legacy(f)], out); }
    }
  }

  lemma ReadSourceStep(s: State, g: FileId, e: Env, f: FileId)
    requires s.command.Applying? && s.command.pc == ReadSource(f) && !e.fails && Legacy(f) in s.db.disk
    ensures Next(s, ApplyOne(g, e)) == s.(command := s.command.(pc :=
      if s.db.disk[Legacy(f)] == "" then Loop else CreateItem(f, s.db.disk[Legacy(f)])))
  {
  }

  /**
   What conversion makes of a candidate, in every reachable state, if no access fails and the record is
   not deleted meanwhile. If processing gives a result and the target key is free, the item is COMMITTED
   with the digests of source and output, the record is at the target key as a JPEG of the output's size,
   and the object there is the output. If not, the item is FAILED and the record where it was.
   */
  lemma CandidatesAreConverted(s: State, before: seq<Step>, steps: seq<Step>, f: FileId, out: Blob)
    requires Init(s)
    requires var t := Run(s, before);
      UntilLoop(t, steps) && Renders(t, steps, out) && t.command.pc == ReadSource(f) && AtLegacy(t.db, f)
    requires f in Run(Run(s, before), steps).db.files
    ensures var t := Run(s, before);
      t.db.files[f].pass && CandidateOutcome(t.db, Run(t, steps).db, t.command.run, f, out)
  {
    ReachableIsTracked(s, before);
    var t := Run(s, before);
    assert Served(t.db, f);
    assert PcTracked(t.db, t.command.run, t.command.pc);
    FromReadSource(t, steps, f, out);
  }

  // ----- which images are candidates, and what happens to each ---------------------------------------

  /** The candidates are the accepted product images still at a legacy key, among the ids asked for. */
  lemma CandidatesAreLegacyImages(s: State, g: FileId, e: Env)
    requires s.command.Applying? && s.command.pc.Loop? && s.command.todo.None? && s.command.recover == {}
    ensures var t := Next(s, ApplyOne(g, e));
      && t == s.(command := s.command.(todo := t.command.todo)) && t.command.todo.Some?
      && (forall f :: f in t.command.todo.value <==>
            f in e.ids && f in s.db.files && s.db.files[f].kind == ProductImage && s.db.files[f].pass
            && s.db.files[f].key.Legacy?)
  {
  }

  // An unfinished item of this file in another run.
  ghost predicate OtherRunUnfinished(db: Store, run: RunId, f: FileId) {
    exists r: RunId :: r != run && (r, f) in db.items && db.items[(r, f)].status != Committed
  }

  /**
   The next candidate. One that no product references is passed over, and so is one whose item is
   COMMITTED or, unless failed items are to be retried, FAILED. An unfinished item of another run stops
   the command. Items in flight are recovered; all others are converted.
   */
  lemma CandidatesAreTaken(s: State, f: FileId, e: Env)
    requires s.command.Applying? && s.command.pc.Loop? && s.command.todo.Some? && f in s.command.todo.value
    ensures var t, run := Next(s, ApplyOne(f, e)), s.command.run;
      var referenced, retryFailed := !e.flag, !e.fails;
      && t == s.(command := t.command)
      && (t.command.Down? <==> referenced && OtherRunUnfinished(s.db, run, f))
      && (!t.command.Down? ==>
            && t.command == s.command.(todo := Some(s.command.todo.value - {f}), pc := t.command.pc)
            && (t.command.pc == ReadSource(f) <==>
                  referenced && ((run, f) !in s.db.items || s.db.items[(run, f)].status == Pending
                                 || (s.db.items[(run, f)].status == Failed && retryFailed)))
            && (t.command.pc.Inspect? <==>
                  referenced && (run, f) in s.db.items && s.db.items[(run, f)].status in {Processing, Staged})
            && (t.command.pc.Inspect? ==> t.command.pc == Inspect(f, s.db.items[(run, f)]))
            && (t.command.pc == ReadSource(f) || t.command.pc.Inspect? || t.command.pc.Loop?))
  {
    UnresolvedIff(s.db, s.command.run, f);
  }

  lemma UnresolvedIff(db: Store, run: RunId, f: FileId)
    ensures Unresolved(db, run, f) <==> OtherRunUnfinished(db, run, f)
  {
    if Unresolved(db, run, f) {
      var k :| k in db.items && k.1 == f && k.0 != run && db.items[k].status != Committed;
      assert (k.0, f) == k;
    }
    if OtherRunUnfinished(db, run, f) {
      var r: RunId :| r != run && (r, f) in db.items && db.items[(r, f)].status != Committed;
      assert (r, f).1 == f;
    }
  }

  // ----- accesses that fail ------------------------------------------------------------------------

  // The command goes on with `pc` and no store was touched.
  predicate GoesOn(s: State, t: State, pc: ApplyPc) {
    s.command.Applying? && t == s.(command := s.command.(pc := pc))
  }

  /**
   What a failing access does in recovery: a digest that cannot be read marks the item as FAILED; a PENDING
   or STAGED update that fails ends the command; a lost FAILED mark is ignored and remembered. A commit that
   fails marks the item in recovery and leaves it STAGED in conversion.
   */
  lemma FailuresOfRecovery(s: State, g: FileId, e: Env)
    requires s.command.Applying? && e.fails
    ensures var t, pc := Next(s, ApplyOne(g, e)), s.command.pc;
      && (pc.Inspect? && pc.it.status == Processing ==> GoesOn(s, t, SetFailed(pc.f)))
      && (pc.SetPending? || pc.SetStaged? ==> t == s.(command := Down))
      && (pc.SetFailed? ==> t == s.(command := s.command.(pc := Loop, lost := true)))
      && (pc.CheckTarget? || pc.ReadRecord? || pc.CheckSource? || pc.Switch? || pc.Confirm? ==>
            GoesOn(s, t, if pc.recovering then SetFailed(pc.f) else Loop))
  {
  }

  /**
   And in conversion: nothing is marked until the item is PROCESSING; a failure of processing or publishing
   marks it; what was written is removed, or part of it left; after that the item stays as it is.
   */
  lemma FailuresOfConversion(s: State, g: FileId, e: Env)
    requires s.command.Applying? && e.fails
    ensures var t, pc := Next(s, ApplyOne(g, e)), s.command.pc;
      && (pc.ReadSource? || pc.CreateItem? || pc.MarkProcessing? || pc.HashSource? || pc.Stage? || pc.Reload? ==>
            GoesOn(s, t, Loop))
      && (pc.Process? || pc.Publish? ==> GoesOn(s, t, SetFailed(pc.f)))
      && (pc.WriteOut? ==>
            && GoesOn(s.(db := s.db.(disk := t.db.disk)), t, SetFailed(pc.f))
            && (Target(pc.f) !in t.db.disk || (e.flag && t.db.disk[Target(pc.f)] == e.bytes))
            && (forall k | k != Target(pc.f) :: SameObject(s.db, t.db, k)))
  {
  }

  // ----- the loop is reached -----------------------------------------------------------------------

  // How many accesses may be left before the head of the loop.
  function Left(pc: ApplyPc): nat {
    match pc
    case Loop => 0
    case SetPending(_) => 1
    case SetFailed(_) => 1
    case Switch(_, _, _) => 2
    case Confirm(_, _, _) => 2
    case CheckSource(_, _, _) => 3
    case ReadRecord(_, _, _) => 4
    case CheckTarget(_, _, _) => 5
    case SetStaged(_, _) => 6
    case Inspect(_, _) => 7
    case Reload(_) => 6
    case Stage(_, _, _) => 7
    case HashSource(_, _) => 8
    case WriteOut(_, _) => 9
    case Publish(_, _) => 10
    case Process(_, _) => 11
    case MarkProcessing(_, _) => 12
    case CreateItem(_, _) => 13
    case ReadSource(_) => 14
  }

  lemma CommitLeadsOn(s: State, e: Env)
    requires s.command.Applying? && ApplyPcOk(s.db, s.command.run, s.command.pc) && !e.fails
    requires var pc := s.command.pc;
      pc.CheckTarget? || pc.ReadRecord? || pc.CheckSource? || pc.Switch? || pc.Confirm?
    ensures var t := CommitStep(s, e); t.command.Applying? && Left(t.command.pc) < Left(s.command.pc)
  {
  }

  lemma RecoveryLeadsOn(s: State, e: Env)
    requires s.command.Applying? && ApplyPcOk(s.db, s.command.run, s.command.pc) && !e.fails
    requires s.command.pc.SetPending? || s.command.pc.SetStaged? || s.command.pc.SetFailed?
    ensures var t := RecoverWriteStep(s, e); t.command.Applying? && Left(t.command.pc) < Left(s.command.pc)
  {
  }

  lemma ConversionLeadsOn(s: State, e: Env)
    requires s.command.Applying?
    ensures var t, pc := PrepareStep(s, e), s.command.pc;
      pc.ReadSource? || pc.CreateItem? || pc.MarkProcessing? || pc.Process? ==>
        t.command.Applying? && Left(t.command.pc) < Left(pc)
    ensures var t, pc := PublishStep(s, e), s.command.pc;
      pc.Publish? || pc.WriteOut? || pc.HashSource? || pc.Stage? || pc.Reload? ==>
        t.command.Applying? && Left(t.command.pc) < Left(pc)
  {
  }

  lemma EveryAccessLeadsOn(s: State, f: FileId, e: Env)
    requires Inv(s) && s.command.Applying? && !s.command.pc.Loop? && !e.fails
    ensures var t := Next(s, ApplyOne(f, e)); t.command.Applying? && Left(t.command.pc) < Left(s.command.pc)
  {
    hide StoreOk;
    hide UploadsOk;
    hide CommitStep;
    hide RecoverWriteStep;
    hide PrepareStep;
    hide PublishStep;
    var pc := s.command.pc;
    ConversionLeadsOn(s, e);
    if pc.SetPending? || pc.SetStaged? || pc.SetFailed? { RecoveryLeadsOn(s, e); }
    else if pc.CheckTarget? || pc.ReadRecord? || pc.CheckSource? || pc.Switch? || pc.Confirm? { CommitLeadsOn(s, e); }
  }

  lemma OneAccessMore(s: State, steps: seq<Step>, n: nat)
    requires s.command.Applying? && !s.command.pc.Loop? && n < |steps|
    requires steps[0].ApplyOne? && !steps[0].env.fails && UntilLoop(Next(s, steps[0]), steps[1..][..n])
    ensures UntilLoop(s, steps[..n + 1])
  {
    assert steps[..n + 1][0] == steps[0] && steps[..n + 1][1..] == steps[1..][..n];
  }

  /** From every reachable point of `apply`, at most 14 accesses that succeed lead to the head of its loop. */
  lemma {:induction false} TheLoopIsReached(s: State, steps: seq<Step>)
    requires Inv(s) && Tracked(s) && s.command.Applying? && |steps| >= Left(s.command.pc)
    requires forall a | a in steps :: a.ApplyOne? && !a.env.fails
    ensures Left(s.command.pc) <= 14
    ensures exists n :: 0 <= n <= Left(s.command.pc) && UntilLoop(s, steps[..n])
    decreases |steps|
  {
    hide Inv;
    hide Tracked;
    hide Next;
    if s.command.pc.Loop? {
      assert UntilLoop(s, steps[..0]);
    } else {
      var t := Next(s, steps[0]);
      EveryAccessLeadsOn(s, steps[0].next, steps[0].env);
      NextInv(s, steps[0]);
      NextTracked(s, steps[0]);
      TheLoopIsReached(t, steps[1..]);
      var n :| 0 <= n <= Left(t.command.pc) && UntilLoop(t, steps[1..][..n]);
      OneAccessMore(s, steps, n);
    }
  }
}
