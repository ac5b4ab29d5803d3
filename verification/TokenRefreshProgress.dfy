/**
 What the refresh protocol gets done: a request refused with its access token expired is sent again with
 the new pair, and so is every request that waits for the same refresh; and how each request ends when a
 refresh fails or the session has changed.
 */
module TokenRefreshProgress {
  import opened Wrappers
  import opened TokenRefresh
  import opened TokenRefreshSafety

  // ----- single steps ------------------------------------------------------------------------------

  /** A request is sent under the stored session, unless it was made for another one. */
  lemma RequestsAreSent(s: State, r: nat, skipAuth: bool, expected: Option<Session>)
    requires r !in s.requests
    ensures var t := Next(s, Start(r, skipAuth, expected));
      && t.store == s.store && t.flights == s.flights && r in t.requests
      && t.requests == s.requests[r := t.requests[r]]
      && t.requests[r].session == s.store && t.requests[r].skipAuth == skipAuth && !t.requests[r].retrying
      && (t.requests[r].pc.Sent? <==> expected.None? || expected.value == s.store)
      && (!t.requests[r].pc.Sent? ==> t.requests[r].pc == AuthExpired)
      && t.requests[r].sends == if t.requests[r].pc.Sent? then 1 else 0
  {
  }

  /** Any answer but a 401 ends the request, and so does a 401 to a request that carries no session. */
  lemma AnswersEndRequests(s: State, r: nat, unauthorized: bool)
    requires r in s.requests && s.requests[r].pc.Sent? && (!unauthorized || s.requests[r].skipAuth)
    ensures Next(s, Reply(r, unauthorized)) == Put(s, r, s.requests[r].(pc := Answered))
  {
  }

  /** A 401 that cannot be helped by a refresh ends the request, and the session it was sent with. */
  lemma SecondRefusalExpires(s: State, r: nat)
    requires r in s.requests && s.requests[r].pc.Sent? && !s.requests[r].skipAuth
    requires s.requests[r].retrying || s.requests[r].session.refresh == 0
    ensures var t := Next(s, Reply(r, true));
      && t.requests == s.requests[r := s.requests[r].(pc := AuthExpired)] && t.flights == s.flights
      && t.store == if s.store == s.requests[r].session then LOGGED_OUT else s.store
  {
  }

  /**
   Where a request waits after its first 401: for the refresh of its own session when that is running, or
   when it is the last and either succeeded or its session is gone; for a foreign refresh that is running;
   for a refresh it starts itself; or for nothing, when its session is gone.
   */
  lemma RefusedRequestsWait(s: State, a: Step)
    requires Safe(s) && Enters(s, a)
    ensures var own, n, pc := s.requests[a.r].session, |s.flights|, Next(s, a).requests[a.r].pc;
      var running := n > 0 && s.flights[n - 1].outcome.None?;
      var mine := n > 0 && s.flights[n - 1].owner == own;
      pc == if running then if mine then AwaitFlight(n - 1) else AwaitTurn(n - 1)
            else if mine && (s.store != own || s.flights[n - 1].outcome.value.Refreshed?) then AwaitFlight(n - 1)
            else if s.store == own then AwaitFlight(n)
            else AwaitResult(Stale(own))
  {
    EntersRefresh(s, a);
  }

  /** The answer to a refresh is stored, or ends the session, exactly while the session that asked is stored. */
  lemma RefreshAnswers(s: State, f: nat, tokens: Option<Session>)
    requires f < |s.flights| && s.flights[f].phase.Posted? && (tokens.Some? ==> WellFormed(tokens.value))
    ensures var t, flight := Next(s, RefreshReply(f, tokens)), s.flights[f];
      && t.requests == s.requests
      && t.store == (if s.store != flight.owner then s.store
                     else if tokens.Some? then tokens.value else LOGGED_OUT)
      && t.flights == s.flights[f := flight.(phase :=
           if s.store != flight.owner then Returned(Stale(flight.owner))
           else if tokens.Some? then Rotated(tokens.value) else Returned(Failed(flight.owner)))]
  {
  }

  /** A refresh has succeeded if and only if the pair it stored is still the stored one. */
  lemma RefreshedIff(s: State, f: nat)
    requires f < |s.flights| && s.flights[f].phase.Rotated?
    ensures var owner, pair, t := s.flights[f].owner, s.flights[f].phase.session, Next(s, Recheck(f));
      && t.store == s.store && t.requests == s.requests
      && |t.flights| == |s.flights| && t.flights == s.flights[f := t.flights[f]]
      && (t.flights[f] == s.flights[f].(phase := Returned(Refreshed(owner, pair))) <==> s.store == pair)
      && (t.flights[f] == s.flights[f].(phase := Returned(Stale(owner))) <==> s.store != pair)
  {
  }

  lemma FlightsSettle(s: State, f: nat)
    requires f < |s.flights| && s.flights[f].phase.Returned?
    ensures var t := Next(s, Settle(f));
      && t.store == s.store && t.requests == s.requests
      && t.flights == s.flights[f := s.flights[f].(outcome := Some(s.flights[f].phase.result))]
  {
  }

  // What the request waits for has this result.
  predicate Awaits(s: State, r: nat, out: Outcome) {
    r in s.requests &&
    match s.requests[r].pc
    case AwaitFlight(f) => f < |s.flights| && s.flights[f].outcome == Some(out)
    case AwaitResult(o) => o == out
    case _ => false
  }

  /**
   A request that waited is sent again, under the new pair, if and only if the refresh of its own session
   succeeded and the new pair is still stored; otherwise it ends, and the stored session stays.
   */
  lemma ReplayedIff(s: State, r: nat, out: Outcome)
    requires Awaits(s, r, out)
    ensures var t, req := Next(s, Resume(r)), s.requests[r];
      && t.store == s.store && t.flights == s.flights && t.requests.Keys == s.requests.Keys
      && (if out.Refreshed? && out.owner == req.session && out.session == s.store then
            t.requests[r] == req.(session := out.session, retrying := true, pc := Sent, sends := req.sends + 1)
          else t.requests[r] == req.(pc := AuthExpired))
  {
  }

  // ----- other steps in between --------------------------------------------------------------------

  predicate About(a: Step, r: nat, f: nat) {
    match a
    case Start(q, _, _) => q == r
    case Reply(q, _) => q == r
    case Resume(q) => q == r
    case RefreshReply(g, _) => g == f
    case Recheck(g) => g == f
    case Settle(g) => g == f
    case _ => false
  }

  // Steps about other requests and flights that leave the stored session alone.
  predicate Quiet(s: State, steps: seq<Step>, r: nat, f: nat)
    decreases |steps|
  {
    steps == []
    || (!About(steps[0], r, f) && Next(s, steps[0]).store == s.store && Quiet(Next(s, steps[0]), steps[1..], r, f))
  }

  lemma QuietStep(s: State, a: Step, r: nat, f: nat)
    requires !About(a, r, f) && r in s.requests && f < |s.flights|
    ensures var t := Next(s, a);
      r in t.requests && t.requests[r] == s.requests[r] && f < |t.flights| && t.flights[f] == s.flights[f]
  {
  }

  lemma {:induction false} QuietKeeps(s: State, steps: seq<Step>, r: nat, f: nat)
    requires Quiet(s, steps, r, f) && r in s.requests && f < |s.flights|
    ensures var t := Run(s, steps);
      && r in t.requests && t.requests[r] == s.requests[r]
      && f < |t.flights| && t.flights[f] == s.flights[f] && t.store == s.store
    decreases |steps|
  {
    if steps != [] {
      QuietStep(s, steps[0], r, f);
      QuietKeeps(Next(s, steps[0]), steps[1..], r, f);
    }
  }

  // ----- a refresh from its request to the replay --------------------------------------------------

  // The request waits for the refresh of its session, which is the stored one; no answer yet.
  predicate WaitsFor(s: State, r: nat, f: nat, own: Session) {
    && s.store == own && r in s.requests && f < |s.flights| && s.flights[f] == Flight(own, Posted, None)
    && s.requests[r].pc == AwaitFlight(f) && s.requests[r].session == own
  }

  // The request goes out again under the pair.
  predicate SentAgain(before: Request, after: Request, pair: Session) {
    after == before.(session := pair, retrying := true, pc := Sent, sends := before.sends + 1)
  }

  // The four steps of a refresh, with others before each of them.
  function AfterReply(s: State, f: nat, quiet: seq<Step>, tokens: Option<Session>): State {
    Next(Run(s, quiet), RefreshReply(f, tokens))
  }

  function AfterRecheck(s: State, f: nat, quiet: seq<Step>): State { Next(Run(s, quiet), Recheck(f)) }

  function AfterSettle(s: State, f: nat, quiet: seq<Step>): State { Next(Run(s, quiet), Settle(f)) }

  function AfterResume(s: State, r: nat, quiet: seq<Step>): State { Next(Run(s, quiet), Resume(r)) }

  lemma Rotates(s: State, r: nat, f: nat, own: Session, pair: Session, quiet: seq<Step>)
    requires WaitsFor(s, r, f, own) && WellFormed(pair) && Quiet(s, quiet, r, f)
    ensures var t := AfterReply(s, f, quiet, Some(pair));
      && t.store == pair && r in t.requests && t.requests[r] == s.requests[r]
      && f < |t.flights| && t.flights[f] == Flight(own, Rotated(pair), None)
  {
    QuietKeeps(s, quiet, r, f);
    RefreshAnswers(Run(s, quiet), f, Some(pair));
  }

  lemma Succeeds(s: State, r: nat, f: nat, own: Session, pair: Session, quiet: seq<Step>)
    requires s.store == pair && r in s.requests && f < |s.flights| && s.flights[f] == Flight(own, Rotated(pair), None)
    requires Quiet(s, quiet, r, f)
    ensures var t := AfterRecheck(s, f, quiet);
      && t.store == pair && r in t.requests && t.requests[r] == s.requests[r]
      && f < |t.flights| && t.flights[f] == Flight(own, Returned(Refreshed(own, pair)), None)
  {
    QuietKeeps(s, quiet, r, f);
    RefreshedIff(Run(s, quiet), f);
  }

  lemma Settles(s: State, r: nat, f: nat, flight: Flight, quiet: seq<Step>)
    requires r in s.requests && f < |s.flights| && s.flights[f] == flight && flight.phase.Returned?
    requires Quiet(s, quiet, r, f)
    ensures var t := AfterSettle(s, f, quiet);
      && t.store == s.store && r in t.requests && t.requests[r] == s.requests[r]
      && f < |t.flights| && t.flights[f].outcome == Some(flight.phase.result)
  {
    QuietKeeps(s, quiet, r, f);
    FlightsSettle(Run(s, quiet), f);
  }

  lemma Resumes(s: State, r: nat, f: nat, out: Outcome, quiet: seq<Step>)
    requires r in s.requests && s.requests[r].pc == AwaitFlight(f)
    requires f < |s.flights| && s.flights[f].outcome == Some(out) && Quiet(s, quiet, r, f)
    ensures var t := AfterResume(s, r, quiet);
      && t.store == s.store && r in t.requests
      && (if out.Refreshed? && out.owner == s.requests[r].session && out.session == s.store then
            SentAgain(s.requests[r], t.requests[r], out.session)
          else t.requests[r] == s.requests[r].(pc := AuthExpired))
  {
    QuietKeeps(s, quiet, r, f);
    ReplayedIff(Run(s, quiet), r, out);
  }

  // The refresh is answered with a new pair, checked again and settled, and the request resumes.
  function Renewed(s: State, r: nat, f: nat, pair: Session, quiet: seq<seq<Step>>): State
    requires |quiet| == 4
  {
    var checked := AfterRecheck(AfterReply(s, f, quiet[0], Some(pair)), f, quiet[1]);
    AfterResume(AfterSettle(checked, f, quiet[2]), r, quiet[3])
  }

  // What happens before each of these steps is about other requests and flights and leaves the store alone.
  predicate QuietAround(s: State, r: nat, f: nat, pair: Session, quiet: seq<seq<Step>>)
    requires |quiet| == 4
  {
    var s1 := AfterReply(s, f, quiet[0], Some(pair));
    var s2 := AfterRecheck(s1, f, quiet[1]);
    var s3 := AfterSettle(s2, f, quiet[2]);
    Quiet(s, quiet[0], r, f) && Quiet(s1, quiet[1], r, f) && Quiet(s2, quiet[2], r, f) && Quiet(s3, quiet[3], r, f)
  }

  /**
   A refresh that is answered with a new pair lets every request that waits for it go out again under that
   pair, whatever else happens in between that leaves the stored session alone.
   */
  lemma WaitingRequestsAreReplayed(s: State, r: nat, f: nat, own: Session, pair: Session, quiet: seq<seq<Step>>)
    requires WaitsFor(s, r, f, own) && WellFormed(pair) && |quiet| == 4 && QuietAround(s, r, f, pair, quiet)
    ensures var t := Renewed(s, r, f, pair, quiet);
      t.store == pair && r in t.requests && SentAgain(s.requests[r], t.requests[r], pair)
  {
    var s1 := AfterReply(s, f, quiet[0], Some(pair));
    var s2 := AfterRecheck(s1, f, quiet[1]);
    var s3 := AfterSettle(s2, f, quiet[2]);
    Rotates(s, r, f, own, pair, quiet[0]);
    Succeeds(s1, r, f, own, pair, quiet[1]);
    Settles(s2, r, f, s2.flights[f], quiet[2]);
    Resumes(s3, r, f, Refreshed(own, pair), quiet[3]);
  }

  /** A refresh that fails ends the session and every request that waits for it. */
  lemma FailedRefreshEndsRequests(
      s: State, r: nat, f: nat, own: Session, quiet1: seq<Step>, quiet2: seq<Step>, quiet3: seq<Step>)
    requires WaitsFor(s, r, f, own) && Quiet(s, quiet1, r, f)
    requires Quiet(AfterReply(s, f, quiet1, None), quiet2, r, f)
    requires Quiet(AfterSettle(AfterReply(s, f, quiet1, None), f, quiet2), quiet3, r, f)
    ensures var t := AfterResume(AfterSettle(AfterReply(s, f, quiet1, None), f, quiet2), r, quiet3);
      t.store == LOGGED_OUT && r in t.requests && t.requests[r] == s.requests[r].(pc := AuthExpired)
  {
    var s1 := AfterReply(s, f, quiet1, None);
    var s2 := AfterSettle(s1, f, quiet2);
    QuietKeeps(s, quiet1, r, f);
    RefreshAnswers(Run(s, quiet1), f, None);
    Settles(s1, r, f, s1.flights[f], quiet2);
    Resumes(s2, r, f, Failed(own), quiet3);
  }

  // ----- how requests come to wait -----------------------------------------------------------------

  // The first 401 of a request sent under the stored session.
  predicate RefusedFirst(s: State, r: nat) {
    && r in s.requests && s.requests[r].pc.Sent? && !s.requests[r].skipAuth && !s.requests[r].retrying
    && s.requests[r].session == s.store && s.store.refresh != 0
  }

  /** With every flight settled and the last one no success of the pair, its first 401 starts a refresh. */
  lemma RefusalStartsRefresh(s: State, r: nat)
    requires Safe(s) && AllSettled(s) && !LastRefreshed(s, s.store) && RefusedFirst(s, r)
    ensures WaitsFor(Next(s, Reply(r, true)), r, |s.flights|, s.store)
    ensures Next(s, Reply(r, true)).requests[r] == s.requests[r].(pc := AwaitFlight(|s.flights|))
  {
    EntersRefresh(s, Reply(r, true));
    EnterEffect(s, r);
    RefusedRequestsWait(s, Reply(r, true));
  }

  /** While it runs, a 401 of any other request under the pair joins it. */
  lemma RefusalJoinsRefresh(s: State, r: nat, f: nat)
    requires f + 1 == |s.flights| && s.flights[f] == Flight(s.store, Posted, None) && RefusedFirst(s, r)
    ensures WaitsFor(Next(s, Reply(r, true)), r, f, s.store)
    ensures Next(s, Reply(r, true)).flights == s.flights
    ensures Next(s, Reply(r, true)).requests[r] == s.requests[r].(pc := AwaitFlight(f))
  {
  }

  /**
   So from every safe state with every flight settled, a request refused under the stored pair, which no
   refresh has renewed, ends up sent a second time and under the new pair.
   */
  lemma RefusedRequestsAreReplayed(s: State, r: nat, pair: Session, quiet: seq<seq<Step>>)
    requires Safe(s) && AllSettled(s) && !LastRefreshed(s, s.store) && RefusedFirst(s, r) && WellFormed(pair)
    requires s.requests[r].sends == 1
    requires |quiet| == 4 && QuietAround(Next(s, Reply(r, true)), r, |s.flights|, pair, quiet)
    ensures var t := Renewed(Next(s, Reply(r, true)), r, |s.flights|, pair, quiet);
      && t.store == pair && r in t.requests
      && t.requests[r].pc.Sent? && t.requests[r].sends == 2 && t.requests[r].session == pair
  {
    RefusalStartsRefresh(s, r);
    WaitingRequestsAreReplayed(Next(s, Reply(r, true)), r, |s.flights|, s.store, pair, quiet);
  }

  /** And so does one that is refused while the refresh another request started is running. */
  lemma JoinedRequestsAreReplayed(s: State, r: nat, f: nat, pair: Session, quiet: seq<seq<Step>>)
    requires f + 1 == |s.flights| && s.flights[f] == Flight(s.store, Posted, None) && RefusedFirst(s, r)
    requires s.requests[r].sends == 1 && WellFormed(pair)
    requires |quiet| == 4 && QuietAround(Next(s, Reply(r, true)), r, f, pair, quiet)
    ensures Posts(Next(s, Reply(r, true))) == Posts(s)
    ensures var t := Renewed(Next(s, Reply(r, true)), r, f, pair, quiet);
      && t.store == pair && r in t.requests
      && t.requests[r].pc.Sent? && t.requests[r].sends == 2 && t.requests[r].session == pair
  {
    RefusalJoinsRefresh(s, r, f);
    WaitingRequestsAreReplayed(Next(s, Reply(r, true)), r, f, s.store, pair, quiet);
  }

  /** A late 401 under the old pair, after its refresh succeeded, is replayed with the new one at once. */
  lemma LateRefusalsAreReplayed(s: State, r: nat, own: Session, pair: Session)
    requires |s.flights| > 0 && s.flights[|s.flights| - 1].owner == own && s.store == pair
    requires s.flights[|s.flights| - 1].outcome == Some(Refreshed(own, pair))
    requires r in s.requests && s.requests[r].pc.Sent? && !s.requests[r].skipAuth && !s.requests[r].retrying
    requires s.requests[r].session == own && own.refresh != 0
    ensures var t := Next(Next(s, Reply(r, true)), Resume(r));
      t.store == pair && t.flights == s.flights && r in t.requests && SentAgain(s.requests[r], t.requests[r], pair)
  {
    ReplayedIff(Next(s, Reply(r, true)), r, Refreshed(own, pair));
  }
}
