/** Single flight, single use, ownership: what every interleaving of the refresh protocol keeps. */
module TokenRefreshSafety {
  import opened Wrappers
  import opened TokenRefresh

  // ----- invariant without assumptions about the server -----------------------------------------

  ghost predicate FlightOk(f: Flight) {
    && f.owner.refresh != 0
    && (f.phase.Returned? ==> f.phase.result.owner == f.owner)
    && (f.outcome.Some? ==> f.phase == Returned(f.outcome.value))
  }

  ghost predicate FlightsOk(flights: seq<Flight>) {
    && (forall i :: 0 <= i < |flights| ==> FlightOk(flights[i]))
    && (forall i :: 0 <= i < |flights| - 1 ==> flights[i].outcome.Some?)
  }

  // The replay goes out under the session that a refresh of the first session produced.
  ghost predicate Replays(flights: seq<Flight>, req: Request) {
    exists i ::
      0 <= i < |flights| && flights[i].owner == req.first
      && flights[i].outcome == Some(Refreshed(req.first, req.session))
  }

  ghost predicate RequestOk(flights: seq<Flight>, req: Request) {
    && req.sends <= (if req.retrying then 2 else 1)
    && (!req.retrying ==> req.session == req.first)
    && (req.retrying ==> Replays(flights, req))
    && req.turns <= |flights|
    && match req.pc
       case AwaitFlight(f) => !req.retrying && f < |flights| && flights[f].owner == req.session
       case AwaitTurn(f) => !req.retrying && f < |flights| && flights[f].owner != req.session && req.turns <= f + 1
       case AwaitResult(out) => !req.retrying && out == Stale(req.session)
       case _ => true
  }

  ghost predicate Inv(s: State) {
    FlightsOk(s.flights) && forall r | r in s.requests :: RequestOk(s.flights, s.requests[r])
  }

  // Flights are only added, and a flight that has an outcome keeps it.
  ghost predicate Extends(a: seq<Flight>, b: seq<Flight>) {
    |a| <= |b| && forall i :: 0 <= i < |a| ==> b[i].owner == a[i].owner && (a[i].outcome.Some? ==> b[i] == a[i])
  }

  lemma RequestStable(a: seq<Flight>, b: seq<Flight>, req: Request)
    requires Extends(a, b) && RequestOk(a, req)
    ensures RequestOk(b, req)
  {
    if req.retrying {
      var i :| 0 <= i < |a| && a[i].owner == req.first && a[i].outcome == Some(Refreshed(req.first, req.session));
      assert b[i].owner == req.first && b[i].outcome == Some(Refreshed(req.first, req.session));
    }
  }

  lemma RequestsStable(s: State, t: State)
    requires Inv(s) && Extends(s.flights, t.flights) && t.requests == s.requests && FlightsOk(t.flights)
    ensures Inv(t)
  {
    forall r | r in t.requests ensures RequestOk(t.flights, t.requests[r]) {
      RequestStable(s.flights, t.flights, s.requests[r]);
    }
  }

  lemma EnterInv(s: State, r: nat)
    requires Inv(s) && r in s.requests && !s.requests[r].retrying && s.requests[r].session.refresh != 0
    requires s.requests[r].pc.Sent? ==> s.requests[r].turns == 0
    requires s.requests[r].pc.AwaitTurn? ==>
      s.requests[r].pc.flight < |s.flights| && s.flights[s.requests[r].pc.flight].outcome.Some?
    requires s.requests[r].pc.Sent? || s.requests[r].pc.AwaitTurn?
    ensures Inv(EnterRefresh(s, r))
  {
    var req := s.requests[r];
    var (t, pc) := RefreshFor(s, req.session);
    forall q | q in s.requests ensures RequestOk(t.flights, s.requests[q]) {
      RequestStable(s.flights, t.flights, s.requests[q]);
    }
  }

  ghost predicate Fresh(s: State) {
    forall r | r in s.requests && s.requests[r].pc.Sent? && !s.requests[r].retrying :: s.requests[r].turns == 0
  }

  ghost predicate Refreshing(s: State) {
    forall r | r in s.requests && s.requests[r].pc.AwaitTurn? :: s.requests[r].session.refresh != 0
  }

  ghost predicate Safe(s: State) { Inv(s) && Fresh(s) && Refreshing(s) }

  // Ending a request.
  lemma EndInv(s: State, r: nat, pc: Pc, store: Session)
    requires Safe(s) && r in s.requests && (pc.Answered? || pc.AuthExpired?)
    ensures Safe(Put(s, r, s.requests[r].(pc := pc)).(store := store))
  {
    assert RequestOk(s.flights, s.requests[r].(pc := pc));
  }

  lemma EnterKeepsTurns(s: State, r: nat)
    requires Safe(s) && r in s.requests && s.requests[r].session.refresh != 0
    ensures Fresh(EnterRefresh(s, r)) && Refreshing(EnterRefresh(s, r))
  {
  }

  lemma ReplyInv(s: State, r: nat, unauthorized: bool)
    requires Safe(s) && r in s.requests && s.requests[r].pc.Sent?
    ensures Safe(ReplyStep(s, r, unauthorized))
  {
    var req := s.requests[r];
    if !unauthorized || req.skipAuth {
      EndInv(s, r, Answered, s.store);
    } else if req.retrying || req.session.refresh == 0 {
      EndInv(s, r, AuthExpired, if s.store == req.session then LOGGED_OUT else s.store);
    } else {
      EnterInv(s, r);
      EnterKeepsTurns(s, r);
    }
  }

  lemma DeliverInv(s: State, r: nat, out: Outcome)
    requires Inv(s) && Fresh(s) && Refreshing(s) && r in s.requests && !s.requests[r].retrying
    requires out == Stale(s.requests[r].session)
          || (exists f ::
                0 <= f < |s.flights| && s.flights[f].owner == s.requests[r].session
                && s.flights[f].outcome == Some(out))
    ensures Inv(Deliver(s, r, out)) && Fresh(Deliver(s, r, out)) && Refreshing(Deliver(s, r, out))
  {
    assert RequestOk(s.flights, s.requests[r]);
  }

  lemma ResumeInv(s: State, r: nat)
    requires Inv(s) && Fresh(s) && Refreshing(s) && r in s.requests
    ensures Inv(ResumeStep(s, r)) && Fresh(ResumeStep(s, r)) && Refreshing(ResumeStep(s, r))
  {
    assert RequestOk(s.flights, s.requests[r]);
    match s.requests[r].pc
    case AwaitFlight(f) => if s.flights[f].outcome.Some? { DeliverInv(s, r, s.flights[f].outcome.value); }
    case AwaitTurn(f) => if s.flights[f].outcome.Some? { EnterInv(s, r); }
    case AwaitResult(out) => DeliverInv(s, r, out);
    case _ =>
  }

  lemma StartSafe(s: State, r: nat, skipAuth: bool, expected: Option<Session>)
    requires Safe(s)
    ensures Safe(StartStep(s, r, skipAuth, expected))
  {
  }

  // The steps of a flight leave the requests alone.
  lemma FlightStepSafe(s: State, a: Step)
    requires Safe(s) && (a.RefreshReply? || a.Recheck? || a.Settle?)
    ensures Safe(Next(s, a))
  {
    RequestsStable(s, Next(s, a));
  }

  lemma NextSafe(s: State, a: Step)
    requires Safe(s)
    ensures Safe(Next(s, a))
  {
    match a
    case Login(_) =>
    case Logout =>
    case Start(r, skipAuth, expected) => StartSafe(s, r, skipAuth, expected);
    case Reply(r, unauthorized) => if r in s.requests && s.requests[r].pc.Sent? { ReplyInv(s, r, unauthorized); }
    case Resume(r) => if r in s.requests { ResumeInv(s, r); }
    case _ => FlightStepSafe(s, a);
  }

  lemma {:induction false} RunSafe(s: State, steps: seq<Step>)
    requires Safe(s)
    ensures Safe(Run(s, steps))
    decreases |steps|
  {
    if steps != [] {
      NextSafe(s, steps[0]);
      RunSafe(Next(s, steps[0]), steps[1..]);
    }
  }

  // ----- main results: no assumption about the server -----------------------------------------------

  // At most one refresh is unresolved at any time: the last flight.
  lemma SingleFlight(stored: Session, steps: seq<Step>)
    ensures var s := Run(Init(stored), steps);
      forall i, j ::
        0 <= i < |s.flights| && 0 <= j < |s.flights| && s.flights[i].outcome.None? && s.flights[j].outcome.None? ==>
          i == j
  {
    RunSafe(Init(stored), steps);
  }

  /**
   A request is sent at most twice. The second send goes out under the session that a refresh of
   its first session produced, and every outcome a request receives carries its own session.
   */
  lemma RequestsAreReplayedOnce(stored: Session, steps: seq<Step>, r: nat)
    requires r in Run(Init(stored), steps).requests
    ensures var s := Run(Init(stored), steps);
      var req := s.requests[r];
      && req.sends <= 2
      && (req.sends == 2 ==> exists i :: 0 <= i < |s.flights| && s.flights[i].owner == req.first
                                         && s.flights[i].outcome == Some(Refreshed(req.first, req.session)))
      && (req.pc.AwaitFlight? ==>
            req.pc.flight < |s.flights| &&
            var flight := s.flights[req.pc.flight];
            flight.owner == req.session && (flight.outcome.Some? ==> flight.outcome.value.owner == req.session))
      && (req.pc.AwaitResult? ==> req.pc.result.owner == req.session)
  {
    RunSafe(Init(stored), steps);
    var s := Run(Init(stored), steps);
    assert RequestOk(s.flights, s.requests[r]);
    if s.requests[r].pc.AwaitFlight? { assert FlightOk(s.flights[s.requests[r].pc.flight]); }
  }

  // The moment a request is sent again, the session it uses is the one in the store.
  lemma ReplayUsesTheStoredSession(s: State, a: Step, r: nat)
    requires r in s.requests && r in Next(s, a).requests && Next(s, a).requests[r].sends > s.requests[r].sends
    ensures a == Resume(r) && Next(s, a).requests[r].session == s.store == Next(s, a).store
    ensures s.requests[r].sends + 1 == Next(s, a).requests[r].sends
  {
  }

  /**
   Whose session a step may touch: a login or logout, the rotation or failure of the flight whose
   own session is stored, or an expired request whose own session is stored. Nothing else.
   */
  lemma OnlyOwnersChangeTheStore(s: State, a: Step)
    requires Next(s, a).store != s.store
    ensures match a
      case Login(session) => Next(s, a).store == session
      case Logout => Next(s, a).store == LOGGED_OUT
      case RefreshReply(f, tokens) =>
        f < |s.flights| && s.flights[f].owner == s.store
        && Next(s, a).store == (if tokens.Some? then tokens.value else LOGGED_OUT)
      case Reply(r, unauthorized) =>
        unauthorized && r in s.requests && s.requests[r].session == s.store && Next(s, a).store == LOGGED_OUT
      case _ => false
  {
  }

  // ----- waiting for another owner's flight ------------------------------------------------------------

  // A request that waits again waits for a later flight.
  lemma WaitsForLaterFlights(s: State, r: nat)
    requires Safe(s) && r in s.requests && s.requests[r].pc.AwaitTurn?
    requires Next(s, Resume(r)).requests[r].pc.AwaitTurn? && Next(s, Resume(r)) != s
    ensures Next(s, Resume(r)).requests[r].pc.flight > s.requests[r].pc.flight
  {
    assert RequestOk(s.flights, s.requests[r]);
  }

  // So it waits at most once per flight.
  lemma WaitsAreBounded(stored: Session, steps: seq<Step>, r: nat)
    requires r in Run(Init(stored), steps).requests
    ensures Run(Init(stored), steps).requests[r].turns <= |Run(Init(stored), steps).flights|
  {
    RunSafe(Init(stored), steps);
    assert RequestOk(Run(Init(stored), steps).flights, Run(Init(stored), steps).requests[r]);
  }

  // ----- when a refresh token is posted --------------------------------------------------------------

  predicate AllSettled(s: State) { forall i | 0 <= i < |s.flights| :: s.flights[i].outcome.Some? }

  // The last flight refreshed this very session; its outcome is shared instead of posting again.
  predicate LastRefreshed(s: State, t: Session) {
    var n := |s.flights|;
    n > 0 && s.flights[n - 1].owner == t && s.flights[n - 1].outcome.Some? && s.flights[n - 1].outcome.value.Refreshed?
  }

  // The step runs refreshFor: a 401 that may be refreshed, or a foreign flight that has ended.
  predicate Enters(s: State, a: Step) {
    (a.Reply? || a.Resume?) && a.r in s.requests &&
    var req := s.requests[a.r];
    match req.pc
    case Sent => a.Reply? && a.unauthorized && !req.skipAuth && !req.retrying && req.session.refresh != 0
    case AwaitTurn(f) => a.Resume? && f < |s.flights| && s.flights[f].outcome.Some?
    case _ => false
  }

  // The step posts the stored refresh token.
  predicate Posting(s: State, a: Step) {
    Enters(s, a) && AllSettled(s) && s.store == s.requests[a.r].session && !LastRefreshed(s, s.store)
  }

  // refreshFor starts a flight only for the stored session and when no flight is unresolved.
  lemma EnterEffect(s: State, r: nat)
    requires Safe(s) && r in s.requests
    ensures var t := EnterRefresh(s, r);
      && t.store == s.store && t.issued == s.issued
      && t.flights == if AllSettled(s) && s.store == s.requests[r].session && !LastRefreshed(s, s.store) then
                        s.flights + [Flight(s.store, Posted, None)]
                      else s.flights
  {
  }

  lemma PostsOf(s: State, t: State, owner: Session)
    requires t.flights == s.flights + [Flight(owner, Posted, None)]
    ensures Posts(t) == Posts(s) + [owner.refresh]
  {
  }

  // Steps that do not run refreshFor start no flight and change no owner.
  lemma OthersPostNothing(s: State, a: Step)
    requires !Enters(s, a)
    ensures Posts(Next(s, a)) == Posts(s)
  {
  }

  lemma EntersRefresh(s: State, a: Step)
    requires Enters(s, a)
    ensures Next(s, a) == EnterRefresh(s, a.r)
  {
  }

  /**
   A step posts the stored refresh token exactly when it runs refreshFor for the stored session while
   every flight is settled and the last one is not a successful refresh of that session.
   */
  lemma PostsIff(s: State, a: Step)
    requires Safe(s)
    ensures Posts(Next(s, a)) == Posts(s) + if Posting(s, a) then [s.store.refresh] else []
  {
    if Enters(s, a) {
      EntersRefresh(s, a);
      EnterEffect(s, a.r);
      if Posting(s, a) { PostsOf(s, Next(s, a), s.store); }
    } else {
      OthersPostNothing(s, a);
    }
  }

  predicate Distinct(posts: seq<Token>) { forall i, j :: 0 <= i < j < |posts| ==> posts[i] != posts[j] }

  // Every token posted in the run is posted for the first time.
  predicate PostsNewTokens(s: State, steps: seq<Step>)
    decreases |steps|
  {
    steps == []
    || ((Posting(s, steps[0]) ==> s.store.refresh !in Posts(s)) && PostsNewTokens(Next(s, steps[0]), steps[1..]))
  }

  lemma {:induction false} PostsAreKept(s: State, steps: seq<Step>)
    requires Safe(s)
    ensures Posts(s) <= Posts(Run(s, steps))
    decreases |steps|
  {
    if steps != [] {
      NextSafe(s, steps[0]);
      PostsIff(s, steps[0]);
      PostsAreKept(Next(s, steps[0]), steps[1..]);
    }
  }

  lemma OneMorePost(posts: seq<Token>, token: Token)
    requires Distinct(posts)
    ensures Distinct(posts + [token]) <==> token !in posts
  {
    var longer := posts + [token];
    if token in posts {
      var i :| 0 <= i < |posts| && posts[i] == token;
      assert longer[i] == longer[|posts|];
    }
  }

  lemma PrefixIsDistinct(a: seq<Token>, b: seq<Token>)
    requires a <= b && Distinct(b)
    ensures Distinct(a)
  {
    forall i, j | 0 <= i < j < |a| ensures a[i] != a[j] { assert a[i] == b[i] && a[j] == b[j]; }
  }

  /**
   Over any run no refresh token is posted twice if and only if, at each step that posts, the stored
   token has not been posted before.
   */
  lemma {:induction false} PostedOnceIff(s: State, steps: seq<Step>)
    requires Safe(s) && Distinct(Posts(s))
    ensures Distinct(Posts(Run(s, steps))) <==> PostsNewTokens(s, steps)
    decreases |steps|
  {
    if steps != [] {
      var t := Next(s, steps[0]);
      NextSafe(s, steps[0]);
      PostsIff(s, steps[0]);
      OneMorePost(Posts(s), s.store.refresh);
      if Distinct(Posts(t)) {
        PostedOnceIff(t, steps[1..]);
      } else {
        PostsAreKept(t, steps[1..]);
        if Distinct(Posts(Run(t, steps[1..]))) { PrefixIsDistinct(Posts(t), Posts(Run(t, steps[1..]))); }
      }
    }
  }

  // ----- with a server that never hands out a token twice --------------------------------------------

  predicate NewTokens(s: State, t: Session) { forall q | q in s.issued :: q.refresh != t.refresh }

  // Every login and every successful refresh brings a refresh token not seen before.
  predicate NeverReissued(s: State, steps: seq<Step>)
    decreases |steps|
  {
    steps == [] ||
    (&& (steps[0].Login? ==> NewTokens(s, steps[0].session))
     && (steps[0].RefreshReply? && steps[0].tokens.Some? ==> NewTokens(s, steps[0].tokens.value))
     && NeverReissued(Next(s, steps[0]), steps[1..]))
  }

  ghost predicate IssuedOk(s: State) {
    && (s.store == LOGGED_OUT || s.store in s.issued)
    && (forall p, q | p in s.issued && q in s.issued && p.refresh == q.refresh :: p == q)
    && (forall i :: 0 <= i < |s.flights| ==> s.flights[i].owner in s.issued && s.flights[i].owner.refresh != 0)
    && (forall i :: 0 <= i < |s.flights| && !s.flights[i].phase.Posted? ==> s.flights[i].owner != s.store)
  }

  // Only the store, the flights and the issued sessions matter.
  lemma SameFlights(s: State, t: State)
    requires t.store == s.store && t.flights == s.flights && t.issued == s.issued && IssuedOk(s)
    ensures IssuedOk(t)
  {
  }

  lemma EnterIssued(s: State, r: nat)
    requires Safe(s) && IssuedOk(s) && r in s.requests && s.requests[r].session.refresh != 0
    ensures IssuedOk(EnterRefresh(s, r))
  {
    EnterEffect(s, r);
  }

  // A reply that ends a request may log its own session out.
  lemma ReplyIssued(s: State, r: nat, unauthorized: bool)
    requires Safe(s) && IssuedOk(s) && r in s.requests && s.requests[r].pc.Sent?
    ensures IssuedOk(ReplyStep(s, r, unauthorized))
  {
    if Enters(s, Reply(r, unauthorized)) { EnterIssued(s, r); }
  }

  lemma ResumeIssued(s: State, r: nat)
    requires Safe(s) && IssuedOk(s) && r in s.requests
    ensures IssuedOk(ResumeStep(s, r))
  {
    if Enters(s, Resume(r)) { EnterIssued(s, r); } else { SameFlights(s, ResumeStep(s, r)); }
  }

  lemma RefreshReplyIssued(s: State, f: nat, tokens: Option<Session>)
    requires IssuedOk(s) && f < |s.flights| && s.flights[f].phase.Posted?
    requires tokens.Some? ==> NewTokens(s, tokens.value)
    ensures IssuedOk(RefreshReplyStep(s, f, tokens))
  {
  }

  lemma StoreIssued(s: State, a: Step)
    requires IssuedOk(s) && (a.Login? || a.Logout? || a.Recheck? || a.Settle?)
    requires a.Login? ==> NewTokens(s, a.session)
    ensures IssuedOk(Next(s, a))
  {
  }

  lemma NextIssued(s: State, a: Step)
    requires Safe(s) && IssuedOk(s)
    requires a.Login? ==> NewTokens(s, a.session)
    requires a.RefreshReply? && a.tokens.Some? ==> NewTokens(s, a.tokens.value)
    ensures IssuedOk(Next(s, a))
  {
    match a
    case Start(r, skipAuth, expected) => SameFlights(s, Next(s, a));
    case Reply(r, unauthorized) => if r in s.requests && s.requests[r].pc.Sent? { ReplyIssued(s, r, unauthorized); }
    case RefreshReply(f, tokens) =>
      if f < |s.flights| && s.flights[f].phase.Posted? { RefreshReplyIssued(s, f, tokens); }
    case Resume(r) => if r in s.requests { ResumeIssued(s, r); }
    case _ => StoreIssued(s, a);
  }

  // With every flight settled the stored session owns none of them, so its token is new.
  lemma SettledTokenIsNew(s: State, a: Step)
    requires Safe(s) && IssuedOk(s) && Posting(s, a)
    ensures s.store.refresh !in Posts(s)
  {
    forall i | 0 <= i < |s.flights| ensures s.flights[i].owner.refresh != s.store.refresh {
      assert FlightOk(s.flights[i]);
    }
  }

  lemma {:induction false} NeverReissuedPostsNewTokens(s: State, steps: seq<Step>)
    requires Safe(s) && IssuedOk(s) && NeverReissued(s, steps)
    ensures PostsNewTokens(s, steps)
    decreases |steps|
  {
    if steps != [] {
      NextSafe(s, steps[0]);
      NextIssued(s, steps[0]);
      if Posting(s, steps[0]) { SettledTokenIsNew(s, steps[0]); }
      NeverReissuedPostsNewTokens(Next(s, steps[0]), steps[1..]);
    }
  }

  lemma {:induction false} RunIssued(s: State, steps: seq<Step>)
    requires Safe(s) && IssuedOk(s) && NeverReissued(s, steps)
    ensures Safe(Run(s, steps)) && IssuedOk(Run(s, steps))
    decreases |steps|
  {
    if steps != [] {
      NextSafe(s, steps[0]);
      NextIssued(s, steps[0]);
      RunIssued(Next(s, steps[0]), steps[1..]);
    }
  }

  /**
   When no login and no refresh ever brings a refresh token a second time, no refresh token is
   posted a second time.
   */
  lemma EachTokenIsPostedOnce(stored: Session, steps: seq<Step>)
    requires NeverReissued(Init(stored), steps)
    ensures var posts := Posts(Run(Init(stored), steps));
      forall i, j :: 0 <= i < j < |posts| ==> posts[i] != posts[j]
  {
    NeverReissuedPostsNewTokens(Init(stored), steps);
    PostedOnceIff(Init(stored), steps);
  }

  function Owners(flights: seq<Flight>): set<Session> { set i | 0 <= i < |flights| :: flights[i].owner }

  lemma {:induction false} DistinctOwnersCount(flights: seq<Flight>)
    requires forall i, j | 0 <= i < j < |flights| :: flights[i].owner != flights[j].owner
    ensures |Owners(flights)| == |flights|
    decreases |flights|
  {
    if flights != [] {
      var n := |flights| - 1;
      DistinctOwnersCount(flights[..n]);
      assert Owners(flights) == Owners(flights[..n]) + {flights[n].owner};
    }
  }

  lemma {:induction false} SubsetIsSmaller<T>(a: set<T>, b: set<T>)
    requires a <= b
    ensures |a| <= |b|
    decreases |a|
  {
    if a != {} {
      var x :| x in a;
      SubsetIsSmaller(a - {x}, b - {x});
    }
  }

  // Then a request waits for others at most as often as sessions were handed out.
  lemma WaitsAreFewerThanSessions(stored: Session, steps: seq<Step>, r: nat)
    requires NeverReissued(Init(stored), steps) && r in Run(Init(stored), steps).requests
    ensures Run(Init(stored), steps).requests[r].turns <= |Run(Init(stored), steps).issued|
  {
    RunIssued(Init(stored), steps);
    EachTokenIsPostedOnce(stored, steps);
    var s := Run(Init(stored), steps);
    assert RequestOk(s.flights, s.requests[r]);
    forall i, j | 0 <= i < j < |s.flights| ensures s.flights[i].owner != s.flights[j].owner {
      assert Posts(s)[i] != Posts(s)[j];
    }
    DistinctOwnersCount(s.flights);
    SubsetIsSmaller(Owners(s.flights), s.issued);
  }

  // ----- with one that does --------------------------------------------------------------------------

  // The session comes back by a login, a request is sent under it and answered 401.
  function LoggedInAgain(s: State, t: Session, r: nat): State {
    Next(Next(Next(s, Login(t)), Start(r, false, None)), Reply(r, true))
  }

  /**
   With every flight settled, a session that comes back by a login posts its refresh token exactly
   when the last flight is not a successful refresh of that session.
   */
  lemma ReturningSessionPostsIff(s: State, t: Session, r: nat)
    requires Safe(s) && AllSettled(s) && WellFormed(t) && r !in s.requests
    ensures Posts(LoggedInAgain(s, t, r)) == Posts(s) + if LastRefreshed(s, t) then [] else [t.refresh]
  {
    var back := Next(s, Login(t));
    var sent := Next(back, Start(r, false, None));
    NextSafe(s, Login(t));
    NextSafe(back, Start(r, false, None));
    PostsIff(sent, Reply(r, true));
  }

  // How often a token was posted.
  function TimesPosted(s: State, token: Token): nat { multiset(Posts(s))[token] }

  /**
   So the token of a session that came back by a login has been posted a second time exactly when it was
   posted before and the last flight is not a successful refresh of the session.
   */
  lemma PostedAgainIff(s: State, t: Session, r: nat)
    requires Safe(s) && AllSettled(s) && WellFormed(t) && r !in s.requests
    ensures TimesPosted(LoggedInAgain(s, t, r), t.refresh) > TimesPosted(s, t.refresh) >= 1
       <==> t.refresh in Posts(s) && !LastRefreshed(s, t)
  {
    ReturningSessionPostsIff(s, t, r);
    if LastRefreshed(s, t) { assert Posts(s) + [] == Posts(s); }
    assert t.refresh in Posts(s) <==> multiset(Posts(s))[t.refresh] >= 1;
  }

  lemma RunCons(s: State, a: Step, rest: seq<Step>)
    ensures Run(s, [a] + rest) == Run(Next(s, a), rest)
  {
    assert ([a] + rest)[1..] == rest;
  }

  // A request is sent under the stored session and answered 401.
  lemma SentAndRefused(s: State, r: nat, rest: seq<Step>)
    requires r !in s.requests
    ensures Run(s, [Start(r, false, None)] + ([Reply(r, true)] + rest))
         == Run(Next(Next(s, Start(r, false, None)), Reply(r, true)), rest)
  {
    RunCons(s, Start(r, false, None), [Reply(r, true)] + rest);
    RunCons(Next(s, Start(r, false, None)), Reply(r, true), rest);
  }

  // The first flight of the session (1, 2).
  function FirstFlight(): State {
    Next(Next(Init(Session(1, 2)), Start(0, false, None)), Reply(0, true))
  }

  lemma FirstFlightIs()
    ensures FirstFlight().flights == [Flight(Session(1, 2), Posted, None)] && FirstFlight().store == Session(1, 2)
    ensures FirstFlight().requests.Keys == {0}
  {
  }

  // A second request after the flight has ended, under a session with the same refresh token.
  lemma SecondPost(s: State, flight: Flight)
    requires s.flights == [flight] && flight.outcome.Some? && s.requests.Keys == {0} && s.store.refresh == 2
    requires flight.owner.refresh == 2
    requires flight.owner == s.store ==> !flight.outcome.value.Refreshed?
    ensures Posts(Run(s, [Start(1, false, None)] + ([Reply(1, true)] + []))) == [2, 2]
  {
    SentAndRefused(s, 1, []);
  }

  /** A login that brings an old session back posts its token again. */
  lemma ReissuedTokenIsPostedTwice()
    ensures exists stored, steps :: Posts(Run(Init(stored), steps)) == [2, 2]
  {
    FirstFlightIs();
    var again := [Start(1, false, None)] + ([Reply(1, true)] + []);
    var s2 := FirstFlight();
    var s3 := Next(s2, RefreshReply(0, None));
    var s4 := Next(s3, Settle(0));
    var s5 := Next(s4, Login(Session(1, 2)));
    var rest := [RefreshReply(0, None)] + ([Settle(0)] + ([Login(Session(1, 2))] + again));
    SentAndRefused(Init(Session(1, 2)), 0, rest);
    RunCons(s2, RefreshReply(0, None), [Settle(0)] + ([Login(Session(1, 2))] + again));
    RunCons(s3, Settle(0), [Login(Session(1, 2))] + again);
    RunCons(s4, Login(Session(1, 2)), again);
    SecondPost(s5, s5.flights[0]);
  }

  predicate NoLogin(steps: seq<Step>) { forall a | a in steps :: !a.Login? }

  /** So does a refresh that hands out a new access token and keeps the refresh token, without any login. */
  lemma KeptTokenIsPostedTwice()
    ensures exists stored, steps :: NoLogin(steps) && Posts(Run(Init(stored), steps)) == [2, 2]
  {
    FirstFlightIs();
    var again := [Start(1, false, None)] + ([Reply(1, true)] + []);
    var kept := RefreshReply(0, Some(Session(3, 2)));
    var s2 := FirstFlight();
    var s3 := Next(s2, kept);
    var s4 := Next(s3, Recheck(0));
    var s5 := Next(s4, Settle(0));
    var rest := [kept] + ([Recheck(0)] + ([Settle(0)] + again));
    SentAndRefused(Init(Session(1, 2)), 0, rest);
    RunCons(s2, kept, [Recheck(0)] + ([Settle(0)] + again));
    RunCons(s3, Recheck(0), [Settle(0)] + again);
    RunCons(s4, Settle(0), again);
    SecondPost(s5, s5.flights[0]);
    var steps := [Start(0, false, None)] + ([Reply(0, true)] + rest);
    assert NoLogin(steps);
    assert Posts(Run(Init(Session(1, 2)), steps)) == [2, 2];
  }
}
