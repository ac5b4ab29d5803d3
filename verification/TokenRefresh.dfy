/**
 Token refresh of the mini-program: requests, one shared session, one refresh flight at a time.

 JavaScript runs each piece of code between two awaits without interruption; such a piece is one
 step here, and any enabled piece may run next. Logins and logouts arrive at any time, also from
 store subscribers that run inside a store update.
 */
module TokenRefresh {
  import opened Wrappers

  // 0 stands for the empty string.
  type Token = nat

  datatype Session = Session(access: Token, refresh: Token)

  const LOGGED_OUT := Session(0, 0)

  datatype Outcome =
    | Refreshed(owner: Session, session: Session)
    | Failed(owner: Session)
    | Stale(owner: Session)

  // refreshAccessToken: posted, session set but not yet checked again, returned. `outcome` is set by
  // a later callback, and only then does the promise resolve.
  datatype Phase = Posted | Rotated(session: Session) | Returned(result: Outcome)

  datatype Flight = Flight(owner: Session, phase: Phase, outcome: Option<Outcome>)

  datatype Pc =
    | Sent
    | AwaitFlight(flight: nat)        // the promise of this flight
    | AwaitTurn(flight: nat)          // another owner's flight; refreshFor runs again after it
    | AwaitResult(result: Outcome)    // an already resolved promise
    | Answered
    | AuthExpired

  // `first`, `sends` and `turns` are history: the session of the first send, how often the request
  // was sent, how often it waited for a foreign flight.
  datatype Request = Request(
    session: Session, skipAuth: bool, retrying: bool, pc: Pc, first: Session, sends: nat, turns: nat)

  // The last flight is the one refreshFlight points to. `issued` is history: all sessions ever
  // handed out by a login or a refresh.
  datatype State = State(store: Session, flights: seq<Flight>, requests: map<nat, Request>, issued: set<Session>)

  // ----- refreshFor --------------------------------------------------------------------------------

  // The state after refreshFor(owner) and where its caller waits.
  function RefreshFor(s: State, owner: Session): (State, Pc) {
    var n := |s.flights|;
    if n > 0 && s.flights[n - 1].owner == owner && JoinsFlight(s.flights[n - 1], s.store) then (s, AwaitFlight(n - 1))
    else if n > 0 && s.flights[n - 1].outcome.None? && s.flights[n - 1].owner != owner then (s, AwaitTurn(n - 1))
    else if s.store != owner then (s, AwaitResult(Stale(owner)))
    else (s.(flights := s.flights + [Flight(owner, Posted, None)]), AwaitFlight(n))
  }

  // A settled flight is reused unless it failed and its owner's session is back in the store.
  predicate JoinsFlight(f: Flight, store: Session) {
    f.outcome.None? || f.outcome.value.Refreshed? || store != f.owner
  }

  // ----- steps -----------------------------------------------------------------------------------

  datatype Step =
    | Login(session: Session)
    | Logout
    | Start(r: nat, skipAuth: bool, expected: Option<Session>)
    | Reply(r: nat, unauthorized: bool)              // the answer to a request, or its failure
    | RefreshReply(f: nat, tokens: Option<Session>)  // the answer to a refresh; None: any failure
    | Recheck(f: nat)
    | Settle(f: nat)
    | Resume(r: nat)

  function Put(s: State, r: nat, req: Request): State { s.(requests := s.requests[r := req]) }

  function PutFlight(s: State, f: nat, flight: Flight): State
    requires f < |s.flights|
  { s.(flights := s.flights[f := flight]) }

  function StartStep(s: State, r: nat, skipAuth: bool, expected: Option<Session>): State {
    if r in s.requests then s
    else if expected.Some? && s.store != expected.value then
      Put(s, r, Request(s.store, skipAuth, false, AuthExpired, s.store, 0, 0))
    else Put(s, r, Request(s.store, skipAuth, false, Sent, s.store, 1, 0))
  }

  function EnterRefresh(s: State, r: nat): State
    requires r in s.requests
  {
    var req := s.requests[r];
    var (t, pc) := RefreshFor(s, req.session);
    Put(t, r, req.(pc := pc, turns := if pc.AwaitTurn? then req.turns + 1 else req.turns))
  }

  function ReplyStep(s: State, r: nat, unauthorized: bool): State
    requires r in s.requests && s.requests[r].pc.Sent?
  {
    var req := s.requests[r];
    if !unauthorized || req.skipAuth then Put(s, r, req.(pc := Answered))
    else if req.retrying || req.session.refresh == 0 then
      Put(s, r, req.(pc := AuthExpired)).(store := if s.store == req.session then LOGGED_OUT else s.store)
    else EnterRefresh(s, r)
  }

  predicate WellFormed(tokens: Session) { tokens.access != 0 && tokens.refresh != 0 }

  function RefreshReplyStep(s: State, f: nat, tokens: Option<Session>): State
    requires f < |s.flights| && s.flights[f].phase.Posted?
  {
    var flight := s.flights[f];
    match tokens
    case Some(tokens_) =>
      var s1 := s.(issued := s.issued + {tokens_});
      if s.store != flight.owner then PutFlight(s1, f, flight.(phase := Returned(Stale(flight.owner))))
      else PutFlight(s1, f, flight.(phase := Rotated(tokens_))).(store := tokens_)
    case None =>
      if s.store != flight.owner then PutFlight(s, f, flight.(phase := Returned(Stale(flight.owner))))
      else PutFlight(s, f, flight.(phase := Returned(Failed(flight.owner)))).(store := LOGGED_OUT)
  }

  function RecheckStep(s: State, f: nat): State
    requires f < |s.flights| && s.flights[f].phase.Rotated?
  {
    var flight := s.flights[f];
    var kept := flight.phase.session;
    PutFlight(s, f, flight.(phase := Returned(
      if s.store == kept then Refreshed(flight.owner, kept) else Stale(flight.owner))))
  }

  // What apiRequest does with the outcome of its refresh: send again, or give up.
  function Deliver(s: State, r: nat, out: Outcome): State
    requires r in s.requests
  {
    var req := s.requests[r];
    if out.Refreshed? && out.owner == req.session && s.store == out.session then
      Put(s, r, req.(session := s.store, retrying := true, pc := Sent, sends := req.sends + 1))
    else Put(s, r, req.(pc := AuthExpired))
  }

  function ResumeStep(s: State, r: nat): State
    requires r in s.requests
  {
    match s.requests[r].pc
    case AwaitFlight(f) =>
      if f < |s.flights| && s.flights[f].outcome.Some? then Deliver(s, r, s.flights[f].outcome.value) else s
    case AwaitTurn(f) =>
      if f < |s.flights| && s.flights[f].outcome.Some? then EnterRefresh(s, r) else s
    case AwaitResult(out) => Deliver(s, r, out)
    case _ => s
  }

  // A step that is not possible changes nothing.
  function Next(s: State, a: Step): State {
    match a
    case Login(session) => if WellFormed(session) then s.(store := session, issued := s.issued + {session}) else s
    case Logout => s.(store := LOGGED_OUT)
    case Start(r, skipAuth, expected) => StartStep(s, r, skipAuth, expected)
    case Reply(r, unauthorized) =>
      if r in s.requests && s.requests[r].pc.Sent? then ReplyStep(s, r, unauthorized) else s
    case RefreshReply(f, tokens) =>
      if f < |s.flights| && s.flights[f].phase.Posted? && (tokens.Some? ==> WellFormed(tokens.value)) then
        RefreshReplyStep(s, f, tokens)
      else s
    case Recheck(f) => if f < |s.flights| && s.flights[f].phase.Rotated? then RecheckStep(s, f) else s
    case Settle(f) =>
      if f < |s.flights| && s.flights[f].phase.Returned? then
        PutFlight(s, f, s.flights[f].(outcome := Some(s.flights[f].phase.result)))
      else s
    case Resume(r) => if r in s.requests then ResumeStep(s, r) else s
  }

  function Run(s: State, steps: seq<Step>): State
    decreases |steps|
  {
    if steps == [] then s else Run(Next(s, steps[0]), steps[1..])
  }

  // The store as hydrated from storage; nothing requested yet.
  function Init(stored: Session): State { State(stored, [], map[], {stored}) }

  // The refresh tokens posted so far, one per flight.
  function Posts(s: State): seq<Token> {
    seq(|s.flights|, i requires 0 <= i < |s.flights| => s.flights[i].owner.refresh)
  }
}
