/**
 * One browser tab composed with the server: concurrent API requests, the shared mutex, the
 * transparent refresh with its single retry, and what the controllers write to the cookie jar
 * (frontend/src/lib/api/baseQueryWithReauth.ts, backend/src/modules/auth/controllers.ts).
 *
 * A state change is one continuation of one caller, one server-side database operation, or one
 * arriving response.
 */
module Tab {
  import opened Prelude
  import opened Sessions
  import opened CallPlans

  /** What a caller asked for: an authentication call, any other endpoint, or page-load hydration. */
  datatype Request = Auth(event: Event) | Other | Hydrate

  /** Effect of a response on the cookie jar. */
  datatype CookieWrite = Keep | Put(cookie: Cookie)

  /** Where a caller is; `attempt` is 1 for the request and 2 for its retry. */
  datatype Caller =
    | Waiting(req: Request)                                   // awaits the unlock before the request
    | Ready(req: Request, attempt: nat)
    | Sent(req: Request, attempt: nat)
    | Working(req: Request, attempt: nat, plan: Plan)         // the server has read
    | Answered(req: Request, attempt: nat, write: CookieWrite, unauthorized: bool)
    | RefreshWaiting(req: Request)                            // awaits the unlock in refreshInternal
    | RefreshTesting(req: Request)                            // about to test isLocked()
    | RefreshAcquiring(req: Request)
    | RefreshReady(req: Request)                              // from here to RefreshDone: holds the mutex
    | RefreshSent(req: Request, cookie: Cookie)
    | RefreshWorking(req: Request, cookie: Cookie, plan: Plan, marked: bool)
    | RefreshAnswered(req: Request, cookie: Cookie, marked: bool, setTo: Cookie, user: Option<UserId>)
    | RefreshDone(req: Request, ok: bool)
    | RefreshFollowing(req: Request)                          // another caller holds the mutex
    | Finished
    | Orphan(cookie: Cookie, rest: Option<Plan>, marked: bool)   // a refresh whose page is gone; the server goes on

  /**
   * `marked` says that a refresh has marked the row of its cookie used. `store` is the
   * signed-in user in the Redux store; `issued` are the identifiers of the refresh tokens
   * handed to this tab.
   */
  datatype State = State(
    db: Db,
    jar: Cookie,
    holder: Option<nat>,
    store: Option<UserId>,
    callers: map<nat, Caller>,
    issued: set<nat>)

  /** Endpoints whose 401 is an answer, not an expired session. */
  predicate IsCredentialEndpoint(req: Request) {
    req.Auth? && (req.event.LoginEvent? || req.event.VerifyEvent? || req.event.LogoutEvent?
                  || req.event.ForgotEvent? || req.event.ResetEvent?)
  }

  /** What the controllers write for each call other than refresh. */
  function ControllerWrite(e: Event, out: Outcome): CookieWrite {
    match e
    case LoginEvent(_, _) => if out.SessionIssued? then Put(out.cookie) else Keep
    case VerifyEvent(_, _, _, _) => if out.SessionIssued? then Put(out.cookie) else Keep
    case LogoutEvent(_) => Put(NoCookie)
    case ChangePasswordEvent(_, _, _) => if out.Done? then Put(NoCookie) else Keep
    case _ => Keep
  }

  /** The refresh controller writes the new cookie, or clears it on any error. */
  function CookieAfter(out: Outcome): Cookie {
    if out.Refreshed? then out.cookie else NoCookie
  }

  datatype Action =
    | Call(t: nat, req: Request)
    | Wake(t: nat)                          // waitForUnlock resolves
    | Send(t: nat)
    | Serve(t: nat, now: int, expired: bool)   // the server reads; `expired`: the access token is rejected
    | ServeWrite(t: nat, now: int)
    | ServeReply(t: nat)
    | ServeFail(t: nat)                     // the server gives up between two operations
    | Deliver(t: nat)
    | RefreshWake(t: nat)
    | RefreshTest(t: nat)
    | RefreshAcquire(t: nat)
    | RefreshSend(t: nat)
    | RefreshRead(t: nat, now: int)
    | RefreshWrite(t: nat, now: int)
    | RefreshReply(t: nat)
    | RefreshFail(t: nat)                   // an exception in the server: the controller clears the cookie
    | RefreshDeliver(t: nat)
    | RefreshRelease(t: nat)
    | RefreshFollow(t: nat)
    | CookieExpires
    | Reload                                // the page is left or loaded anew, at any moment
    | OrphanRead(t: nat, now: int)
    | OrphanWrite(t: nat, now: int)
    | Others(now: int, event: Event)        // a call of another client that is one operation
    | OthersWrite(now: int, plan: Plan)     // any writing of any other client, whenever it read

  /** Other clients never present a token of this tab. */
  predicate Foreign(p: Plan, issued: set<nat>) {
    p.Mark? ==> p.jti !in issued
  }

  function CallerOf(a: Action): Option<nat> {
    if a.CookieExpires? || a.Reload? || a.OrphanRead? || a.OrphanWrite? || a.Others? || a.OthersWrite? then None
    else Some(a.t)
  }

  /** A refresh request is between being sent and being applied. */
  predicate InFlight(c: Caller) {
    c.RefreshSent? || c.RefreshWorking? || c.RefreshAnswered?
  }

  ghost predicate Quiet(s: State) {
    forall t :: t in s.callers ==> !InFlight(s.callers[t])
  }

  predicate Enabled(s: State, a: Action) {
    match a
    case Call(t, req) => t !in s.callers && (req.Auth? ==> !req.event.RefreshEvent?)
    case CookieExpires => true
    case Reload => true
    case OrphanRead(t, _) => t in s.callers && s.callers[t].Orphan? && s.callers[t].rest.None?
    case OrphanWrite(t, _) =>
      t in s.callers && s.callers[t].Orphan? && s.callers[t].rest.Some? && !s.callers[t].rest.value.Answer?
    case Others(_, e) => IsWhole(e)
    case OthersWrite(_, p) => Foreign(p, s.issued)
    case Wake(t) => t in s.callers && s.callers[t].Waiting? && s.holder.None?
    case Send(t) => t in s.callers && s.callers[t].Ready?
    case Serve(t, _, _) => t in s.callers && s.callers[t].Sent?
    case ServeWrite(t, _) => t in s.callers && s.callers[t].Working? && !s.callers[t].plan.Answer?
    case ServeReply(t) => t in s.callers && s.callers[t].Working? && s.callers[t].plan.Answer?
    case ServeFail(t) => t in s.callers && (s.callers[t].Sent? || s.callers[t].Working?)
    case Deliver(t) => t in s.callers && s.callers[t].Answered?
    case RefreshWake(t) => t in s.callers && s.callers[t].RefreshWaiting? && s.holder.None?
    case RefreshTest(t) => t in s.callers && s.callers[t].RefreshTesting?
    case RefreshAcquire(t) => t in s.callers && s.callers[t].RefreshAcquiring? && s.holder.None?
    case RefreshSend(t) => t in s.callers && s.callers[t].RefreshReady?
    case RefreshRead(t, _) => t in s.callers && s.callers[t].RefreshSent?
    case RefreshWrite(t, _) => t in s.callers && s.callers[t].RefreshWorking? && !s.callers[t].plan.Answer?
    case RefreshReply(t) => t in s.callers && s.callers[t].RefreshWorking? && s.callers[t].plan.Answer?
    case RefreshFail(t) => t in s.callers && (s.callers[t].RefreshSent? || s.callers[t].RefreshWorking?)
    case RefreshDeliver(t) => t in s.callers && s.callers[t].RefreshAnswered?
    case RefreshRelease(t) => t in s.callers && s.callers[t].RefreshDone?
    case RefreshFollow(t) => t in s.callers && s.callers[t].RefreshFollowing? && s.holder.None?
  }

  function Move(s: State, t: nat, c: Caller): State {
    s.(callers := s.callers[t := c])
  }

  /** A logout presents the cookie the jar holds when it is sent. */
  function Filled(req: Request, jar: Cookie): Request {
    if req.Auth? && req.event.LogoutEvent? then Auth(LogoutEvent(jar)) else req
  }

  /** The refresh token a finished call hands out. */
  function TokensOf(p: Plan): set<nat> {
    if p.Answer? && (p.out.SessionIssued? || p.out.Refreshed?) && p.out.cookie.Token? then {p.out.cookie.jti} else {}
  }

  /** The server starts on a request other than refresh. */
  function ServeRequest(s: State, t: nat, now: int, expired: bool): State
    requires t in s.callers && s.callers[t].Sent?
  {
    var Sent(req, attempt) := s.callers[t];
    if !req.Auth? || (expired && !IsCredentialEndpoint(req)) then Move(s, t, Answered(req, attempt, Keep, expired))
    else if IsWhole(req.event) then
      var effect := Step(s.db, now, req.event);
      Move(s, t, Working(req, attempt, Answer(effect.out))).(db := effect.db)
    else Move(s, t, Working(req, attempt, Read(s.db, now, req.event)))
  }

  /** The pages sign the store in after a login and out after a logout or password change. */
  function StoreAfter(write: CookieWrite, store: Option<UserId>): Option<UserId> {
    if write.Keep? then store
    else if write.cookie.Token? then Some(write.cookie.sub)
    else None
  }

  /** A response arrives: the jar takes its cookie, then the caller looks at the status. */
  function DeliverResponse(s: State, t: nat): State
    requires t in s.callers && s.callers[t].Answered?
  {
    var Answered(req, attempt, write, unauthorized) := s.callers[t];
    var jar := if write.Put? then write.cookie else s.jar;
    if unauthorized && !IsCredentialEndpoint(req) then
      if attempt == 1 then Move(s, t, RefreshWaiting(req)).(jar := jar)
      else Move(s, t, Finished).(jar := jar, store := None)
    else
      Move(s, t, Finished).(jar := jar, store := StoreAfter(write, s.store))
  }

  /** After a refresh: retry the request once if there is a session, and there is a request. */
  function Resume(req: Request, session: bool): Caller {
    if session && !req.Hydrate? then Ready(req, 2) else Finished
  }

  function Do(s: State, a: Action): State
    requires Enabled(s, a)
  {
    match a
    case Call(t, req) => Move(s, t, if req.Hydrate? then RefreshWaiting(req) else Waiting(req))
    case Wake(t) => Move(s, t, Ready(s.callers[t].req, 1))
    case Send(t) => Move(s, t, Sent(Filled(s.callers[t].req, s.jar), s.callers[t].attempt))
    case Serve(t, now, expired) => ServeRequest(s, t, now, expired)
    case ServeWrite(t, now) =>
      var Working(req, attempt, plan) := s.callers[t];
      var written := Write(s.db, now, plan);
      Move(s, t, Working(req, attempt, written.plan)).(db := written.db, issued := s.issued + TokensOf(written.plan))
    case ServeReply(t) =>
      var Working(req, attempt, plan) := s.callers[t];
      var write := if req.Auth? then ControllerWrite(req.event, plan.out) else Keep;
      Move(s, t, Answered(req, attempt, write, plan.out == Rejected(Unauthorized)))
    case ServeFail(t) => Move(s, t, Answered(s.callers[t].req, s.callers[t].attempt, Keep, false))
    case Deliver(t) => DeliverResponse(s, t)
    case RefreshWake(t) => Move(s, t, RefreshTesting(s.callers[t].req))
    case RefreshTest(t) =>
      Move(s, t, if s.holder.None? then RefreshAcquiring(s.callers[t].req) else RefreshFollowing(s.callers[t].req))
    case RefreshAcquire(t) => Move(s, t, RefreshReady(s.callers[t].req)).(holder := Some(t))
    case RefreshSend(t) => Move(s, t, RefreshSent(s.callers[t].req, s.jar))
    case RefreshRead(t, now) =>
      var RefreshSent(req, cookie) := s.callers[t];
      Move(s, t, RefreshWorking(req, cookie, ReadRefresh(s.db, now, cookie), false))
    case RefreshWrite(t, now) =>
      var RefreshWorking(req, cookie, plan, marked) := s.callers[t];
      var written := Write(s.db, now, plan);
      Move(s, t, RefreshWorking(req, cookie, written.plan, marked || Marks(s.db, plan)))
      .(db := written.db, issued := s.issued + TokensOf(written.plan))
    case RefreshReply(t) =>
      var RefreshWorking(req, cookie, plan, marked) := s.callers[t];
      var user := if plan.out.Refreshed? then Some(plan.out.user) else None;
      Move(s, t, RefreshAnswered(req, cookie, marked, CookieAfter(plan.out), user))
    case RefreshFail(t) =>
      var marked := s.callers[t].RefreshWorking? && s.callers[t].marked;
      Move(s, t, RefreshAnswered(s.callers[t].req, s.callers[t].cookie, marked, NoCookie, None))
    case RefreshDeliver(t) =>
      Move(s, t, RefreshDone(s.callers[t].req, s.callers[t].user.Some?))
      .(jar := s.callers[t].setTo, store := s.callers[t].user)
    case RefreshRelease(t) => Move(s, t, Resume(s.callers[t].req, s.callers[t].ok)).(holder := None)
    case RefreshFollow(t) => Move(s, t, Resume(s.callers[t].req, s.store.Some?))
    case CookieExpires => s.(jar := NoCookie)
    case Reload => Reloaded(s)
    case OrphanRead(t, now) =>
      var Orphan(cookie, _, marked) := s.callers[t];
      Move(s, t, Orphan(cookie, Some(ReadRefresh(s.db, now, cookie)), marked))
    case OrphanWrite(t, now) =>
      var Orphan(cookie, rest, marked) := s.callers[t];
      var written := Write(s.db, now, rest.value);
      Move(s, t, Orphan(cookie, Some(written.plan), marked || Marks(s.db, rest.value)))
      .(db := written.db, issued := s.issued + TokensOf(written.plan))
    case Others(now, e) => s.(db := Step(s.db, now, e).db)
    case OthersWrite(now, p) => s.(db := Write(s.db, now, p).db)
  }

  /** The plan's next writing marks a row used. */
  predicate Marks(db: Db, p: Plan) { p.Mark? && p.jti in db.rows }

  /** The server carries on with a refresh whose page is gone; its response reaches nobody. */
  function Abandoned(c: Caller): Caller {
    match c
    case RefreshSent(_, cookie) => Orphan(cookie, None, false)
    case RefreshWorking(_, cookie, plan, marked) => Orphan(cookie, Some(plan), marked)
    case RefreshAnswered(_, cookie, marked, _, _) => Orphan(cookie, Some(Answer(Done)), marked)
    case Orphan(_, _, _) => c
    case _ => Finished
  }

  /** Nothing of the page is left but the jar. Other requests go on as those of any other client. */
  function Reloaded(s: State): State {
    s.(holder := None, store := None, callers := map t | t in s.callers :: Abandoned(s.callers[t]))
  }

  /** No cookie, or a token of this tab whose row has not been used. */
  predicate Live(s: State, c: Cookie) {
    c.NoCookie? || (c.Token? && c.jti in s.issued && c.jti in s.db.rows && !s.db.rows[c.jti].isUsed)
  }

  /** A freshly loaded page, whatever sessions others have: nothing under way, a live cookie or none. */
  ghost predicate Init(s: State) {
    && s.holder == None && s.callers == map[] && Live(s, s.jar)
    && s.issued <= s.db.rows.Keys
    && forall j :: j in s.db.rows ==> j < s.db.nextJti
  }

  ghost predicate Runs(s: State, actions: seq<Action>)
    decreases |actions|
  {
    actions == [] || (Enabled(s, actions[0]) && Runs(Do(s, actions[0]), actions[1..]))
  }

  ghost function After(s: State, actions: seq<Action>): State
    requires Runs(s, actions)
    decreases |actions|
  {
    if actions == [] then s else After(Do(s, actions[0]), actions[1..])
  }
}
