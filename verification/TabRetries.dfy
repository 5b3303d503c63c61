/**
 * What becomes of each request of the tab: how often it is sent, and what its responses do to
 * the jar and the store, in terms of what the server answered
 * (frontend/src/lib/api/baseQueryWithReauth.ts).
 */
module TabRetries {
  import opened Prelude
  import opened Sessions
  import opened CallPlans
  import opened Tab
  import SessionProofs
  import TabProofs

  /**
   * What was observed of one caller: its request; the server's answers to the first and the
   * second attempt, true if it was 401; whether there was a session when the refresh it made
   * or followed was over; and the outcome behind the answer it waits for, if a call was served.
   */
  datatype History = History(
    req: Option<Request>,
    first: Option<bool>,
    second: Option<bool>,
    session: Option<bool>,
    outcome: Option<Outcome>)

  const NOTHING := History(None, None, None, None, None)

  function Noted(h: History, attempt: nat, refused: bool, outcome: Option<Outcome>): History {
    if attempt == 1 then h.(first := Some(refused), outcome := outcome)
    else h.(second := Some(refused), outcome := outcome)
  }

  /** What one action shows of the caller. */
  function Observe(s: State, a: Action, t: nat, h: History): History
    requires Enabled(s, a)
  {
    if CallerOf(a) != Some(t) then h
    else match a
      case Call(_, req) => h.(req := Some(req))
      case Send(_) => h.(outcome := None)
      case Serve(_, _, expired) =>
        // An endpoint outside authentication only looks at the access token; so does a call that needs one.
        var Sent(req, attempt) := s.callers[t];
        if req.Auth? && (!expired || IsCredentialEndpoint(req)) then h else Noted(h, attempt, expired, None)
      case ServeReply(_) =>
        var Working(_, attempt, plan) := s.callers[t];
        Noted(h, attempt, plan.out == Rejected(Unauthorized), Some(plan.out))
      case ServeFail(_) => Noted(h, s.callers[t].attempt, false, None)
      case RefreshReply(_) =>
        h.(session := Some(s.callers[t].plan.out.Refreshed?), outcome := Some(s.callers[t].plan.out))
      case RefreshFail(_) => h.(session := Some(false), outcome := None)
      case RefreshFollow(_) => h.(session := Some(s.store.Some?))
      case _ => h
  }

  ghost function Observed(s: State, actions: seq<Action>, t: nat, h: History): History
    requires Runs(s, actions)
    decreases |actions|
  {
    if actions == [] then h else Observed(Do(s, actions[0]), actions[1..], t, Observe(s, actions[0], t, h))
  }

  /** The first attempt was answered 401, by an endpoint for which that means an expired session. */
  predicate WasRefused(h: History) {
    h.req.Some? && h.first == Some(true) && !IsCredentialEndpoint(h.req.value)
  }

  predicate WasRenewed(h: History) { h.session == Some(true) }

  /* ── Where a caller with this history can be ────────────────────────── */

  /** The same request; a logout has been filled with the cookie it presents. */
  predicate SameRequest(req: Request, asked: Option<Request>) {
    && asked.Some?
    && (req == asked.value ||
      (req.Auth? && req.event.LogoutEvent? && asked.value.Auth? && asked.value.event.LogoutEvent?))
  }

  predicate FirstPending(h: History) { h.first.None? && h.second.None? && h.session.None? }

  predicate IsRetrying(h: History) { WasRefused(h) && WasRenewed(h) && !h.req.value.Hydrate? }

  /** What the jar is told when the call came out like this. */
  function WriteFor(req: Request, outcome: Option<Outcome>): CookieWrite {
    if !req.Auth? || outcome.None? then Keep
    else if outcome.value.SessionIssued? &&
      (req.event.LoginEvent? || req.event.VerifyEvent?) then Put(outcome.value.cookie)
    else if req.event.LogoutEvent? || (req.event.ChangePasswordEvent? && outcome.value.Done?) then Put(NoCookie)
    else Keep
  }

  /** A refresh is made for a hydration, or after the first attempt was refused. */
  predicate RefreshesFor(h: History) {
    h.req.Some? && h.second.None? && if h.req.value.Hydrate? then h.first.None? else WasRefused(h)
  }

  predicate StartsSessions(req: Request) { req.Auth? && (req.event.LoginEvent? || req.event.VerifyEvent?) }

  /** Only the steps of a login start a session, and then they hand out a token. */
  predicate PlanSuits(req: Request, plan: Plan) {
    match plan
    case Start(_, _) => StartsSessions(req)
    case Spend(_, _, _) => StartsSessions(req)
    case Answer(out) => out.SessionIssued? ==> StartsSessions(req) && out.cookie.Token?
    case _ => true
  }

  lemma ReadSuits(db: Db, now: int, e: Event)
    ensures PlanSuits(Auth(e), Read(db, now, e))
    ensures IsWhole(e) ==> PlanSuits(Auth(e), Answer(Step(db, now, e).out))
  {
  }

  lemma WriteSuits(db: Db, now: int, req: Request, plan: Plan)
    requires PlanSuits(req, plan)
    ensures PlanSuits(req, Write(db, now, plan).plan)
  {
  }

  predicate PlaceFits(c: Caller, h: History) {
    match c
    case Waiting(req) => SameRequest(req, h.req) && !req.Hydrate? && FirstPending(h)
    case Ready(req, attempt) => OnAttempt(req, attempt, h)
    case Sent(req, attempt) => OnAttempt(req, attempt, h)
    case Working(req, attempt, plan) => OnAttempt(req, attempt, h) && PlanSuits(req, plan)
    case Answered(req, attempt, write, unauthorized) =>
      && (h.outcome.Some? ==>
            PlanSuits(req, Answer(h.outcome.value)) && unauthorized == (h.outcome.value == Rejected(Unauthorized)))
      && SameRequest(req, h.req) && !req.Hydrate? && write == WriteFor(req, h.outcome)
      && if attempt == 1 then h.first == Some(unauthorized) && h.second.None? && h.session.None?
         else attempt == 2 && IsRetrying(h) && h.second == Some(unauthorized)
    case RefreshAnswered(req, _, _, setTo, user) =>
      && SameRequest(req, h.req) && RefreshesFor(h) && h.session == Some(user.Some?)
      && (if user.Some?
          then h.outcome == Some(Refreshed(user.value, setTo))
          else setTo.NoCookie? && (h.outcome.Some? ==> !h.outcome.value.Refreshed?))
    case RefreshDone(req, ok) => SameRequest(req, h.req) && RefreshesFor(h) && h.session == Some(ok)
    case Finished => IsOver(h)
    case Orphan(_, _, _) => false
    case _ => SameRequest(c.req, h.req) && RefreshesFor(h) && h.session.None?
  }

  predicate OnAttempt(req: Request, attempt: nat, h: History) {
    && SameRequest(req, h.req) && !req.Hydrate?
    && if attempt == 1 then FirstPending(h) else attempt == 2 && IsRetrying(h) && h.second.None?
  }

  /** Nothing more is to be done for the request. */
  predicate IsOver(h: History) {
    && h.req.Some?
    && if h.req.value.Hydrate? then h.session.Some?
       else if !WasRefused(h) then h.first.Some?
       else h.session.Some? && (h.session.value ==> h.second.Some?)
  }

  /** How often the request has been sent, by where its caller is. */
  function SendsAt(c: Caller, h: History): nat {
    match c
    case Waiting(_) => 0
    case Ready(_, attempt) => if attempt == 1 then 0 else 1
    case Sent(_, attempt) => attempt
    case Working(_, attempt, _) => attempt
    case Answered(_, attempt, _, _) => attempt
    case Finished => if h.req.Some? && h.req.value.Hydrate? then 0 else if IsRetrying(h) then 2 else 1
    case _ => if h.req.Some? && h.req.value.Hydrate? then 0 else 1
  }

  /** The caller is where its history says, and its request was sent that often. */
  predicate Fits(s: State, t: nat, h: History, sends: nat) {
    if t in s.callers then PlaceFits(s.callers[t], h) && sends == SendsAt(s.callers[t], h)
    else h == NOTHING && sends == 0
  }

  lemma OthersKeepFit(s: State, a: Action, t: nat, h: History, sends: nat)
    requires Enabled(s, a) && !a.Reload? && CallerOf(a) != Some(t) && Fits(s, t, h, sends)
    ensures Fits(Do(s, a), t, Observe(s, a, t, h), sends) && a != Send(t)
  {
    hide Write, Step, Read, ReadRefresh, SendsAt, OnAttempt, RefreshesFor, IsOver, WriteFor;
  }

  lemma RequestStepFits(s: State, a: Action, t: nat, h: History, sends: nat)
    requires Enabled(s, a) && CallerOf(a) == Some(t) && Fits(s, t, h, sends)
    requires a.Call? || a.Wake? || a.Send? || a.Serve? || a.ServeWrite? || a.ServeReply? || a.ServeFail? || a.Deliver?
    ensures Fits(Do(s, a), t, Observe(s, a, t, h), sends + if a.Send? then 1 else 0)
  {
    hide Write, Step, Read, ReadRefresh, Reloaded;
    if a.Serve? && s.callers[t].req.Auth? { ReadSuits(s.db, a.now, s.callers[t].req.event); }
    if a.ServeWrite? { WriteSuits(s.db, a.now, s.callers[t].req, s.callers[t].plan); }
  }

  /** Up to the server's answer. */
  lemma RefreshGoingFits(s: State, a: Action, t: nat, h: History, sends: nat)
    requires Enabled(s, a) && CallerOf(a) == Some(t) && Fits(s, t, h, sends)
    requires a.RefreshWake? || a.RefreshTest? || a.RefreshAcquire? || a.RefreshSend? || a.RefreshRead? ||
      a.RefreshWrite?
    ensures Fits(Do(s, a), t, Observe(s, a, t, h), sends)
  {
    hide Write, Step, Read, ReadRefresh, Reloaded, ServeRequest, DeliverResponse, Resume, OnAttempt, IsOver, WriteFor,
      RefreshesFor;
  }

  /** From that answer until the response is taken. */
  lemma RefreshAnsweredFits(s: State, a: Action, t: nat, h: History, sends: nat)
    requires Enabled(s, a) && CallerOf(a) == Some(t) && Fits(s, t, h, sends)
    requires a.RefreshReply? || a.RefreshFail? || a.RefreshDeliver?
    ensures Fits(Do(s, a), t, Observe(s, a, t, h), sends)
  {
    hide Write, Step, Read, ReadRefresh, Reloaded, ServeRequest, DeliverResponse, WriteFor, Resume, OnAttempt, IsOver;
  }

  /** The refresh, or the one it followed, is over. */
  lemma RefreshOverFits(s: State, a: Action, t: nat, h: History, sends: nat)
    requires Enabled(s, a) && CallerOf(a) == Some(t) && Fits(s, t, h, sends)
    requires a.RefreshRelease? || a.RefreshFollow?
    ensures Fits(Do(s, a), t, Observe(s, a, t, h), sends)
  {
    hide Write, Step, Read, ReadRefresh, Reloaded, ServeRequest, DeliverResponse, WriteFor;
  }

  /** The page is not left or loaded anew. */
  predicate PageStays(actions: seq<Action>) {
    forall i :: 0 <= i < |actions| ==> !actions[i].Reload?
  }

  lemma {:induction false} RunFits(s: State, actions: seq<Action>, t: nat, h: History, sends: nat)
    requires Runs(s, actions) && PageStays(actions) && Fits(s, t, h, sends)
    ensures Fits(After(s, actions), t, Observed(s, actions, t, h), sends + TabProofs.SendsOf(actions, t))
    decreases |actions|
  {
    hide Do, Enabled, Observe, Fits;
    if actions != [] {
      var a := actions[0];
      assert !a.Reload?;
      var h' := Observe(s, a, t, h);
      var sent := sends + if a == Send(t) then 1 else 0;
      if CallerOf(a) != Some(t) {
        OthersKeepFit(s, a, t, h, sends);
      } else if a.Call? || a.Wake? || a.Send? || a.Serve? || a.ServeWrite? || a.ServeReply? || a.ServeFail?
        || a.Deliver?
      {
        RequestStepFits(s, a, t, h, sends);
      } else if a.RefreshReply? || a.RefreshFail? || a.RefreshDeliver? {
        RefreshAnsweredFits(s, a, t, h, sends);
      } else if a.RefreshRelease? || a.RefreshFollow? {
        RefreshOverFits(s, a, t, h, sends);
      } else {
        RefreshGoingFits(s, a, t, h, sends);
      }
      RunFits(Do(s, a), actions[1..], t, h', sent);
    }
  }

  /* ── Main results ───────────────────────────────────────────────────── */

  /**
   * Over every run of the machine in which the page stays, for a caller that begins in it:
   * its request is sent a second time only if its first attempt was answered 401 by an
   * endpoint for which that means an expired session, and there was a session when the refresh
   * it made or followed was over. A caller that is finished has sent its request once, twice
   * exactly in that case, and never for a hydration.
   */
  lemma RequestIsRetriedExactlyIfRenewed(s: State, actions: seq<Action>, t: nat)
    requires Runs(s, actions) && PageStays(actions) && t !in s.callers && t in After(s, actions).callers
    ensures var h, sends := Observed(s, actions, t, NOTHING), TabProofs.SendsOf(actions, t);
      && h.req.Some?
      && (sends >= 2 ==> WasRefused(h) && WasRenewed(h) && !h.req.value.Hydrate?)
      && (After(s, actions).callers[t].Finished? ==>
            sends == if h.req.value.Hydrate? then 0 else if WasRefused(h) && WasRenewed(h) then 2 else 1)
  {
    hide Do, Observe, Observed;
    RunFits(s, actions, t, NOTHING, 0);
  }

  /**
   * And while that case holds and the second sending is still to come, all the caller can do
   * is go on to it: once its refresh is over, that sending is its next step and is possible.
   */
  lemma RenewedCallerSendsNext(s: State, actions: seq<Action>, t: nat, a: Action)
    requires Runs(s, actions) && PageStays(actions) && t !in s.callers
    requires var h := Observed(s, actions, t, NOTHING); WasRefused(h) && WasRenewed(h) && !h.req.value.Hydrate?
    requires TabProofs.SendsOf(actions, t) < 2
    ensures var end := After(s, actions);
      && t in end.callers
      && (Enabled(end, a) && CallerOf(a) == Some(t) ==> a in {RefreshDeliver(t), RefreshRelease(t), Send(t)})
      && (!HoldsRefresh(end.callers[t]) ==> Enabled(end, Send(t)))
      && (!HoldsRefresh(end.callers[t]) && Enabled(end, a) && CallerOf(a) == Some(t) ==> a == Send(t))
  {
    hide Do, Observe, Observed;
    RunFits(s, actions, t, NOTHING, 0);
  }

  /** The response of its refresh has not been taken, or the mutex not been released. */
  predicate HoldsRefresh(c: Caller) { c.RefreshAnswered? || c.RefreshDone? }

  /**
   * What an arriving response does. A login or second step that started a session puts its
   * cookie into the jar and signs its user in; a logout, or an accepted change of password,
   * empties the jar and signs out; a retry that is refused again signs out and leaves the jar;
   * nothing else touches either.
   */
  lemma ResponseSignsInAndOut(s: State, actions: seq<Action>, t: nat)
    requires Runs(s, actions) && PageStays(actions) && t !in s.callers
    requires Enabled(After(s, actions), Deliver(t))
    ensures var end, h := After(s, actions), Observed(s, actions, t, NOTHING);
      var after, out := Do(end, Deliver(t)), h.outcome;
      h.req.Some? && var req := h.req.value;
      if req.Auth? && (req.event.LoginEvent? || req.event.VerifyEvent?) && out.Some? && out.value.SessionIssued?
      then out.value.cookie.Token? && after.jar == out.value.cookie && after.store == Some(out.value.cookie.sub)
      else if req.Auth? && out.Some? && (req.event.LogoutEvent? || (req.event.ChangePasswordEvent? && out.value.Done?))
      then after.jar == NoCookie && after.store == None
      else if h.second == Some(true) && !IsCredentialEndpoint(req) then after.jar == end.jar && after.store == None
      else after.jar == end.jar && after.store == end.store
  {
    RunFits(s, actions, t, NOTHING, 0);
  }

  /**
   * What the response of a refresh does: a granted one puts the cookie it carries into the jar
   * and signs its user in, every other one empties the jar and signs out.
   */
  lemma RefreshSignsInAndOut(s: State, actions: seq<Action>, t: nat)
    requires Runs(s, actions) && PageStays(actions) && t !in s.callers
    requires Enabled(After(s, actions), RefreshDeliver(t))
    ensures var h, after := Observed(s, actions, t, NOTHING), Do(After(s, actions), RefreshDeliver(t));
      if WasRenewed(h)
      then h.outcome.Some? && h.outcome.value.Refreshed? && after.jar == h.outcome.value.cookie
           && after.store == Some(h.outcome.value.user)
      else after.jar == NoCookie && after.store == None
  {
    RunFits(s, actions, t, NOTHING, 0);
  }

  /* ── A refresh and a logout from end to end ─────────────────────────── */

  /**
   * Undisturbed, a caller that holds the mutex over a live jar presents the jar's cookie, and
   * within the token's life the server marks its row.
   */
  lemma RefreshMarksTheJarsRow(s: State, t: nat, at: int, now: int)
    requires t in s.callers && s.callers[t].RefreshReady? && SessionProofs.IsUnspent(s.db, s.jar, at)
    requires at <= now <= at + s.db.ttlSec * 1000 && now / 1000 < at / 1000 + s.db.ttlSec
    ensures var marked := Do(Do(Do(s, RefreshSend(t)), RefreshRead(t, now)), RefreshWrite(t, now));
      && marked == s.(db := MarkUsed(s.db, now, s.jar.jti), callers := marked.callers)
      && marked.callers == s.callers[t :=
           RefreshWorking(s.callers[t].req, s.jar, Succeed(s.jar.jti, s.jar.sub, s.jar.family), true)]
  {
    hide Step, Reloaded, ServeRequest, DeliverResponse;
    assert Decide(s.db, now, s.jar) == Rotate(s.jar.jti, s.db.rows[s.jar.jti]);
  }

  /** The server stores the successor and answers with its cookie. */
  lemma MarkedRefreshIsAnswered(s: State, t: nat, now: int, cookie: Cookie)
    requires cookie.Token? && t in s.callers && s.callers[t].RefreshWorking? && s.callers[t].cookie == cookie
    requires s.callers[t].plan == Succeed(cookie.jti, cookie.sub, cookie.family)
    ensures var answered := Do(Do(s, RefreshWrite(t, now)), RefreshReply(t));
      var next := Token(cookie.sub, s.db.nextJti, cookie.family, now / 1000 + s.db.ttlSec);
      && answered == s.(db := CreateSuccessor(s.db, now, cookie.sub, cookie.family).db, issued := answered.issued,
                        callers := answered.callers)
      && answered.callers == s.callers[t :=
           RefreshAnswered(s.callers[t].req, cookie, s.callers[t].marked, next, Some(cookie.sub))]
  {
    hide Step, Read, ReadRefresh, Reloaded, ServeRequest, DeliverResponse;
  }

  /**
   * Undisturbed, it goes on from there to the end: the successor is live in the jar, the user
   * signed in, the mutex free, and the request about to be sent again.
   */
  lemma MarkedRefreshRenewsTheJar(s: State, t: nat, now: int, cookie: Cookie)
    requires cookie.Token? && cookie.sub in s.db.users && s.db.users[cookie.sub].status == Active
    requires t in s.callers && s.callers[t].RefreshWorking? && s.callers[t].cookie == cookie
    requires s.callers[t].plan == Succeed(cookie.jti, cookie.sub, cookie.family)
    ensures var answered := Do(Do(s, RefreshWrite(t, now)), RefreshReply(t));
      var end := Do(Do(answered, RefreshDeliver(t)), RefreshRelease(t));
      && SessionProofs.IsUnspent(end.db, end.jar, now) && end.jar.jti == s.db.nextJti
      && end.jar.sub == cookie.sub && end.jar.family == cookie.family
      && end.db.rows == s.db.rows[s.db.nextJti := end.db.rows[s.db.nextJti]]
      && end.store == Some(cookie.sub) && end.holder == None
      && end.callers[t] == if s.callers[t].req.Hydrate? then Finished else Ready(s.callers[t].req, 2)
  {
    hide Step, Read, ReadRefresh, Reloaded, ServeRequest, DeliverResponse, Write, TokensOf;
    MarkedRefreshIsAnswered(s, t, now, cookie);
  }

  /** Undisturbed, a logout presents the jar's cookie: its row is revoked, the jar is empty, nobody is signed in. */
  lemma LogoutRevokesTheJarsRow(s: State, t: nat, now: int, asked: Cookie)
    requires t in s.callers && s.callers[t] == Ready(Auth(LogoutEvent(asked)), 1)
    requires s.jar.Token? && now / 1000 < s.jar.exp && s.jar.jti in s.db.rows
    ensures var end := Do(Do(Do(Do(s, Send(t)), Serve(t, now, false)), ServeReply(t)), Deliver(t));
      && end.db.rows == s.db.rows[s.jar.jti := s.db.rows[s.jar.jti].(revokedAt := Some(now))]
      && end.jar == NoCookie && end.store == None && end.callers[t] == Finished
  {
    hide Read, Write, ReadRefresh, Reloaded;
  }
}
