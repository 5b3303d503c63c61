/** Safety and progress of the composed tab and server, over every interleaving. */
module TabProofs {
  import opened Prelude
  import opened Sessions
  import opened CallPlans
  import opened Tab
  import SessionProofs

  /* ── The invariant ──────────────────────────────────────────────────── */

  predicate HoldsMutex(c: Caller) {
    c.RefreshReady? || c.RefreshSent? || c.RefreshWorking? || c.RefreshAnswered? || c.RefreshDone?
  }

  /** What the response on its way to the caller will do to the jar. */
  function WriteOf(c: Caller): CookieWrite {
    match c
    case Answered(_, _, write, _) => write
    case Working(req, _, plan) => if plan.Answer? && req.Auth? then ControllerWrite(req.event, plan.out) else Keep
    case RefreshAnswered(_, _, _, setTo, _) => Put(setTo)
    case RefreshWorking(_, _, plan, _) => if plan.Answer? then Put(CookieAfter(plan.out)) else Keep
    case _ => Keep
  }

  /** The token a response on its way to the tab will put into the jar. */
  function Incoming(c: Caller): Option<nat> {
    if WriteOf(c).Put? && WriteOf(c).cookie.Token? then Some(WriteOf(c).cookie.jti) else None
  }

  /** The cookie a refresh that has been sent presents. */
  function CookieOf(c: Caller): Cookie {
    if c.RefreshSent? || c.RefreshWorking? || c.RefreshAnswered? || c.Orphan? then c.cookie else NoCookie
  }

  predicate Presents(c: Caller, jti: nat) { CookieOf(c).Token? && CookieOf(c).jti == jti }

  /** What the server is doing for a refresh. */
  function PlanOf(c: Caller): Option<Plan> {
    if c.RefreshWorking? then Some(c.plan) else if c.Orphan? then c.rest else None
  }

  predicate HasMarked(c: Caller) {
    (c.RefreshWorking? || c.RefreshAnswered? || c.Orphan?) && c.marked
  }

  predicate IsOrphan(s: State, t: nat) { t in s.callers && s.callers[t].Orphan? }

  ghost predicate HasOrphan(s: State) { exists t :: IsOrphan(s, t) }

  /** The caller is a refresh that presented the token and has marked its row. */
  predicate MarkedBy(s: State, t: nat, jti: nat) {
    t in s.callers && HasMarked(s.callers[t]) && Presents(s.callers[t], jti)
  }

  ghost predicate IsMarked(s: State, jti: nat) { exists t :: MarkedBy(s, t, jti) }

  /** No cookie, a token of this tab, or, once a refresh has been abandoned, the placeholder. */
  ghost predicate IsKnown(s: State, c: Cookie) {
    match c
    case NoCookie => true
    case Token(_, jti, _, _) => jti in s.issued && jti in s.db.rows
    case Junk(_) => HasOrphan(s)
  }

  /** If the token's row is used, a refresh still known here has marked it. */
  ghost predicate IsExplained(s: State, c: Cookie) {
    c.Token? && c.jti in s.db.rows && s.db.rows[c.jti].isUsed ==> IsMarked(s, c.jti)
  }

  /** A refresh is refused or rotates its own cookie; a replay is judged only after one was abandoned. */
  ghost predicate PlanFits(s: State, cookie: Cookie, p: Plan) {
    match p
    case Mark(jti, _) => cookie.Token? && jti == cookie.jti
    case Succeed(_, _, _) => true
    case Answer(_) => true
    case BanAll(_) => HasOrphan(s)
    case _ => false
  }

  ghost predicate CallerFits(s: State, c: Caller) {
    && (WriteOf(c).Put? ==> IsKnown(s, WriteOf(c).cookie))
    && (Incoming(c).Some? ==> Incoming(c).value in s.db.rows && !s.db.rows[Incoming(c).value].isUsed)
    && IsKnown(s, CookieOf(c))
    && (c.RefreshSent? ==> IsExplained(s, c.cookie))
    && (PlanOf(c).Some? ==> PlanFits(s, CookieOf(c), PlanOf(c).value))
    && (HasMarked(c) ==> c.cookie.Token? && c.cookie.jti in s.db.rows && s.db.rows[c.cookie.jti].isUsed)
    && (c.Working? ==> !c.plan.Mark?)
    && (!c.Finished? && !c.Orphan? ==> NotRefresh(c.req))
  }

  ghost predicate Exclusion(s: State) {
    && (forall t :: t in s.callers && HoldsMutex(s.callers[t]) ==> s.holder == Some(t))
    && (s.holder.Some? ==> s.holder.value in s.callers && HoldsMutex(s.callers[s.holder.value]))
  }

  /** A token is on its way into the jar at most once, and not while it is there or presented. */
  ghost predicate Unshared(s: State) {
    forall t :: t in s.callers && Incoming(s.callers[t]).Some? ==>
      && (s.jar.Token? ==> s.jar.jti != Incoming(s.callers[t]).value)
      && (forall u :: u in s.callers ==> !Presents(s.callers[u], Incoming(s.callers[t]).value))
      && (forall u :: u in s.callers && u != t ==> Incoming(s.callers[u]) != Incoming(s.callers[t]))
  }

  /** Refresh is not called as an ordinary endpoint. */
  predicate NotRefresh(req: Request) { req.Auth? ==> !req.event.RefreshEvent? }

  ghost predicate Ids(s: State) {
    (forall j :: j in s.db.rows ==> j < s.db.nextJti) && s.issued <= s.db.rows.Keys
  }

  ghost predicate Inv(s: State) {
    && Ids(s) && Exclusion(s) && Unshared(s)
    && IsKnown(s, s.jar) && IsExplained(s, s.jar)
    && (forall t :: t in s.callers ==> CallerFits(s, s.callers[t]))
  }

  /* ── The server side of a step ──────────────────────────────────────── */

  /** Rows are never dropped, identifiers stay fresh, and only `spent` may become used. */
  ghost predicate Evolves(db: Db, db': Db, spent: Option<nat>) {
    && (forall j :: j in db.rows ==> j in db'.rows)
    && (forall j :: j in db.rows && db.rows[j].isUsed ==> db'.rows[j].isUsed)
    && (forall j :: j in db.rows && db'.rows[j].isUsed && Some(j) != spent ==> db.rows[j].isUsed)
    && (forall j :: j in db'.rows ==> j < db'.nextJti)
    && (forall j :: j in db'.rows && j !in db.rows ==> !db'.rows[j].isUsed)
  }

  lemma WriteEvolves(db: Db, now: int, p: Plan)
    requires forall j :: j in db.rows ==> j < db.nextJti
    ensures var written := Write(db, now, p);
      && Evolves(db, written.db, if p.Mark? then Some(p.jti) else None)
      && (!p.Answer? ==> forall j :: j in TokensOf(written.plan) ==> j in written.db.rows && j !in db.rows)
      && (Marks(db, p) ==> written.db.rows[p.jti].isUsed)
      && (p.Mark? && !Marks(db, p) ==> written.db == db)
  {
  }

  lemma WholeEvolves(db: Db, now: int, e: Event)
    requires (forall j :: j in db.rows ==> j < db.nextJti) && IsWhole(e)
    ensures Evolves(db, Step(db, now, e).db, None)
    ensures WriteOf(Working(Auth(e), 1, Answer(Step(db, now, e).out))) in {Keep, Put(NoCookie)}
  {
  }

  /** A request other than refresh has read: it has handed out nothing yet. */
  lemma ReadHandsOutNothing(db: Db, now: int, e: Event)
    requires !IsWhole(e) && !e.RefreshEvent?
    ensures !Read(db, now, e).Mark?
    ensures WriteOf(Working(Auth(e), 1, Read(db, now, e))) in {Keep, Put(NoCookie)}
  {
  }

  /* ── A step of one caller ───────────────────────────────────────────── */

  /**
   * What a step of caller `t` does to the others: tables evolve, at most the row of the cookie
   * that `t` presents is marked, and `t` still shows what it has marked.
   */
  ghost predicate Advances(s: State, s': State, t: nat) {
    && t in s'.callers && s'.callers == s.callers[t := s'.callers[t]]
    && Ids(s') && s.issued <= s'.issued
    && Evolves(s.db, s'.db, if MarksNow(s, s', t) then Some(CookieOf(s'.callers[t]).jti) else None)
    && (t in s.callers && HasMarked(s.callers[t]) ==>
          HasMarked(s'.callers[t]) && CookieOf(s'.callers[t]) == CookieOf(s.callers[t]))
    && (t in s.callers && s.callers[t].Orphan? ==> s'.callers[t].Orphan?)
  }

  predicate MarksNow(s: State, s': State, t: nat) {
    && t in s'.callers && HasMarked(s'.callers[t]) && CookieOf(s'.callers[t]).Token?
    && t in s.callers && CookieOf(s.callers[t]) == CookieOf(s'.callers[t]) && !HasMarked(s.callers[t])
  }

  lemma AdvanceKeepsOrphan(s: State, s': State, t: nat)
    requires Advances(s, s', t) && HasOrphan(s)
    ensures HasOrphan(s')
  {
    var u :| IsOrphan(s, u);
    assert IsOrphan(s', u);
  }

  lemma AdvanceKeepsKnown(s: State, s': State, t: nat, c: Cookie)
    requires Advances(s, s', t) && IsKnown(s, c)
    ensures IsKnown(s', c)
  {
    if c.Junk? { AdvanceKeepsOrphan(s, s', t); }
  }

  lemma AdvanceKeepsExplained(s: State, s': State, t: nat, c: Cookie)
    requires Advances(s, s', t) && IsKnown(s, c) && IsExplained(s, c)
    ensures IsExplained(s', c)
  {
    if c.Token? && s'.db.rows[c.jti].isUsed {
      if s.db.rows[c.jti].isUsed {
        var u :| MarkedBy(s, u, c.jti);
        assert MarkedBy(s', u, c.jti);
      } else {
        assert MarkedBy(s', t, c.jti);
      }
    }
  }

  lemma AdvanceKeepsCaller(s: State, s': State, t: nat, u: nat)
    requires Inv(s) && Advances(s, s', t) && u in s.callers && u != t
    ensures CallerFits(s', s'.callers[u])
  {
    var c := s.callers[u];
    assert CallerFits(s, c);
    if WriteOf(c).Put? { AdvanceKeepsKnown(s, s', t, WriteOf(c).cookie); }
    AdvanceKeepsKnown(s, s', t, CookieOf(c));
    if c.RefreshSent? { AdvanceKeepsExplained(s, s', t, c.cookie); }
    if HasOrphan(s) { AdvanceKeepsOrphan(s, s', t); }
    if Incoming(c).Some? && t in s.callers { assert !Presents(s.callers[t], Incoming(c).value); }
  }

  /** What is left to show of a step: about the caller itself, the jar, the mutex and sharing. */
  lemma AdvanceKeepsInv(s: State, s': State, t: nat)
    requires Inv(s) && Advances(s, s', t)
    requires CallerFits(s', s'.callers[t]) && Exclusion(s') && Unshared(s')
    requires s'.jar == s.jar || (IsKnown(s', s'.jar) && IsExplained(s', s'.jar))
    ensures Inv(s')
  {
    if s'.jar == s.jar {
      AdvanceKeepsKnown(s, s', t, s.jar);
      AdvanceKeepsExplained(s, s', t, s.jar);
    }
    forall u | u in s'.callers ensures CallerFits(s', s'.callers[u]) {
      if u != t { AdvanceKeepsCaller(s, s', t, u); }
    }
  }

  /** The caller carries what it carried, or less, or a token that is new. */
  ghost predicate CarriesNoOld(s: State, s': State, t: nat) {
    && t in s'.callers
    && (Incoming(s'.callers[t]).Some? ==>
          || Incoming(s'.callers[t]).value !in s.issued
          || (t in s.callers && Incoming(s'.callers[t]) == Incoming(s.callers[t])))
    && (CookieOf(s'.callers[t]).Token? ==>
          || (s.jar == CookieOf(s'.callers[t]))
          || (t in s.callers && CookieOf(s'.callers[t]) == CookieOf(s.callers[t])))
  }

  lemma AdvanceIsUnshared(s: State, s': State, t: nat)
    requires Inv(s) && Advances(s, s', t) && CarriesNoOld(s, s', t)
    requires s'.jar == s.jar
    requires Incoming(s'.callers[t]).Some? ==> !Presents(s'.callers[t], Incoming(s'.callers[t]).value)
    ensures Unshared(s')
  {
    forall u | u in s.callers ensures Carried(s.callers[u]) <= s.issued { CarriedIsIssued(s, u); }
    JarIsIssued(s);
    NoOldIsUnshared(s, s', t);
  }

  lemma NoOldIsUnshared(s: State, s': State, t: nat)
    requires Unshared(s) && CarriesNoOld(s, s', t) && s'.jar == s.jar && s'.callers == s.callers[t := s'.callers[t]]
    requires (forall u :: u in s.callers ==> Carried(s.callers[u]) <= s.issued) &&
      (s.jar.Token? ==> s.jar.jti in s.issued)
    requires Incoming(s'.callers[t]).Some? ==> !Presents(s'.callers[t], Incoming(s'.callers[t]).value)
    ensures Unshared(s')
  {
  }

  function Carried(c: Caller): set<nat> {
    (if Incoming(c).Some? then {Incoming(c).value} else {}) + (if CookieOf(c).Token? then {CookieOf(c).jti} else {})
  }

  lemma CarriedIsIssued(s: State, u: nat)
    requires Inv(s) && u in s.callers
    ensures Carried(s.callers[u]) <= s.issued
  {
    assert CallerFits(s, s.callers[u]);
  }

  lemma JarIsIssued(s: State)
    requires Inv(s)
    ensures s.jar.Token? ==> s.jar.jti in s.issued
  {
  }

  /* ── Steps outside the mutex ────────────────────────────────────────── */

  /** A caller outside the mutex comes to a place where it carries nothing, or only new tokens. */
  ghost predicate Lands(s: State, s': State, t: nat) {
    && t in s'.callers && s' == s.(db := s'.db, issued := s'.issued, callers := s.callers[t := s'.callers[t]])
    && (t in s.callers ==> !HoldsMutex(s.callers[t]) && !s.callers[t].Orphan?)
    && !HoldsMutex(s'.callers[t]) && !s'.callers[t].Orphan?
    && Ids(s') && s.issued <= s'.issued && Evolves(s.db, s'.db, None)
    && (s'.callers[t].Working? ==> !s'.callers[t].plan.Mark?)
    && (!s'.callers[t].Finished? ==> NotRefresh(s'.callers[t].req))
    && (|| WriteOf(s'.callers[t]) in {Keep, Put(NoCookie)}
        || (t in s.callers && WriteOf(s'.callers[t]) == WriteOf(s.callers[t]))
        || (&& WriteOf(s'.callers[t]).Put? && WriteOf(s'.callers[t]).cookie.Token?
            && WriteOf(s'.callers[t]).cookie.jti in s'.issued - s.issued
            && WriteOf(s'.callers[t]).cookie.jti in s'.db.rows
            && !s'.db.rows[WriteOf(s'.callers[t]).cookie.jti].isUsed))
  }

  lemma LandingKeepsInv(s: State, s': State, t: nat)
    requires Inv(s) && Lands(s, s', t)
    ensures Inv(s')
  {
    assert t in s.callers ==> CallerFits(s, s.callers[t]);
    AdvanceIsUnshared(s, s', t);
    if t in s.callers && WriteOf(s.callers[t]).Put? { AdvanceKeepsKnown(s, s', t, WriteOf(s.callers[t]).cookie); }
    AdvanceKeepsInv(s, s', t);
  }

  lemma ServeLands(s: State, a: Action)
    requires Inv(s) && Enabled(s, a) && a.Serve?
    ensures Lands(s, Do(s, a), a.t)
  {
    hide Inv, Evolves, Step, Read, Write, DeliverResponse;
    var Sent(req, attempt) := s.callers[a.t];
    IdsOf(s);
    RequestOf(s, a.t);
    NothingEvolves(s.db);
    if req.Auth? && (!a.expired || IsCredentialEndpoint(req)) {
      if IsWhole(req.event) {
        WholeEvolves(s.db, a.now, req.event);
        EvolvedIds(s, Step(s.db, a.now, req.event).db);
      } else {
        ReadHandsOutNothing(s.db, a.now, req.event);
      }
    }
  }

  lemma EvolvedIds(s: State, db': Db)
    requires Ids(s) && Evolves(s.db, db', None)
    ensures Ids(s.(db := db'))
  {
  }

  lemma ServeWriteLands(s: State, a: Action)
    requires Inv(s) && Enabled(s, a) && a.ServeWrite?
    ensures Lands(s, Do(s, a), a.t)
  {
    assert CallerFits(s, s.callers[a.t]);
    WriteEvolves(s.db, a.now, s.callers[a.t].plan);
  }

  lemma ServeReplyLands(s: State, a: Action)
    requires Inv(s) && Enabled(s, a) && a.ServeReply?
    ensures Lands(s, Do(s, a), a.t)
  {
    assert CallerFits(s, s.callers[a.t]);
  }

  /** A place outside the mutex with nothing on its way. */
  predicate IsIdle(c: Caller) {
    || c.Waiting? || c.Ready? || c.Sent? || c.RefreshWaiting? || c.RefreshTesting? || c.RefreshAcquiring?
    || c.RefreshFollowing? || c.Finished? || (c.Answered? && c.write.Keep?)
  }

  predicate IsQuiet(a: Action) {
    a.Call? || a.Wake? || a.Send? || a.ServeFail? || a.RefreshWake? || a.RefreshTest? || a.RefreshFollow?
  }

  lemma QuietMoves(s: State, a: Action)
    requires Enabled(s, a) && IsQuiet(a) && (a.t in s.callers ==> NotRefresh(s.callers[a.t].req))
    ensures var c := Do(s, a).callers[a.t];
      Do(s, a) == Move(s, a.t, c) && IsIdle(c) && (!c.Finished? ==> NotRefresh(c.req))
  {
    hide Read, Write, Step, ReadRefresh, Reloaded;
  }

  lemma IdsOf(s: State)
    requires Inv(s)
    ensures Ids(s)
  {
  }

  lemma RequestOf(s: State, t: nat)
    requires Inv(s) && t in s.callers && !s.callers[t].Finished? && !s.callers[t].Orphan?
    ensures NotRefresh(s.callers[t].req)
  {
    assert CallerFits(s, s.callers[t]);
  }

  lemma NothingEvolves(db: Db)
    requires forall j :: j in db.rows ==> j < db.nextJti
    ensures Evolves(db, db, None)
  {
  }

  lemma QuietLands(s: State, a: Action)
    requires Inv(s) && Enabled(s, a) && IsQuiet(a)
    ensures Lands(s, Do(s, a), a.t)
  {
    hide Do, Inv, Evolves;
    IdsOf(s);
    NothingEvolves(s.db);
    if a.t in s.callers { RequestOf(s, a.t); }
    QuietMoves(s, a);
  }

  /** Once the jar has taken what a response carried, that token is on its way no more. */
  lemma JarTakesUnshared(s: State, s': State, t: nat)
    requires Unshared(s) && t in s.callers && (s.callers[t].Answered? || s.callers[t].RefreshAnswered?)
    requires s'.jar == (if WriteOf(s.callers[t]).Put? then WriteOf(s.callers[t]).cookie else s.jar)
    requires t in s'.callers && s'.callers == s.callers[t := s'.callers[t]]
    requires Incoming(s'.callers[t]).None? && CookieOf(s'.callers[t]).NoCookie?
    ensures Unshared(s')
  {
  }

  /** The jar takes the cookie of an arriving response; the caller then holds no token. */
  ghost predicate TakesIntoJar(s: State, s': State, t: nat) {
    && t in s.callers && (s.callers[t].Answered? || s.callers[t].RefreshAnswered?)
    && t in s'.callers && Incoming(s'.callers[t]).None? && CookieOf(s'.callers[t]).NoCookie?
    && WriteOf(s'.callers[t]).Keep? && PlanOf(s'.callers[t]).None? && !s'.callers[t].Working? && !s'.callers[t].Orphan?
    && (!s'.callers[t].Finished? ==> s'.callers[t].req == s.callers[t].req)
    && (HoldsMutex(s'.callers[t]) <==> HoldsMutex(s.callers[t]))
    && s' == s.(jar := if WriteOf(s.callers[t]).Put? then WriteOf(s.callers[t]).cookie else s.jar,
                store := s'.store, callers := s.callers[t := s'.callers[t]])
  }

  /** What is in the jar or on its way there stays explained, although the caller is done. */
  lemma TakingKeepsOthers(s: State, s': State, t: nat, u: nat)
    requires Inv(s) && TakesIntoJar(s, s', t) && u in s.callers && u != t
    ensures CallerFits(s', s'.callers[u])
  {
    var c := s.callers[u];
    assert CallerFits(s, c);
    if o :| IsOrphan(s, o) { assert IsOrphan(s', o); }
    if c.RefreshSent? && c.cookie.Token? && s.db.rows[c.cookie.jti].isUsed {
      var m :| MarkedBy(s, m, c.cookie.jti);
      MarkerIsOrphan(s, u, m, c.cookie.jti);
      assert MarkedBy(s', m, c.cookie.jti);
    }
  }

  lemma TakerFits(s: State, s': State, t: nat)
    requires Inv(s) && TakesIntoJar(s, s', t)
    ensures CallerFits(s', s'.callers[t])
  {
    assert CallerFits(s, s.callers[t]);
  }

  lemma TakingKeepsJar(s: State, s': State, t: nat)
    requires Inv(s) && TakesIntoJar(s, s', t)
    ensures IsKnown(s', s'.jar) && IsExplained(s', s'.jar)
  {
    hide Unshared, PlanFits;
    assert CallerFits(s, s.callers[t]);
    if o :| IsOrphan(s, o) { assert IsOrphan(s', o); }
    if s'.jar.Token? && s.db.rows[s'.jar.jti].isUsed {
      assert s'.jar == s.jar && WriteOf(s.callers[t]).Keep?;
      var m :| MarkedBy(s, m, s.jar.jti);
      assert MarkedBy(s', m, s.jar.jti);
    }
  }

  lemma TakingKeepsInv(s: State, s': State, t: nat)
    requires Inv(s) && TakesIntoJar(s, s', t)
    ensures Inv(s')
  {
    hide CallerFits, IsKnown, IsExplained;
    JarTakesUnshared(s, s', t);
    TakingKeepsJar(s, s', t);
    forall u | u in s'.callers ensures CallerFits(s', s'.callers[u]) {
      if u == t { TakerFits(s, s', t); } else { TakingKeepsOthers(s, s', t, u); }
    }
  }

  lemma DeliverKeepsInv(s: State, a: Action)
    requires Inv(s) && Enabled(s, a) && (a.Deliver? || a.RefreshDeliver?)
    ensures Inv(Do(s, a))
  {
    DeliveryTakes(s, a);
    hide Do;
    TakingKeepsInv(s, Do(s, a), a.t);
  }

  lemma DeliveryTakes(s: State, a: Action)
    requires Enabled(s, a) && (a.Deliver? || a.RefreshDeliver?)
    ensures TakesIntoJar(s, Do(s, a), a.t)
  {
    hide Read, Write, Step, ReadRefresh, Reloaded;
  }

  /* ── Steps of a refresh ─────────────────────────────────────────────── */

  lemma AcquireKeepsInv(s: State, a: Action)
    requires Inv(s) && Enabled(s, a) && (a.RefreshAcquire? || a.RefreshRelease?)
    ensures Inv(Do(s, a))
  {
    hide ServeRequest, DeliverResponse, Reloaded, Write, Step, ReadRefresh, Unshared;
    var s' := Do(s, a);
    assert CallerFits(s, s.callers[a.t]);
    AdvanceIsUnshared(s, s', a.t);
    AdvanceKeepsInv(s, s', a.t);
  }

  lemma SendKeepsInv(s: State, a: Action)
    requires Inv(s) && Enabled(s, a) && a.RefreshSend?
    ensures Inv(Do(s, a))
  {
    hide ServeRequest, DeliverResponse, Reloaded, Write, Step, ReadRefresh, Unshared;
    var s' := Do(s, a);
    assert CallerFits(s, s.callers[a.t]);
    AdvanceIsUnshared(s, s', a.t);
    AdvanceKeepsKnown(s, s', a.t, s.jar);
    AdvanceKeepsExplained(s, s', a.t, s.jar);
    AdvanceKeepsInv(s, s', a.t);
  }

  /** Of the refreshes that have marked the row of a cookie just sent, none is of this page. */
  lemma MarkerIsOrphan(s: State, t: nat, u: nat, jti: nat)
    requires Inv(s) && t in s.callers && s.callers[t].RefreshSent? && MarkedBy(s, u, jti)
    ensures IsOrphan(s, u)
  {
    assert HoldsMutex(s.callers[t]);
  }

  /** Any sent refresh reads: a replay needs an orphan. */
  lemma ReadFits(s: State, now: int, t: nat)
    requires Inv(s) && t in s.callers && s.callers[t].RefreshSent?
    ensures var p := ReadRefresh(s.db, now, s.callers[t].cookie);
      && PlanFits(s, s.callers[t].cookie, p)
      && (p.Answer? ==> CookieAfter(p.out).NoCookie? || (CookieAfter(p.out).Junk? && HasOrphan(s)))
  {
    var cookie := s.callers[t].cookie;
    assert CallerFits(s, s.callers[t]);
    if IsReplay(Decide(s.db, now, cookie)) {
      var u :| MarkedBy(s, u, cookie.jti);
      MarkerIsOrphan(s, t, u, cookie.jti);
    }
  }

  lemma ReadKeepsInv(s: State, a: Action)
    requires Inv(s) && Enabled(s, a) && a.RefreshRead?
    ensures Inv(Do(s, a))
  {
    hide ServeRequest, DeliverResponse, Reloaded, Write, Step, ReadRefresh, Unshared;
    var s' := Do(s, a);
    assert CallerFits(s, s.callers[a.t]);
    ReadFits(s, a.now, a.t);
    if HasOrphan(s) { AdvanceKeepsOrphan(s, s', a.t); }
    AdvanceIsUnshared(s, s', a.t);
    AdvanceKeepsKnown(s, s', a.t, CookieOf(s.callers[a.t]));
    AdvanceKeepsInv(s, s', a.t);
  }

  /** The server writes for a refresh, of this page or an abandoned one. */
  ghost predicate WritesFor(s: State, s': State, t: nat, now: int) {
    && t in s.callers && PlanOf(s.callers[t]).Some? && !PlanOf(s.callers[t]).value.Answer?
    && var c, plan := s.callers[t], PlanOf(s.callers[t]).value;
       var written := Write(s.db, now, plan);
       && t in s'.callers && s' == s.(db := written.db, issued := s.issued + TokensOf(written.plan),
                                      callers := s.callers[t := s'.callers[t]])
       && PlanOf(s'.callers[t]) == Some(written.plan)
       && s'.callers[t] == if c.Orphan? then Orphan(c.cookie, Some(written.plan), c.marked || Marks(s.db, plan))
                           else RefreshWorking(c.req, c.cookie, written.plan, c.marked || Marks(s.db, plan))
  }

  lemma WriteActionWrites(s: State, a: Action)
    requires Enabled(s, a) && (a.RefreshWrite? || a.OrphanWrite?)
    ensures WritesFor(s, Do(s, a), a.t, a.now)
  {
    hide Read, Write, Step, ReadRefresh, Reloaded;
  }

  /** What a refresh still has to write after its next writing. */
  lemma PlanGoesOn(db: Db, now: int, p: Plan)
    requires p.Mark? || p.Succeed? || p.BanAll?
    ensures var next := Write(db, now, p).plan;
      && (next.Succeed? || next.Answer?)
      && (next.Answer? ==> CookieAfter(next.out).NoCookie? || TokensOf(next) == {CookieAfter(next.out).jti})
      && (next.Answer? && !CookieAfter(next.out).NoCookie? ==> CookieAfter(next.out).Token?)
  {
  }

  lemma RefreshWriteAdvances(s: State, s': State, t: nat, now: int)
    requires Inv(s) && WritesFor(s, s', t, now)
    ensures Advances(s, s', t) && CarriesNoOld(s, s', t)
    ensures Incoming(s'.callers[t]).Some? ==>
      Incoming(s'.callers[t]).value in s'.db.rows && Incoming(s'.callers[t]).value !in s.db.rows
  {
    hide IsKnown, Unshared, Exclusion;
    assert CallerFits(s, s.callers[t]);
    var p := PlanOf(s.callers[t]).value;
    WriteEvolves(s.db, now, p);
    PlanGoesOn(s.db, now, p);
    hide Write, IsExplained;
  }

  lemma RefreshWriteFits(s: State, s': State, t: nat, now: int)
    requires Inv(s) && WritesFor(s, s', t, now)
    ensures CallerFits(s', s'.callers[t])
  {
    assert CallerFits(s, s.callers[t]);
    RefreshWriteAdvances(s, s', t, now);
    var p := PlanOf(s.callers[t]).value;
    WriteEvolves(s.db, now, p);
    PlanGoesOn(s.db, now, p);
    AdvanceKeepsKnown(s, s', t, CookieOf(s.callers[t]));
  }

  lemma RefreshWriteKeepsInv(s: State, a: Action)
    requires Inv(s) && Enabled(s, a) && (a.RefreshWrite? || a.OrphanWrite?)
    ensures Inv(Do(s, a))
  {
    hide Do, Write;
    var s' := Do(s, a);
    WriteActionWrites(s, a);
    RefreshWriteAdvances(s, s', a.t, a.now);
    RefreshWriteFits(s, s', a.t, a.now);
    CarriedIsIssued(s, a.t);
    AdvanceIsUnshared(s, s', a.t);
    AdvanceKeepsInv(s, s', a.t);
  }

  /** The answer is on its way unchanged, or the controller clears the cookie. */
  lemma ReplyShape(s: State, a: Action)
    requires Enabled(s, a) && (a.RefreshReply? || a.RefreshFail?)
    ensures var c, c' := s.callers[a.t], Do(s, a).callers[a.t];
      && Do(s, a) == Move(s, a.t, c') && c'.RefreshAnswered? && c'.req == c.req && c'.cookie == c.cookie
      && c'.marked == HasMarked(c) && (WriteOf(c') == WriteOf(c) || WriteOf(c') == Put(NoCookie))
  {
    hide ServeRequest, DeliverResponse, Reloaded, Write, Step, ReadRefresh;
  }

  lemma ReplyKeepsInv(s: State, a: Action)
    requires Inv(s) && Enabled(s, a) && (a.RefreshReply? || a.RefreshFail?)
    ensures Inv(Do(s, a))
  {
    hide Do, PlanFits, IsExplained;
    var s', c := Do(s, a), s.callers[a.t];
    assert CallerFits(s, c);
    ReplyShape(s, a);
    AdvanceIsUnshared(s, s', a.t);
    AdvanceKeepsKnown(s, s', a.t, CookieOf(c));
    if WriteOf(c).Put? { AdvanceKeepsKnown(s, s', a.t, WriteOf(c).cookie); }
    AdvanceKeepsInv(s, s', a.t);
  }

  /* ── A page load ────────────────────────────────────────────────────── */

  /** What a refresh has marked it has marked, whoever waits for it. */
  lemma ReloadKeepsMarks(s: State)
    ensures forall t, jti :: MarkedBy(s, t, jti) ==> MarkedBy(Reloaded(s), t, jti)
    ensures forall t :: IsOrphan(s, t) ==> IsOrphan(Reloaded(s), t)
  {
  }

  /** An abandoned refresh presents and has marked what it did; its page no longer waits for anything. */
  lemma AbandonedShape(c: Caller)
    ensures var d := Abandoned(c);
      && (d.Finished? || d.Orphan?) && WriteOf(d).Keep?
      && (d.Orphan? ==> CookieOf(d) == CookieOf(c) && HasMarked(d) == HasMarked(c) && d.cookie == CookieOf(c))
      && (PlanOf(d).None? || PlanOf(d) == PlanOf(c) || PlanOf(d) == Some(Answer(Done)))
  {
  }

  /** A replay waiting to be answered was judged after an earlier refresh had been abandoned. */
  lemma AbandonedFits(s: State, t: nat)
    requires Inv(s) && t in s.callers
    ensures CallerFits(Reloaded(s), Abandoned(s.callers[t]))
  {
    hide Unshared, Exclusion, IsExplained, Abandoned, IsMarked;
    assert CallerFits(s, s.callers[t]);
    AbandonedShape(s.callers[t]);
    if o :| IsOrphan(s, o) { ReloadKeepsMarks(s); }
  }

  lemma ReloadLeavesNothing(s: State)
    ensures Unshared(Reloaded(s)) && Exclusion(Reloaded(s))
  {
  }

  lemma ReloadKeepsInv(s: State)
    requires Inv(s)
    ensures Inv(Reloaded(s))
  {
    hide CallerFits, Unshared, Exclusion;
    ReloadLeavesNothing(s);
    var s' := Reloaded(s);
    ReloadKeepsMarks(s);
    forall t | t in s'.callers ensures CallerFits(s', s'.callers[t]) { AbandonedFits(s, t); }
    if o :| IsOrphan(s, o) { assert IsOrphan(s', o); }
    if s.jar.Token? && s.db.rows[s.jar.jti].isUsed {
      var m :| MarkedBy(s, m, s.jar.jti);
      assert MarkedBy(s', m, s.jar.jti);
    }
  }

  /* ── Steps of nobody in particular ──────────────────────────────────── */

  /** Tables evolve by a writing that marks no token of this tab. */
  lemma ServerStepKeepsInv(s: State, db': Db, spent: Option<nat>)
    requires Inv(s) && Evolves(s.db, db', spent) && (spent.Some? ==> spent.value !in s.issued)
    ensures Inv(s.(db := db'))
  {
    var s' := s.(db := db');
    forall t, jti: nat ensures MarkedBy(s', t, jti) == MarkedBy(s, t, jti) {}
    forall t ensures IsOrphan(s', t) == IsOrphan(s, t) {}
    forall t | t in s.callers ensures CallerFits(s', s.callers[t]) { OthersKeepCaller(s, s', spent, t); }
    if s.jar.Token? && db'.rows[s.jar.jti].isUsed {
      var m :| MarkedBy(s, m, s.jar.jti);
      assert MarkedBy(s', m, s.jar.jti);
    }
  }

  lemma OthersKeepCaller(s: State, s': State, spent: Option<nat>, t: nat)
    requires Inv(s) && t in s.callers && s' == s.(db := s'.db)
    requires Evolves(s.db, s'.db, spent) && (spent.Some? ==> spent.value !in s.issued)
    ensures CallerFits(s', s.callers[t])
  {
    var c := s.callers[t];
    assert CallerFits(s, c);
    CarriedIsIssued(s, t);
    if o :| IsOrphan(s, o) { assert IsOrphan(s', o); }
    if c.RefreshSent? && c.cookie.Token? && s'.db.rows[c.cookie.jti].isUsed {
      var m :| MarkedBy(s, m, c.cookie.jti);
      assert MarkedBy(s', m, c.cookie.jti);
    }
  }

  lemma OthersKeepInv(s: State, a: Action)
    requires Inv(s) && Enabled(s, a) && (a.Others? || a.OthersWrite?)
    ensures Inv(Do(s, a))
  {
    hide Write, Step;
    if a.Others? {
      WholeEvolves(s.db, a.now, a.event);
      ServerStepKeepsInv(s, Step(s.db, a.now, a.event).db, None);
    } else {
      WriteEvolves(s.db, a.now, a.plan);
      ServerStepKeepsInv(s, Write(s.db, a.now, a.plan).db, if a.plan.Mark? then Some(a.plan.jti) else None);
    }
  }

  lemma ExpiryKeepsInv(s: State)
    requires Inv(s)
    ensures Inv(Do(s, CookieExpires))
  {
    var s' := Do(s, CookieExpires);
    forall t, jti: nat ensures MarkedBy(s', t, jti) == MarkedBy(s, t, jti) {}
    forall t ensures IsOrphan(s', t) == IsOrphan(s, t) {}
    forall t | t in s.callers ensures CallerFits(s', s.callers[t]) { OthersKeepCaller(s, s.(db := s.db), None, t); }
  }

  lemma OrphanReadKeepsInv(s: State, a: Action)
    requires Inv(s) && Enabled(s, a) && a.OrphanRead?
    ensures Inv(Do(s, a))
  {
    hide ServeRequest, DeliverResponse, Reloaded, Write, Step;
    var s' := Do(s, a);
    assert CallerFits(s, s.callers[a.t]);
    assert IsOrphan(s', a.t);
    AdvanceIsUnshared(s, s', a.t);
    AdvanceKeepsKnown(s, s', a.t, CookieOf(s.callers[a.t]));
    AdvanceKeepsInv(s, s', a.t);
  }

  /** Steps outside the mutex. */
  lemma RequestActionKeepsInv(s: State, a: Action)
    requires Inv(s) && Enabled(s, a) && (IsQuiet(a) || a.Serve? || a.ServeWrite? || a.ServeReply?)
    ensures Inv(Do(s, a))
  {
    if a.Serve? {
      ServeLands(s, a);
    } else if a.ServeWrite? {
      ServeWriteLands(s, a);
    } else if a.ServeReply? {
      ServeReplyLands(s, a);
    } else {
      QuietLands(s, a);
    }
    hide Inv, Lands, Do;
    LandingKeepsInv(s, Do(s, a), a.t);
  }

  lemma ActionKeepsInv(s: State, a: Action)
    requires Inv(s) && Enabled(s, a)
    ensures Inv(Do(s, a))
  {
    hide Inv, Do, Enabled;
    match a
    case RefreshAcquire(_) => AcquireKeepsInv(s, a);
    case RefreshRelease(_) => AcquireKeepsInv(s, a);
    case RefreshSend(_) => SendKeepsInv(s, a);
    case RefreshRead(_, _) => ReadKeepsInv(s, a);
    case RefreshWrite(_, _) => RefreshWriteKeepsInv(s, a);
    case OrphanWrite(_, _) => RefreshWriteKeepsInv(s, a);
    case OrphanRead(_, _) => OrphanReadKeepsInv(s, a);
    case RefreshReply(_) => ReplyKeepsInv(s, a);
    case RefreshFail(_) => ReplyKeepsInv(s, a);
    case RefreshDeliver(_) => DeliverKeepsInv(s, a);
    case Deliver(_) => DeliverKeepsInv(s, a);
    case CookieExpires => ExpiryKeepsInv(s);
    case Reload => ReloadedIsDo(s); ReloadKeepsInv(s);
    case Others(_, _) => OthersKeepInv(s, a);
    case OthersWrite(_, _) => OthersKeepInv(s, a);
    case _ => RequestActionKeepsInv(s, a);
  }

  lemma ReloadedIsDo(s: State)
    ensures Do(s, Reload) == Reloaded(s)
  {
  }

  lemma {:induction false} RunKeepsInv(s: State, actions: seq<Action>)
    requires Inv(s) && Runs(s, actions)
    ensures Inv(After(s, actions))
    decreases |actions|
  {
    if actions != [] {
      ActionKeepsInv(s, actions[0]);
      RunKeepsInv(Do(s, actions[0]), actions[1..]);
    }
  }

  /* ── Safety ─────────────────────────────────────────────────────────── */

  predicate IsReplay(v: Verdict) { v.Tolerate? || v.Ban? }

  lemma InitHasInv(s: State)
    requires Init(s)
    ensures Inv(s)
  {
  }

  /**
   * In every interleaving of requests, expired access tokens, logins, logouts, refreshes,
   * failures, page loads at any moment, and database operations of other clients: a refresh
   * of the page, at whatever moment the server reads for it, is judged a replay exactly if a
   * refresh of an earlier page that presented the same cookie has marked its row by then.
   */
  lemma RefreshReplaysExactlyIfOrphanMarked(s: State, actions: seq<Action>, t: nat, now: int)
    requires Init(s) && Runs(s, actions)
    requires t in After(s, actions).callers && After(s, actions).callers[t].RefreshSent?
    requires var cookie := After(s, actions).callers[t].cookie; cookie.Token? && now / 1000 < cookie.exp
    ensures var end := After(s, actions);
      var cookie := end.callers[t].cookie;
      IsReplay(Decide(end.db, now, cookie)) <==> exists o :: IsOrphan(end, o) && MarkedBy(end, o, cookie.jti)
  {
    InitHasInv(s);
    RunKeepsInv(s, actions);
    var end := After(s, actions);
    var jti := end.callers[t].cookie.jti;
    assert CallerFits(end, end.callers[t]);
    if IsReplay(Decide(end.db, now, end.callers[t].cookie)) {
      var o :| MarkedBy(end, o, jti);
      MarkerIsOrphan(end, t, o, jti);
    }
    if o :| IsOrphan(end, o) && MarkedBy(end, o, jti) { assert CallerFits(end, end.callers[o]); }
  }

  /** Pages are left only while no refresh is in flight. */
  ghost predicate QuietLoads(s: State, actions: seq<Action>)
    requires Runs(s, actions)
    decreases |actions|
  {
    actions == [] || ((actions[0].Reload? ==> Quiet(s)) && QuietLoads(Do(s, actions[0]), actions[1..]))
  }

  lemma StepOrphansNobody(s: State, a: Action)
    requires Enabled(s, a) && !HasOrphan(s) && (a.Reload? ==> Quiet(s))
    ensures !HasOrphan(Do(s, a))
  {
    hide Read, Write, Step, ReadRefresh;
    forall t ensures !IsOrphan(Do(s, a), t) { assert !IsOrphan(s, t); }
  }

  lemma {:induction false} RunOrphansNobody(s: State, actions: seq<Action>)
    requires Runs(s, actions) && !HasOrphan(s) && QuietLoads(s, actions)
    ensures !HasOrphan(After(s, actions))
    decreases |actions|
  {
    if actions != [] {
      StepOrphansNobody(s, actions[0]);
      RunOrphansNobody(Do(s, actions[0]), actions[1..]);
    }
  }

  /**
   * With page loads only while no refresh is in flight, in every such interleaving: at most one
   * refresh of this tab is in flight; while none is, the jar is empty or holds a token whose
   * row is unused; and the server never judges a refresh of this tab a replay, neither when it
   * decides nor at any moment it could.
   */
  lemma TabNeverReplays(s: State, actions: seq<Action>)
    requires Init(s) && Runs(s, actions) && QuietLoads(s, actions)
    ensures var end := After(s, actions);
      && (forall t, u ::
            t in end.callers && u in end.callers && InFlight(end.callers[t]) && InFlight(end.callers[u]) ==> t == u)
      && (Quiet(end) ==>
            end.jar.NoCookie? || (end.jar.Token? && end.jar.jti in end.db.rows && !end.db.rows[end.jar.jti].isUsed))
      && (forall t, now :: t in end.callers && end.callers[t].RefreshSent? ==>
        !IsReplay(Decide(end.db, now, end.callers[t].cookie)))
      && (forall t :: t in end.callers && end.callers[t].RefreshWorking? ==>
            !end.callers[t].plan.BanAll? &&
              (end.callers[t].plan.Answer? ==> CookieAfter(end.callers[t].plan.out) != REPLAY_PLACEHOLDER))
  {
    InitHasInv(s);
    RunKeepsInv(s, actions);
    RunOrphansNobody(s, actions);
    var end := After(s, actions);
    if Quiet(end) && end.jar.Token? && end.db.rows[end.jar.jti].isUsed {
      var m :| MarkedBy(end, m, end.jar.jti);
      assert IsOrphan(end, m);
    }
    forall t, now | t in end.callers && end.callers[t].RefreshSent?
      ensures !IsReplay(Decide(end.db, now, end.callers[t].cookie))
    {
      SentIsNoReplay(end, t, now);
    }
    forall t | t in end.callers && end.callers[t].RefreshWorking? ensures CallerFits(end, end.callers[t]) {
    }
  }

  lemma SentIsNoReplay(s: State, t: nat, now: int)
    requires Inv(s) && !HasOrphan(s) && t in s.callers && s.callers[t].RefreshSent?
    ensures !IsReplay(Decide(s.db, now, s.callers[t].cookie))
  {
    assert CallerFits(s, s.callers[t]);
    if IsReplay(Decide(s.db, now, s.callers[t].cookie)) {
      var m :| MarkedBy(s, m, s.callers[t].cookie.jti);
      MarkerIsOrphan(s, t, m, s.callers[t].cookie.jti);
    }
  }

  /* ── Progress ───────────────────────────────────────────────────────── */

  /** Writings a call has still to do. */
  function WritesLeft(p: Plan): nat {
    if p.Answer? then 0 else if p.Spend? || p.Mark? then 2 else 1
  }

  function Rank(c: Caller): (r: nat)
    ensures r <= 24
  {
    match c
    case Waiting(_) => 24
    case Ready(_, attempt) => if attempt == 1 then 23 else 6
    case Sent(_, attempt) => if attempt == 1 then 22 else 5
    case Working(_, attempt, plan) => WritesLeft(plan) + if attempt == 1 then 19 else 2
    case Answered(_, attempt, _, _) => if attempt == 1 then 18 else 1
    case RefreshWaiting(_) => 17
    case RefreshTesting(_) => 16
    case RefreshAcquiring(_) => 15
    case RefreshFollowing(_) => 15
    case RefreshReady(_) => 14
    case RefreshSent(_, _) => 13
    case RefreshWorking(_, _, plan, _) => 9 + WritesLeft(plan)
    case RefreshAnswered(_, _, _, _, _) => 8
    case RefreshDone(_, _) => 7
    case Finished => 0
    case Orphan(_, _, _) => 0
  }

  function RankOf(s: State, t: nat): nat {
    if t in s.callers then Rank(s.callers[t]) else 25
  }

  lemma WriteDescends(db: Db, now: int, p: Plan)
    requires !p.Answer?
    ensures WritesLeft(Write(db, now, p).plan) < WritesLeft(p)
  {
  }

  lemma RequestStepDescends(s: State, a: Action)
    requires Enabled(s, a) && (IsQuiet(a) || a.Serve? || a.ServeWrite? || a.ServeReply? || a.Deliver?)
    ensures RankOf(Do(s, a), a.t) < RankOf(s, a.t)
  {
    hide Write, Step, Read, ReadRefresh, Reloaded;
    if a.ServeWrite? { WriteDescends(s.db, a.now, s.callers[a.t].plan); }
  }

  lemma RefreshStepDescends(s: State, a: Action)
    requires Enabled(s, a) && CallerOf(a).Some?
    requires !(IsQuiet(a) || a.Serve? || a.ServeWrite? || a.ServeReply? || a.Deliver?)
    ensures RankOf(Do(s, a), a.t) < RankOf(s, a.t)
  {
    hide Write, Step, Read, ReadRefresh, Reloaded, ServeRequest, DeliverResponse;
    if a.RefreshWrite? { WriteDescends(s.db, a.now, s.callers[a.t].plan); }
  }

  lemma OtherRanksStay(s: State, a: Action, t: nat)
    requires Enabled(s, a) && CallerOf(a) != Some(t)
    ensures RankOf(Do(s, a), t) <= RankOf(s, t)
  {
    hide Write, Step, Read, ReadRefresh;
  }

  /** Every step of a caller lowers its own rank, and no other step raises it. */
  lemma StepsDescend(s: State, a: Action, t: nat)
    requires Enabled(s, a)
    ensures if CallerOf(a) == Some(t) then RankOf(Do(s, a), t) < RankOf(s, t) else RankOf(Do(s, a), t) <= RankOf(s, t)
  {
    hide Do, Enabled, RankOf;
    if CallerOf(a) != Some(t) {
      OtherRanksStay(s, a, t);
    } else if IsQuiet(a) || a.Serve? || a.ServeWrite? || a.ServeReply? || a.Deliver? {
      RequestStepDescends(s, a);
    } else {
      RefreshStepDescends(s, a);
    }
  }

  /** How many of the actions are steps of the caller; requests it sends; refreshes it sends. */
  function StepsOf(actions: seq<Action>, t: nat): nat {
    if actions == [] then 0
    else (if CallerOf(actions[0]) == Some(t) then 1 else 0) + StepsOf(actions[1..], t)
  }

  function SendsOf(actions: seq<Action>, t: nat): nat {
    if actions == [] then 0 else (if actions[0] == Send(t) then 1 else 0) + SendsOf(actions[1..], t)
  }

  function RefreshesOf(actions: seq<Action>, t: nat): nat {
    if actions == [] then 0 else (if actions[0] == RefreshSend(t) then 1 else 0) + RefreshesOf(actions[1..], t)
  }

  /** What a caller at this rank may still send. */
  function SendsLeft(rank: nat): nat { if rank >= 23 then 2 else if rank >= 6 then 1 else 0 }
  function RefreshesLeft(rank: nat): nat { if rank >= 14 then 1 else 0 }

  lemma SendsSpendBudget(s: State, a: Action, t: nat)
    requires Enabled(s, a)
    ensures (if a == Send(t) then 1 else 0) + SendsLeft(RankOf(Do(s, a), t)) <= SendsLeft(RankOf(s, t))
  {
    StepsDescend(s, a, t);
  }

  lemma RefreshesSpendBudget(s: State, a: Action, t: nat)
    requires Enabled(s, a)
    ensures (if a == RefreshSend(t) then 1 else 0) + RefreshesLeft(RankOf(Do(s, a), t)) <= RefreshesLeft(RankOf(s, t))
  {
    StepsDescend(s, a, t);
  }

  /**
   * No refresh loop: over any run a caller takes at most twenty-five steps, in which it sends its
   * request at most twice and a refresh at most once, whatever the server answers.
   */
  lemma {:induction false} CallersAreBounded(s: State, actions: seq<Action>, t: nat)
    requires Runs(s, actions)
    ensures StepsOf(actions, t) + RankOf(After(s, actions), t) <= RankOf(s, t) <= 25
    ensures SendsOf(actions, t) <= SendsLeft(RankOf(s, t)) <= 2
    ensures RefreshesOf(actions, t) <= RefreshesLeft(RankOf(s, t)) <= 1
    decreases |actions|
  {
    hide Do, Enabled;
    if actions != [] {
      StepsDescend(s, actions[0], t);
      SendsSpendBudget(s, actions[0], t);
      RefreshesSpendBudget(s, actions[0], t);
      CallersAreBounded(Do(s, actions[0]), actions[1..], t);
    }
  }

  /** A caller that holds the mutex, or any unfinished one while nobody does, has a step. */
  function NextStep(s: State, u: nat): (a: Action)
    requires u in s.callers && !s.callers[u].Finished? && !s.callers[u].Orphan?
    requires s.holder.Some? ==> HoldsMutex(s.callers[u])
    ensures Enabled(s, a) && CallerOf(a) == Some(u)
  {
    match s.callers[u]
    case Waiting(_) => Wake(u)
    case Ready(_, _) => Send(u)
    case Sent(_, _) => Serve(u, 0, false)
    case Working(_, _, plan) => if plan.Answer? then ServeReply(u) else ServeWrite(u, 0)
    case Answered(_, _, _, _) => Deliver(u)
    case RefreshWaiting(_) => RefreshWake(u)
    case RefreshTesting(_) => RefreshTest(u)
    case RefreshAcquiring(_) => RefreshAcquire(u)
    case RefreshFollowing(_) => RefreshFollow(u)
    case RefreshReady(_) => RefreshSend(u)
    case RefreshSent(_, _) => RefreshRead(u, 0)
    case RefreshWorking(_, _, plan, _) => if plan.Answer? then RefreshReply(u) else RefreshWrite(u, 0)
    case RefreshAnswered(_, _, _, _, _) => RefreshDeliver(u)
    case RefreshDone(_, _) => RefreshRelease(u)
  }

  /** No deadlock on the mutex: while a caller is unfinished, some unfinished caller can move. */
  lemma SomeCallerCanMove(s: State, t: nat) returns (a: Action)
    requires Inv(s) && t in s.callers && !s.callers[t].Finished? && !s.callers[t].Orphan?
    ensures Enabled(s, a) && CallerOf(a).Some? && CallerOf(a).value in s.callers
  {
    hide NextStep;
    a := NextStep(s, if s.holder.Some? then s.holder.value else t);
  }
}
