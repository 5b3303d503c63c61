/**
 * Several tabs, or a page and those it replaced, share the cookie jar but not the mutex: any
 * number of refreshes overlap, each with the cookie the jar held when it was sent, and any
 * response may be lost
 * (frontend/src/lib/api/baseQueryWithReauth.ts, backend/src/modules/auth/controllers.ts).
 */
module ManyTabs {
  import opened Prelude
  import opened Sessions
  import opened CallPlans
  import T = Tab
  import SessionProofs

  /** A refresh of one tab; `cookie` is what it presents. */
  datatype Refresh =
    | Sent(cookie: Cookie)
    | Working(cookie: Cookie, plan: Plan)
    | Answered(cookie: Cookie, setTo: Cookie)
    | Delivered(cookie: Cookie, setTo: Cookie)
    | Lost(cookie: Cookie, setTo: Cookie)   // its page is gone, or the network failed

  /** `last` is the refresh whose response reached the jar last. */
  datatype State = State(db: Db, jar: Cookie, refreshes: map<nat, Refresh>, last: Option<nat>)

  datatype Action = Send(t: nat) | Read(t: nat) | Write(t: nat) | Reply(t: nat) | Deliver(t: nat) | Lose(t: nat)

  datatype Turn = Turn(at: int, action: Action)

  predicate Enabled(s: State, a: Action) {
    match a
    case Send(t) => t !in s.refreshes
    case Read(t) => t in s.refreshes && s.refreshes[t].Sent?
    case Write(t) => t in s.refreshes && s.refreshes[t].Working? && !s.refreshes[t].plan.Answer?
    case Reply(t) => t in s.refreshes && s.refreshes[t].Working? && s.refreshes[t].plan.Answer?
    case Deliver(t) => t in s.refreshes && s.refreshes[t].Answered?
    case Lose(t) => t in s.refreshes && s.refreshes[t].Answered?
  }

  function Move(s: State, t: nat, r: Refresh): State {
    s.(refreshes := s.refreshes[t := r])
  }

  function Do(s: State, now: int, a: Action): State
    requires Enabled(s, a)
  {
    match a
    case Send(t) => Move(s, t, Sent(s.jar))
    case Read(t) => Move(s, t, Working(s.refreshes[t].cookie, ReadRefresh(s.db, now, s.refreshes[t].cookie)))
    case Write(t) =>
      var Working(cookie, plan) := s.refreshes[t];
      var written := CallPlans.Write(s.db, now, plan);
      Move(s, t, Working(cookie, written.plan)).(db := written.db)
    case Reply(t) => Move(s, t, Answered(s.refreshes[t].cookie, T.CookieAfter(s.refreshes[t].plan.out)))
    case Deliver(t) =>
      var Answered(cookie, setTo) := s.refreshes[t];
      Move(s, t, Delivered(cookie, setTo)).(jar := setTo, last := Some(t))
    case Lose(t) => Move(s, t, Lost(s.refreshes[t].cookie, s.refreshes[t].setTo))
  }

  ghost predicate Runs(s: State, run: seq<Turn>, clock: int)
    decreases |run|
  {
    run == [] || (clock <= run[0].at && Enabled(s, run[0].action) &&
      Runs(Do(s, run[0].at, run[0].action), run[1..], run[0].at))
  }

  ghost function After(s: State, run: seq<Turn>, clock: int): State
    requires Runs(s, run, clock)
    decreases |run|
  {
    if run == [] then s else After(Do(s, run[0].at, run[0].action), run[1..], run[0].at)
  }

  /* ── The invariant ──────────────────────────────────────────────────── */

  /** The cookie a response on its way to the jar carries. */
  function Arriving(r: Refresh): Cookie {
    match r
    case Working(_, plan) => if plan.Answer? then T.CookieAfter(plan.out) else NoCookie
    case Answered(_, setTo) => setTo
    case _ => NoCookie
  }

  predicate Presents(r: Refresh, jti: nat) { r.cookie.Token? && r.cookie.jti == jti }

  /** The refresh has marked the row of its cookie. */
  predicate HasRotated(r: Refresh) {
    match r
    case Sent(_) => false
    case Working(_, plan) => plan.Succeed? || (plan.Answer? && T.CookieAfter(plan.out).Token?)
    case Answered(_, setTo) => setTo.Token?
    case Delivered(_, setTo) => setTo.Token?
    case Lost(_, setTo) => setTo.Token?
  }

  predicate RotatedBy(s: State, t: nat, jti: nat) {
    t in s.refreshes && HasRotated(s.refreshes[t]) && Presents(s.refreshes[t], jti)
  }

  ghost predicate IsRotated(s: State, jti: nat) { exists t :: RotatedBy(s, t, jti) }

  /** A token of the session that began at `start`: good for its life from then, if not used or revoked. */
  predicate IsGood(db: Db, start: int, c: Cookie) {
    c.Token? ==>
      && c.jti in db.rows
      && db.rows[c.jti].user == c.sub && c.sub in db.users && db.users[c.sub].status == Active
      && start + db.ttlSec * 1000 <= db.rows[c.jti].expiresAt && start / 1000 + db.ttlSec <= c.exp
      && (db.rows[c.jti].isUsed ==> db.rows[c.jti].usedAt.Some?)
      && (db.rows[c.jti].revokedAt.Some? ==> db.rows[c.jti].isFamilyRevoked)
  }

  /** The token's row is used only if one of the refreshes has rotated it. */
  ghost predicate IsExplained(s: State, c: Cookie) {
    c.Token? && c.jti in s.db.rows && s.db.rows[c.jti].isUsed ==> IsRotated(s, c.jti)
  }

  predicate PlanIsGood(db: Db, cookie: Cookie, p: Plan) {
    match p
    case Mark(jti, row) =>
      cookie.Token? && jti == cookie.jti && jti in db.rows && row.user == db.rows[jti].user &&
        row.family == db.rows[jti].family
    case Succeed(jti, user, family) =>
      cookie.Token? && jti == cookie.jti && jti in db.rows && user == db.rows[jti].user && family == db.rows[jti].family
    case BanAll(_) => true
    case Answer(_) => true
    case _ => false
  }

  /** An arriving token is unused, in no jar yet, presented by nobody and carried by no other response. */
  ghost predicate IsNew(s: State, t: nat)
    requires t in s.refreshes
  {
    Arriving(s.refreshes[t]).Token? ==>
      var jti := Arriving(s.refreshes[t]).jti;
      && jti in s.db.rows && !s.db.rows[jti].isUsed
      && (s.jar.Token? ==> s.jar.jti != jti)
      && (forall u :: u in s.refreshes ==> !Presents(s.refreshes[u], jti))
      && (forall u :: u in s.refreshes && u != t && Arriving(s.refreshes[u]).Token? ==>
        Arriving(s.refreshes[u]).jti != jti)
  }

  ghost predicate RefreshFits(s: State, start: int, t: nat)
    requires t in s.refreshes
  {
    var r := s.refreshes[t];
    && IsGood(s.db, start, r.cookie) && IsExplained(s, r.cookie)
    && IsGood(s.db, start, Arriving(r))
    && (r.Working? ==> PlanIsGood(s.db, r.cookie, r.plan))
    && (HasRotated(r) ==> r.cookie.Token? && r.cookie.jti in s.db.rows && s.db.rows[r.cookie.jti].isUsed)
    && (r.Delivered? && s.jar.Token? ==> !Presents(r, s.jar.jti))
  }

  ghost predicate Inv(s: State, start: int) {
    && (forall j :: j in s.db.rows ==> j < s.db.nextJti)
    && IsGood(s.db, start, s.jar) && IsExplained(s, s.jar)
    && (forall t :: t in s.refreshes ==> IsNew(s, t) && RefreshFits(s, start, t))
    && (s.last.Some? ==> s.last.value in s.refreshes && s.refreshes[s.last.value].Delivered?
                         && s.refreshes[s.last.value].setTo == s.jar)
  }

  /* ── Each step keeps it ─────────────────────────────────────────────── */

  /** A refresh goes on with the cookie it presents; only that cookie's row may become used. */
  ghost predicate GoesOn(s: State, s': State, t: nat) {
    && t in s'.refreshes && s' == s.(db := s'.db, refreshes := s.refreshes[t := s'.refreshes[t]])
    && (t in s.refreshes ==>
          s'.refreshes[t].cookie == s.refreshes[t].cookie &&
            (HasRotated(s.refreshes[t]) ==> HasRotated(s'.refreshes[t])))
    && s.db.users == s'.db.users && s.db.ttlSec == s'.db.ttlSec
    && (forall j :: j in s.db.rows ==>
          && j in s'.db.rows
          && (var after := s'.db.rows[j];
              after == s.db.rows[j].(isUsed := after.isUsed, usedAt := after.usedAt,
                                     revokedAt := after.revokedAt, isFamilyRevoked := after.isFamilyRevoked))
          && (s.db.rows[j].isUsed ==> s'.db.rows[j].isUsed)
          && (s'.db.rows[j].isUsed && s'.db.rows[j].usedAt != s.db.rows[j].usedAt ==> s'.db.rows[j].usedAt.Some?)
          && (s'.db.rows[j].isUsed && !s.db.rows[j].isUsed ==> s'.db.rows[j].usedAt.Some? && RotatedBy(s', t, j))
          && (s'.db.rows[j].revokedAt == s.db.rows[j].revokedAt || s'.db.rows[j].isFamilyRevoked)
          && (s.db.rows[j].isFamilyRevoked ==> s'.db.rows[j].isFamilyRevoked))
    && s.db.nextJti <= s'.db.nextJti && (forall j :: j in s'.db.rows ==> j < s'.db.nextJti)
  }

  lemma GoingOnKeepsGood(s: State, s': State, t: nat, start: int, c: Cookie)
    requires GoesOn(s, s', t) && IsGood(s.db, start, c)
    ensures IsGood(s'.db, start, c)
  {
  }

  lemma GoingOnKeepsExplained(s: State, s': State, t: nat, c: Cookie)
    requires GoesOn(s, s', t) && IsExplained(s, c) && (c.Token? ==> c.jti in s.db.rows)
    ensures IsExplained(s', c)
  {
    if c.Token? && s'.db.rows[c.jti].isUsed {
      if s.db.rows[c.jti].isUsed {
        var u :| RotatedBy(s, u, c.jti);
        assert RotatedBy(s', u, c.jti);
      } else {
        assert RotatedBy(s', t, c.jti);
      }
    }
  }

  /** What the moving refresh carries is what it carried, or new. */
  predicate CarriesNoOld(s: State, s': State, t: nat) {
    && t in s'.refreshes
    && (Arriving(s'.refreshes[t]).Token? ==>
          || (t in s.refreshes && Arriving(s'.refreshes[t]) == Arriving(s.refreshes[t]))
          || Arriving(s'.refreshes[t]).jti !in s.db.rows)
    && (t !in s.refreshes ==> s'.refreshes[t].cookie == s.jar)
  }

  lemma GoingOnKeepsNew(s: State, s': State, t: nat, u: nat)
    requires GoesOn(s, s', t) && CarriesNoOld(s, s', t) && u in s.refreshes && u != t && IsNew(s, u)
    ensures IsNew(s', u)
  {
    if Arriving(s.refreshes[u]).Token? && t in s.refreshes {
      assert !Presents(s.refreshes[t], Arriving(s.refreshes[u]).jti);
    }
  }

  lemma GoingOnKeepsRefresh(s: State, s': State, t: nat, start: int, u: nat)
    requires GoesOn(s, s', t) && u in s.refreshes && u != t && RefreshFits(s, start, u)
    ensures RefreshFits(s', start, u)
  {
    GoingOnKeepsGood(s, s', t, start, s.refreshes[u].cookie);
    GoingOnKeepsGood(s, s', t, start, Arriving(s.refreshes[u]));
    GoingOnKeepsExplained(s, s', t, s.refreshes[u].cookie);
  }

  /** What the refresh itself has come to must fit; everything else follows. */
  lemma GoingOnKeepsInv(s: State, s': State, t: nat, start: int)
    requires Inv(s, start) && GoesOn(s, s', t) && CarriesNoOld(s, s', t)
    requires IsNew(s', t) && RefreshFits(s', start, t)
    requires t in s.refreshes ==> !s.refreshes[t].Delivered?
    ensures Inv(s', start)
  {
    GoingOnKeepsGood(s, s', t, start, s.jar);
    GoingOnKeepsExplained(s, s', t, s.jar);
    forall u | u in s'.refreshes ensures IsNew(s', u) && RefreshFits(s', start, u) {
      if u != t {
        GoingOnKeepsNew(s, s', t, u);
        GoingOnKeepsRefresh(s, s', t, start, u);
      }
    }
  }

  lemma SendKeepsInv(s: State, start: int, now: int, t: nat)
    requires Inv(s, start) && Enabled(s, Send(t))
    ensures Inv(Do(s, now, Send(t)), start)
  {
    var s' := Do(s, now, Send(t));
    GoingOnKeepsExplained(s, s', t, s.jar);
    forall u | u in s.refreshes ensures IsNew(s', u) && RefreshFits(s', start, u) {
      assert IsNew(s, u);
      GoingOnKeepsRefresh(s, s', t, start, u);
    }
  }

  lemma ReadKeepsInv(s: State, start: int, now: int, t: nat)
    requires Inv(s, start) && Enabled(s, Read(t))
    ensures Inv(Do(s, now, Read(t)), start)
  {
    var s' := Do(s, now, Read(t));
    assert RefreshFits(s, start, t);
    GoingOnKeepsExplained(s, s', t, s.refreshes[t].cookie);
    GoingOnKeepsInv(s, s', t, start);
  }

  lemma WriteGoesOn(s: State, start: int, now: int, t: nat)
    requires Inv(s, start) && start <= now && Enabled(s, Write(t))
    ensures var s' := Do(s, now, Write(t)); GoesOn(s, s', t) && CarriesNoOld(s, s', t)
  {
    assert RefreshFits(s, start, t);
  }

  lemma WriteFits(s: State, start: int, now: int, t: nat)
    requires Inv(s, start) && start <= now && Enabled(s, Write(t))
    ensures var s' := Do(s, now, Write(t)); IsNew(s', t) && RefreshFits(s', start, t)
  {
    var s' := Do(s, now, Write(t));
    assert RefreshFits(s, start, t);
    WriteGoesOn(s, start, now, t);
    GoingOnKeepsExplained(s, s', t, s.refreshes[t].cookie);
    WrittenIsNew(s, start, now, t);
  }

  lemma WrittenIsNew(s: State, start: int, now: int, t: nat)
    requires Inv(s, start) && Enabled(s, Write(t))
    ensures IsNew(Do(s, now, Write(t)), t)
  {
    forall u | u in s.refreshes ensures RefreshFits(s, start, u) {}
  }

  lemma WriteKeepsInv(s: State, start: int, now: int, t: nat)
    requires Inv(s, start) && start <= now && Enabled(s, Write(t))
    ensures Inv(Do(s, now, Write(t)), start)
  {
    hide Inv;
    WriteGoesOn(s, start, now, t);
    WriteFits(s, start, now, t);
    GoingOnKeepsInv(s, Do(s, now, Write(t)), t, start);
  }

  lemma ReplyKeepsInv(s: State, start: int, now: int, t: nat)
    requires Inv(s, start) && (Enabled(s, Reply(t)) || Enabled(s, Lose(t)))
    ensures Enabled(s, Reply(t)) ==> Inv(Do(s, now, Reply(t)), start)
    ensures Enabled(s, Lose(t)) ==> Inv(Do(s, now, Lose(t)), start)
  {
    var s' := if Enabled(s, Reply(t)) then Do(s, now, Reply(t)) else Do(s, now, Lose(t));
    assert RefreshFits(s, start, t) && IsNew(s, t);
    GoingOnKeepsExplained(s, s', t, s.refreshes[t].cookie);
    GoingOnKeepsInv(s, s', t, start);
  }

  lemma DeliveryKeepsRefresh(s: State, start: int, now: int, t: nat, u: nat)
    requires Inv(s, start) && Enabled(s, Deliver(t)) && u in s.refreshes
    ensures IsNew(Do(s, now, Deliver(t)), u) && RefreshFits(Do(s, now, Deliver(t)), start, u)
  {
    hide PlanIsGood;
    var s' := Do(s, now, Deliver(t));
    assert IsNew(s, t) && RefreshFits(s, start, t) && IsNew(s, u) && RefreshFits(s, start, u);
    if s.refreshes[u].cookie.Token? && s.db.rows[s.refreshes[u].cookie.jti].isUsed {
      var v :| RotatedBy(s, v, s.refreshes[u].cookie.jti);
      assert RotatedBy(s', v, s.refreshes[u].cookie.jti);
    }
  }

  lemma DeliverKeepsInv(s: State, start: int, now: int, t: nat)
    requires Inv(s, start) && Enabled(s, Deliver(t))
    ensures Inv(Do(s, now, Deliver(t)), start)
  {
    var s' := Do(s, now, Deliver(t));
    forall u | u in s'.refreshes ensures IsNew(s', u) && RefreshFits(s', start, u) {
      DeliveryKeepsRefresh(s, start, now, t, u);
    }
    hide IsNew, PlanIsGood;
    assert RefreshFits(s, start, t);
    forall u, j: nat ensures RotatedBy(s', u, j) == RotatedBy(s, u, j) {}
  }

  lemma StepKeepsInv(s: State, start: int, now: int, a: Action)
    requires Inv(s, start) && start <= now && Enabled(s, a)
    ensures Inv(Do(s, now, a), start)
  {
    hide Inv, Do;
    match a
    case Send(t) => SendKeepsInv(s, start, now, t);
    case Read(t) => ReadKeepsInv(s, start, now, t);
    case Write(t) => WriteKeepsInv(s, start, now, t);
    case Reply(t) => ReplyKeepsInv(s, start, now, t);
    case Deliver(t) => DeliverKeepsInv(s, start, now, t);
    case Lose(t) => ReplyKeepsInv(s, start, now, t);
  }

  lemma {:induction false} RunKeepsInv(s: State, run: seq<Turn>, clock: int, start: int)
    requires Inv(s, start) && start <= clock && Runs(s, run, clock)
    ensures Inv(After(s, run, clock), start)
    decreases |run|
  {
    hide Inv, Do, Enabled;
    if run != [] {
      StepKeepsInv(s, start, run[0].at, run[0].action);
      RunKeepsInv(Do(s, run[0].at, run[0].action), run[1..], run[0].at, start);
    }
  }

  /* ── When a refresh is judged a replay ──────────────────────────────── */

  /** One live cookie in the jar, handed out at `start`, and no refresh yet. */
  ghost predicate Init(s: State, start: int) {
    && s.refreshes == map[] && s.last == None
    && SessionProofs.IsUnspent(s.db, s.jar, start)
    && forall j :: j in s.db.rows ==> j < s.db.nextJti
  }

  /**
   * In every interleaving: whenever the server reads for a refresh whose cookie has not
   * expired, it judges a replay exactly if another refresh that presented the same cookie has
   * marked its row by then, whether or not that one's response was lost.
   */
  lemma RefreshReplaysExactlyIfRotatedBefore(s: State, run: seq<Turn>, start: int, t: nat, now: int)
    requires Init(s, start) && Runs(s, run, start)
    requires t in After(s, run, start).refreshes && After(s, run, start).refreshes[t].Sent?
    requires var cookie := After(s, run, start).refreshes[t].cookie; cookie.Token? && now / 1000 < cookie.exp
    ensures var end := After(s, run, start);
      var v := Decide(end.db, now, end.refreshes[t].cookie);
      (v.Tolerate? || v.Ban?) <==> exists u :: u != t && RotatedBy(end, u, end.refreshes[t].cookie.jti)
  {
    RunKeepsInv(s, run, start, start);
    var end := After(s, run, start);
    var jti := end.refreshes[t].cookie.jti;
    assert RefreshFits(end, start, t);
    if u :| RotatedBy(end, u, jti) { assert u != t && RefreshFits(end, start, u); }
  }

  /* ── When the session survives ──────────────────────────────────────── */

  /** Every response has arrived or is lost. */
  predicate Settled(s: State) {
    forall t :: t in s.refreshes ==> s.refreshes[t].Delivered? || s.refreshes[t].Lost?
  }

  /** The response that reached the jar last carried a token, not a placeholder and no clearing. */
  predicate LastRotated(s: State) {
    s.last.Some? && s.last.value in s.refreshes && s.refreshes[s.last.value].Delivered? ==>
      s.refreshes[s.last.value].setTo.Token?
  }

  /** A refresh rotated the jar's token and its response was lost. */
  predicate SuccessorLost(s: State, t: nat) {
    s.jar.Token? && RotatedBy(s, t, s.jar.jti) && s.refreshes[t].Lost?
  }

  /** A ban of the row's family is written while the row exists. */
  ghost predicate BanReaches(s: State, run: seq<Turn>, clock: int, jti: nat)
    requires Runs(s, run, clock)
    decreases |run|
  {
    run != [] && (BansNow(s, run[0].action, jti)
                  || BanReaches(Do(s, run[0].at, run[0].action), run[1..], run[0].at, jti))
  }

  predicate BansNow(s: State, a: Action, jti: nat) {
    && a.Write? && a.t in s.refreshes && s.refreshes[a.t].Working? && s.refreshes[a.t].plan.BanAll?
    && jti in s.db.rows && s.db.rows[jti].family == s.refreshes[a.t].plan.family
  }

  lemma StepBans(s: State, start: int, now: int, a: Action, jti: nat)
    requires Inv(s, start) && Enabled(s, a)
    ensures jti in s.db.rows ==>
      && jti in Do(s, now, a).db.rows
      && (Do(s, now, a).db.rows[jti].isFamilyRevoked <==> s.db.rows[jti].isFamilyRevoked || BansNow(s, a, jti))
    ensures jti !in s.db.rows && jti in Do(s, now, a).db.rows ==> !Do(s, now, a).db.rows[jti].isFamilyRevoked
    ensures BansNow(s, a, jti) ==> jti in s.db.rows
  {
    if a.Write? { assert RefreshFits(s, start, a.t); }
  }

  /** The bans that reach a row are exactly the ones written after it. */
  lemma {:induction false} RowIsBannedExactlyIfReached(s: State, run: seq<Turn>, clock: int, start: int, jti: nat)
    requires Inv(s, start) && start <= clock && Runs(s, run, clock) && jti in After(s, run, clock).db.rows
    ensures After(s, run, clock).db.rows[jti].isFamilyRevoked
      <==> (jti in s.db.rows && s.db.rows[jti].isFamilyRevoked) || BanReaches(s, run, clock, jti)
    decreases |run|
  {
    hide Inv, Do;
    if run != [] {
      StepBans(s, start, run[0].at, run[0].action, jti);
      StepKeepsInv(s, start, run[0].at, run[0].action);
      RowIsBannedExactlyIfReached(Do(s, run[0].at, run[0].action), run[1..], run[0].at, start, jti);
    }
  }

  /** A refresh with an unexpired cookie reads its row more than five seconds after it was marked. */
  predicate IsLateRead(s: State, now: int, a: Action) {
    && a.Read? && a.t in s.refreshes && s.refreshes[a.t].cookie.Token? && s.refreshes[a.t].cookie.jti in s.db.rows
    && SessionProofs.IsLateReplay(s.db.rows[s.refreshes[a.t].cookie.jti], now, s.refreshes[a.t].cookie)
  }

  ghost predicate NoLateRead(s: State, run: seq<Turn>, clock: int)
    requires Runs(s, run, clock)
    decreases |run|
  {
    run == [] || (!IsLateRead(s, run[0].at, run[0].action)
                  && NoLateRead(Do(s, run[0].at, run[0].action), run[1..], run[0].at))
  }

  ghost predicate NobodyBans(s: State) {
    forall t :: t in s.refreshes && s.refreshes[t].Working? ==> !s.refreshes[t].plan.BanAll?
  }

  /** A ban is decided exactly by a late reading. */
  lemma TurnBansExactlyIfLate(s: State, start: int, now: int, a: Action)
    requires Inv(s, start) && Enabled(s, a) && NobodyBans(s)
    ensures NobodyBans(Do(s, now, a)) <==> !IsLateRead(s, now, a)
  {
    if a.Read? {
      assert RefreshFits(s, start, a.t);
      assert IsLateRead(s, now, a) ==> Do(s, now, a).refreshes[a.t].plan.BanAll?;
    }
    if a.Write? { assert RefreshFits(s, start, a.t); }
  }

  lemma {:induction false} NoBanWithoutLateRead(s: State, run: seq<Turn>, clock: int, start: int, jti: nat)
    requires Inv(s, start) && start <= clock && Runs(s, run, clock) && NobodyBans(s) && NoLateRead(s, run, clock)
    ensures !BanReaches(s, run, clock, jti)
    decreases |run|
  {
    hide Inv, Do;
    if run != [] {
      TurnBansExactlyIfLate(s, start, run[0].at, run[0].action);
      StepKeepsInv(s, start, run[0].at, run[0].action);
      NoBanWithoutLateRead(Do(s, run[0].at, run[0].action), run[1..], run[0].at, start, jti);
    }
  }

  /** The jar changes only with a response, and the configured lifetime not at all. */
  lemma {:induction false} RunKeepsStart(s: State, run: seq<Turn>, clock: int)
    requires Runs(s, run, clock)
    ensures After(s, run, clock).db.ttlSec == s.db.ttlSec
    ensures After(s, run, clock).last.None? ==> After(s, run, clock).jar == s.jar
    ensures s.last.Some? ==> After(s, run, clock).last.Some?
    decreases |run|
  {
    if run != [] {
      RunKeepsStart(Do(s, run[0].at, run[0].action), run[1..], run[0].at);
    }
  }

  /** What is in the jar or on its way there is none of the `others` rows. */
  ghost predicate IsOwn(s: State, others: set<nat>) {
    && others <= s.db.rows.Keys && (s.jar.Token? ==> s.jar.jti !in others)
    && forall t :: t in s.refreshes && Arriving(s.refreshes[t]).Token? ==> Arriving(s.refreshes[t]).jti !in others
  }

  lemma StepKeepsOwn(s: State, start: int, now: int, a: Action, others: set<nat>)
    requires Inv(s, start) && Enabled(s, a) && IsOwn(s, others)
    ensures IsOwn(Do(s, now, a), others)
  {
    if a.Write? || a.Read? { assert RefreshFits(s, start, a.t); }
  }

  lemma {:induction false} RunKeepsOwn(s: State, run: seq<Turn>, clock: int, start: int, others: set<nat>)
    requires Inv(s, start) && start <= clock && Runs(s, run, clock) && IsOwn(s, others)
    ensures IsOwn(After(s, run, clock), others)
    decreases |run|
  {
    hide Inv, Do, IsOwn;
    if run != [] {
      StepKeepsOwn(s, start, run[0].at, run[0].action, others);
      StepKeepsInv(s, start, run[0].at, run[0].action);
      RunKeepsOwn(Do(s, run[0].at, run[0].action), run[1..], run[0].at, start, others);
    }
  }

  /**
   * Any number of tabs refresh without a common mutex, in every interleaving. Once all
   * responses have arrived or are lost, the session can go on exactly if the last response to
   * reach the jar carried a token, no ban was written after that token's row, and no refresh
   * that rotated the token lost its response. Without a reading more than five seconds after
   * the marking there is no ban.
   */
  lemma SessionSurvivesExactlyIfLastResponseRotated(s: State, run: seq<Turn>, start: int, later: int)
    requires Init(s, start) && Runs(s, run, start) && Settled(After(s, run, start))
    requires later <= start + s.db.ttlSec * 1000 && later / 1000 < start / 1000 + s.db.ttlSec
    ensures var end := After(s, run, start);
      && (Decide(end.db, later, end.jar).Rotate? <==>
            LastRotated(end) && (forall t :: !SuccessorLost(end, t))
            && !(end.jar.Token? && BanReaches(s, run, start, end.jar.jti)))
      && (NoLateRead(s, run, start) ==> !(end.jar.Token? && BanReaches(s, run, start, end.jar.jti)))
  {
    RunKeepsInv(s, run, start, start);
    RunKeepsStart(s, run, start);
    RunKeepsOwn(s, run, start, start, s.db.rows.Keys - {s.jar.jti});
    var end := After(s, run, start);
    if end.jar.Token? {
      RowIsBannedExactlyIfReached(s, run, start, start, end.jar.jti);
      if NoLateRead(s, run, start) { NoBanWithoutLateRead(s, run, start, start, end.jar.jti); }
      UsedExactlyIfSuccessorLost(end, start);
    }
  }

  lemma UsedExactlyIfSuccessorLost(s: State, start: int)
    requires Inv(s, start) && Settled(s) && s.jar.Token?
    ensures s.db.rows[s.jar.jti].isUsed <==> exists t :: SuccessorLost(s, t)
  {
    if s.db.rows[s.jar.jti].isUsed {
      var t :| RotatedBy(s, t, s.jar.jti);
      assert RefreshFits(s, start, t);
      assert SuccessorLost(s, t);
    }
    if t :| SuccessorLost(s, t) { assert RefreshFits(s, start, t); }
  }
}
