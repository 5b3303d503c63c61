/**
 * Calls that read before a session was ended and write afterwards: the only way in which a
 * family can gain a row after its eviction, or a disabled user a session.
 */
module Stragglers {
  import opened Prelude
  import opened Sessions
  import opened SessionProofs
  import opened CallPlans
  import opened SplitCalls
  import opened SplitProofs

  /** What was shut: one session family, or all sessions of a disabled user. */
  datatype Target = OfFamily(family: nat) | OfUser(user: UserId)

  predicate Covers(t: Target, user: UserId, family: nat) {
    match t
    case OfFamily(f) => family == f
    case OfUser(u) => user == u
  }

  function RowsOf(rows: map<nat, Row>, t: Target): set<nat> {
    set j | j in rows && Covers(t, rows[j].user, rows[j].family)
  }

  ghost predicate IsShut(db: Db, t: Target) {
    match t
    case OfFamily(f) =>
      f < db.nextFamily && forall j :: j in db.rows && db.rows[j].family == f ==> db.rows[j].revokedAt.Some?
    case OfUser(u) => u in db.users && db.users[u].status == Inactive
  }

  /** A waiting call that will give the target a row if it goes on. */
  predicate Aims(t: Target, p: Plan) {
    match p
    case Start(user, _) => t == OfUser(user)
    case Spend(user, _, _) => t == OfUser(user)
    case Mark(_, row) => Covers(t, row.user, row.family)
    case Succeed(_, user, family) => Covers(t, user, family)
    case _ => false
  }

  /** The turn re-enables the user that was disabled. */
  predicate Reopens(t: Target, a: Action) {
    && t.OfUser? && a.Begin? && a.event.UpdateUserEvent?
    && a.event.user == t.user && a.event.status == Some(Active)
  }

  predicate NeverReopens(t: Target, run: seq<Turn>) {
    forall i :: 0 <= i < |run| ==> !Reopens(t, run[i].action)
  }

  /** One of the calls creates a row of the target. */
  predicate Creates(w: World, a: Action, t: Target, calls: set<nat>) {
    && a.Resume? && a.c in calls && a.c in w.calls
    && (w.calls[a.c].Start? || w.calls[a.c].Succeed?) && Aims(t, w.calls[a.c])
  }

  ghost predicate SomeCreates(w: World, run: seq<Turn>, clock: int, t: Target, calls: set<nat>)
    requires Runs(w, run, clock)
    decreases |run|
  {
    run != [] && (Creates(w, run[0].action, t, calls)
                  || SomeCreates(Do(w, run[0].at, run[0].action), run[1..], run[0].at, t, calls))
  }

  /** The calls waiting with a plan for the target: all of them read before it was shut. */
  function StragglersOf(w: World, t: Target): set<nat> {
    set c | c in w.calls && Aims(t, w.calls[c])
  }

  lemma NobodyNewAims(db: Db, now: int, e: Event, t: Target)
    requires IsShut(db, t)
    ensures !Aims(t, Read(db, now, e))
  {
  }

  lemma WriteKeepsAim(db: Db, now: int, p: Plan, t: Target)
    requires Aims(t, Write(db, now, p).plan)
    ensures Aims(t, p)
  {
  }

  lemma WriteKeepsShut(db: Db, now: int, p: Plan, t: Target)
    requires TablesFit(db, now) && PlanFits(db, p) && IsShut(db, t)
    requires (p.Start? || p.Succeed?) ==> !Aims(t, p)
    ensures var db' := Write(db, now, p).db; IsShut(db', t) && RowsOf(db'.rows, t) == RowsOf(db.rows, t)
  {
    WriteShape(db, now, p);
  }

  /** A turn that creates no row of the target leaves it shut and with the rows it had. */
  lemma TurnKeepsShut(w: World, clock: int, now: int, a: Action, t: Target)
    requires WorldInv(w, clock) && clock <= now && Enabled(w, a) && IsShut(w.db, t)
    requires !Reopens(t, a) && !Creates(w, a, t, w.calls.Keys)
    ensures IsShut(Do(w, now, a).db, t) && RowsOf(Do(w, now, a).db.rows, t) == RowsOf(w.db.rows, t)
    ensures StragglersOf(Do(w, now, a), t) <= StragglersOf(w, t)
  {
    match a
    case Begin(c, e) =>
      if IsWhole(e) { WholeFits(w.db, now, e); StepStatus(w.db, now, e); } else { NobodyNewAims(w.db, now, e, t); }
    case Resume(c) =>
      WriteKeepsShut(w.db, now, w.calls[c], t);
      if Aims(t, Write(w.db, now, w.calls[c]).plan) { WriteKeepsAim(w.db, now, w.calls[c], t); }
  }

  lemma CreationAdds(w: World, clock: int, now: int, a: Action, t: Target)
    requires WorldInv(w, clock) && clock <= now && Enabled(w, a) && IsShut(w.db, t) && Creates(w, a, t, w.calls.Keys)
    ensures w.db.nextJti in RowsOf(Do(w, now, a).db.rows, t) && w.db.nextJti !in RowsOf(w.db.rows, t)
  {
  }

  lemma {:induction false} GainsRowExactlyByStraggler(w: World, run: seq<Turn>, clock: int, t: Target, calls: set<nat>)
    requires WorldInv(w, clock) && Runs(w, run, clock) && IsShut(w.db, t) && NeverReopens(t, run)
    requires StragglersOf(w, t) <= calls
    ensures RowsOf(w.db.rows, t) <= RowsOf(After(w, run, clock).db.rows, t)
    ensures RowsOf(After(w, run, clock).db.rows, t) != RowsOf(w.db.rows, t) <==> SomeCreates(w, run, clock, t, calls)
    ensures RowsOf(After(w, run, clock).db.rows, t) == RowsOf(w.db.rows, t) ==> IsShut(After(w, run, clock).db, t)
    decreases |run|
  {
    RunKeepsWorld(w, run, clock);
    if run != [] {
      var now, a := run[0].at, run[0].action;
      var w' := Do(w, now, a);
      TurnKeepsWorld(w, clock, now, a);
      if Creates(w, a, t, w.calls.Keys) {
        CreationAdds(w, clock, now, a, t);
        RunKeepsWorld(w', run[1..], now);
        assert a.c in StragglersOf(w, t);
        assert w.db.nextJti in RowsOf(After(w, run, clock).db.rows, t);
      } else {
        TurnKeepsShut(w, clock, now, a, t);
        GainsRowExactlyByStraggler(w', run[1..], now, t, calls);
      }
    }
  }

  /**
   * After a family was evicted or a user disabled, and as long as the user stays disabled: a
   * row is added to the family, or for the user, exactly if a call that had read before goes
   * on to create it; and if none is, the family or user stays shut.
   */
  lemma ShutTargetGainsRowExactlyByStraggler(w: World, run: seq<Turn>, clock: int, t: Target)
    requires WorldInv(w, clock) && Runs(w, run, clock) && IsShut(w.db, t) && NeverReopens(t, run)
    ensures RowsOf(After(w, run, clock).db.rows, t) != RowsOf(w.db.rows, t)
      <==> SomeCreates(w, run, clock, t, StragglersOf(w, t))
    ensures RowsOf(After(w, run, clock).db.rows, t) == RowsOf(w.db.rows, t) ==> IsShut(After(w, run, clock).db, t)
  {
    GainsRowExactlyByStraggler(w, run, clock, t, StragglersOf(w, t));
  }

  /** Presented to a shut family, a cookie never rotates, and mints exactly as a fresh replay. */
  lemma ShutFamilyMintsExactlyFreshReplays(db: Db, clock: int, now: int, cookie: Cookie)
    requires TablesFit(db, clock) && cookie.Token? && cookie.jti in db.rows
    requires IsShut(db, OfFamily(db.rows[cookie.jti].family))
    ensures var p := Read(db, now, RefreshEvent(cookie));
      && !p.Mark?
      && (p.Answer? && p.out.Refreshed? <==> IsFreshReplay(db.rows[cookie.jti], now, cookie))
  {
  }

  /* ── The evicting turns shut every family of the user ───────────────── */

  /** The turn that commits a password reset, a password change or a deactivation of the user. */
  predicate EvictsUser(w: World, now: int, a: Action, user: UserId) {
    match a
    case Begin(_, e) => IsWhole(e) && Evicts(w.db, now, e, user)
    case Resume(c) =>
      && c in w.calls
      && ((w.calls[c].Reset? && w.calls[c].user == user) || (w.calls[c].Change? && w.calls[c].user == user))
  }

  lemma EvictionShuts(w: World, clock: int, now: int, a: Action, j: nat)
    requires WorldInv(w, clock) && clock <= now && Enabled(w, a) && j in w.db.rows
    requires EvictsUser(w, now, a, w.db.rows[j].user) || (a.Resume? && w.calls[a.c] == BanAll(w.db.rows[j].family))
    ensures IsShut(Do(w, now, a).db, OfFamily(w.db.rows[j].family))
  {
    assert a.Resume? ==> PlanFits(w.db, w.calls[a.c]);
    forall k | k in w.db.rows && w.db.rows[k].family == w.db.rows[j].family
      ensures w.db.rows[k].user == w.db.rows[j].user
    {
      assert SameFamily(w.db.rows, j, k);
    }
  }

  /**
   * The input: a refresh reads its live row, the password is reset or changed, the refresh
   * writes. The cookie it hands out is live in the evicted family and, refreshed in time,
   * lasts for ever.
   */
  lemma StraddlingRefreshOutlivesEviction(db: Db, clock: int, read: int, cookie: Cookie, off: int, e: Event, write: int,
      times: seq<int>)
    requires Inv(db, clock) && clock <= read <= off <= write
    requires Decide(db, read, cookie).Rotate? && Evicts(db, off, e, cookie.sub) && !e.UpdateUserEvent?
    requires InOrder(times, write)
    ensures var evicted := Step(db, off, e).db;
      var effect := Commit(evicted, write, Decide(db, read, cookie));
      && IsShut(evicted, OfFamily(db.rows[cookie.jti].family))
      && effect.out.Refreshed? && effect.out.cookie.Token? && effect.out.cookie.jti in effect.db.rows
      && effect.db.rows[effect.out.cookie.jti].family == db.rows[cookie.jti].family
      && (AllRefreshed(effect.db, effect.out.cookie, times) <==> WithinLife(times, write, db.ttlSec))
  {
    EvictionKills(db, clock, off, e, db.rows[cookie.jti].family, cookie.jti);
    var effect := Commit(Step(db, off, e).db, write, Decide(db, read, cookie));
    assert IsUnspent(effect.db, effect.out.cookie, write);
    SessionsLastWhileRefreshed(effect.db, effect.out.cookie, write, times);
  }
}
