/** Sessions that start after a password change without the new password. */
module LoginStragglers {
  import opened Prelude
  import opened Sessions
  import opened SessionProofs
  import opened CallPlans
  import opened SplitCalls
  import opened SplitProofs

  function FamiliesOf(rows: map<nat, Row>, user: UserId): set<nat> {
    set j | j in rows && rows[j].user == user :: rows[j].family
  }

  /** A waiting call that will start a session of the user if it goes on. */
  predicate WillStart(p: Plan, user: UserId) {
    (p.Start? || p.Spend?) && p.user == user
  }

  /** A login with the current password begins, or a second step with a challenge of the user. */
  predicate Authenticates(w: World, a: Action, user: UserId) {
    && a.Begin? && user in w.db.users
    && match a.event
       case LoginEvent(u, password) => u == user && password == w.db.users[user].password
       case VerifyEvent(challenge, _, _, _) => challenge == Some(user)
       case _ => false
  }

  ghost predicate NobodyAuthenticates(w: World, run: seq<Turn>, clock: int, user: UserId)
    requires Runs(w, run, clock)
    decreases |run|
  {
    run == [] || (!Authenticates(w, run[0].action, user)
                  && NobodyAuthenticates(Do(w, run[0].at, run[0].action), run[1..], run[0].at, user))
  }

  /** One of the calls starts a session of the user. */
  predicate Starts(w: World, a: Action, user: UserId, calls: set<nat>) {
    a.Resume? && a.c in calls && a.c in w.calls && w.calls[a.c].Start? && w.calls[a.c].user == user
  }

  ghost predicate SomeStarts(w: World, run: seq<Turn>, clock: int, user: UserId, calls: set<nat>)
    requires Runs(w, run, clock)
    decreases |run|
  {
    run != [] && (Starts(w, run[0].action, user, calls)
                  || SomeStarts(Do(w, run[0].at, run[0].action), run[1..], run[0].at, user, calls))
  }

  function Starters(w: World, user: UserId): set<nat> {
    set c | c in w.calls && WillStart(w.calls[c], user)
  }

  lemma ReadingStartsNothing(db: Db, now: int, c: nat, e: Event, user: UserId, w: World)
    requires w.db == db && user in db.users && !Authenticates(w, Begin(c, e), user)
    ensures !WillStart(Read(db, now, e), user)
  {
  }

  lemma WriteKeepsStart(db: Db, now: int, p: Plan, user: UserId)
    requires WillStart(Write(db, now, p).plan, user)
    ensures WillStart(p, user)
  {
  }

  lemma WriteKeepsFamilies(db: Db, now: int, p: Plan, user: UserId)
    requires TablesFit(db, now) && PlanFits(db, p) && !(p.Start? && p.user == user)
    ensures FamiliesOf(Write(db, now, p).db.rows, user) == FamiliesOf(db.rows, user)
  {
    WriteShape(db, now, p);
    var rows, rows' := db.rows, Write(db, now, p).db.rows;
    forall f | f in FamiliesOf(rows, user) ensures f in FamiliesOf(rows', user) {
      var j :| j in rows && rows[j].user == user && rows[j].family == f;
      assert j in rows' && rows'[j].user == user && rows'[j].family == f;
    }
    forall f | f in FamiliesOf(rows', user) ensures f in FamiliesOf(rows, user) {
      var j :| j in rows' && rows'[j].user == user && rows'[j].family == f;
      var k := if j in rows then j else p.jti;
      assert k in rows && rows[k].user == user && rows[k].family == f;
    }
  }

  lemma TurnStartsNothing(w: World, clock: int, now: int, a: Action, user: UserId)
    requires WorldInv(w, clock) && clock <= now && Enabled(w, a) && user in w.db.users
    requires !Authenticates(w, a, user) && !Starts(w, a, user, w.calls.Keys)
    ensures FamiliesOf(Do(w, now, a).db.rows, user) == FamiliesOf(w.db.rows, user)
    ensures Starters(Do(w, now, a), user) <= Starters(w, user)
  {
    hide Read, Write, Step;
    match a
    case Begin(c, e) =>
      if IsWhole(e) {
        WholeFits(w.db, now, e);
        SameFamilies(w.db.rows, Step(w.db, now, e).db.rows, user);
      } else {
        ReadingStartsNothing(w.db, now, c, e, user, w);
      }
    case Resume(c) =>
      WriteKeepsFamilies(w.db, now, w.calls[c], user);
      if WillStart(Write(w.db, now, w.calls[c]).plan, user) { WriteKeepsStart(w.db, now, w.calls[c], user); }
  }

  lemma SameFamilies(rows: map<nat, Row>, rows': map<nat, Row>, user: UserId)
    requires OnlyRevokes(rows, rows')
    ensures FamiliesOf(rows', user) == FamiliesOf(rows, user)
  {
    forall f | f in FamiliesOf(rows, user) ensures f in FamiliesOf(rows', user) {
      var j :| j in rows && rows[j].user == user && rows[j].family == f;
      assert j in rows' && rows'[j].user == user && rows'[j].family == f;
    }
    forall f | f in FamiliesOf(rows', user) ensures f in FamiliesOf(rows, user) {
      var j :| j in rows' && rows'[j].user == user && rows'[j].family == f;
      assert j in rows && rows[j].user == user && rows[j].family == f;
    }
  }

  lemma StartAddsFamily(w: World, clock: int, now: int, a: Action, user: UserId)
    requires WorldInv(w, clock) && Enabled(w, a) && Starts(w, a, user, w.calls.Keys)
    ensures w.db.nextFamily in FamiliesOf(Do(w, now, a).db.rows, user)
    ensures w.db.nextFamily !in FamiliesOf(w.db.rows, user)
  {
    var row := Do(w, now, a).db.rows[w.db.nextJti];
    assert row.user == user && row.family == w.db.nextFamily;
  }

  lemma FamiliesStay(w: World, run: seq<Turn>, clock: int, user: UserId)
    requires WorldInv(w, clock) && Runs(w, run, clock)
    ensures FamiliesOf(w.db.rows, user) <= FamiliesOf(After(w, run, clock).db.rows, user)
  {
    RunKeepsWorld(w, run, clock);
    var rows' := After(w, run, clock).db.rows;
    forall f | f in FamiliesOf(w.db.rows, user) ensures f in FamiliesOf(rows', user) {
      var j :| j in w.db.rows && w.db.rows[j].user == user && w.db.rows[j].family == f;
      assert j in rows' && rows'[j].user == user && rows'[j].family == f;
    }
  }

  lemma {:induction false} StartsExactlyByEarlier(w: World, run: seq<Turn>, clock: int, user: UserId, calls: set<nat>)
    requires WorldInv(w, clock) && Runs(w, run, clock) && user in w.db.users && NobodyAuthenticates(w, run, clock, user)
    requires Starters(w, user) <= calls
    ensures FamiliesOf(After(w, run, clock).db.rows, user) != FamiliesOf(w.db.rows, user)
      <==> SomeStarts(w, run, clock, user, calls)
    decreases |run|
  {
    hide Do, Authenticates, FamiliesOf, WorldInv;
    if run != [] {
      var now, a := run[0].at, run[0].action;
      var w' := Do(w, now, a);
      TurnKeepsWorld(w, clock, now, a);
      FamiliesStay(w', run[1..], now, user);
      if Starts(w, a, user, w.calls.Keys) {
        StartAddsFamily(w, clock, now, a, user);
        assert a.c in Starters(w, user);
      } else {
        TurnStartsNothing(w, clock, now, a, user);
        StartsExactlyByEarlier(w', run[1..], now, user, calls);
      }
    }
  }

  /**
   * From any moment, such as right after a password reset, over every interleaving in which
   * nobody presents the user's current password or a challenge of a second step: a session of
   * the user starts exactly if a call that had been let in before goes on to start it.
   */
  lemma SessionStartsWithoutPasswordExactlyByStraggler(w: World, run: seq<Turn>, clock: int, user: UserId)
    requires WorldInv(w, clock) && Runs(w, run, clock) && user in w.db.users && NobodyAuthenticates(w, run, clock, user)
    ensures FamiliesOf(After(w, run, clock).db.rows, user) != FamiliesOf(w.db.rows, user)
      <==> SomeStarts(w, run, clock, user, Starters(w, user))
  {
    StartsExactlyByEarlier(w, run, clock, user, Starters(w, user));
  }

  /** The input: a login reads the old password, a reset commits, the login starts its session. */
  lemma LoginOutlivesReset(db: Db, read: int, user: UserId, password: string, off: int, token: nat, newPassword: string,
      write: int)
    requires Login(db, read, user, password).out.SessionIssued?
    requires ResetPassword(db, off, token, newPassword).out.Done? && db.resets[token].user == user
    requires forall j :: j in db.rows ==> j < db.nextJti
    ensures var begun := Do(World(db, map[]), read, Begin(0, LoginEvent(user, password)));
      var reset := ResetPassword(begun.db, off, token, newPassword).db;
      var end := Do(World(reset, begun.calls), write, Resume(0));
      && end.calls[0].Answer? && end.calls[0].out.SessionIssued?
      && IsUnspent(end.db, end.calls[0].out.cookie, write)
  {
  }
}
