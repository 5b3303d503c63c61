/** Two-factor enrolment when calls interleave: exactly which writings break what atomic calls keep. */
module EnrolmentRaces {
  import opened Prelude
  import opened RecoveryCodes
  import opened Sessions
  import SessionProofs
  import opened CallPlans
  import opened SplitCalls
  import opened SplitProofs

  /** Switching on a user whose secret is gone, or storing codes for a user who is switched off. */
  predicate WritesBlindly(w: World, a: Action) {
    && a.Resume? && a.c in w.calls
    && match w.calls[a.c]
       case Enable(user, _) => user in w.db.users && w.db.users[user].twoFactorSecret.None?
       case Spend(user, read, spending) =>
         user in w.db.users && !w.db.users[user].twoFactorEnabled && Without(read, spending) != []
       case _ => false
  }

  ghost predicate SomeWritesBlindly(w: World, run: seq<Turn>, clock: int)
    requires Runs(w, run, clock)
    decreases |run|
  {
    run != [] && (WritesBlindly(w, run[0].action)
                  || SomeWritesBlindly(Do(w, run[0].at, run[0].action), run[1..], run[0].at))
  }

  /** At every moment two-factor login is on only with a secret, and codes are stored only while it is on. */
  ghost predicate EnrolledThroughout(w: World, run: seq<Turn>, clock: int)
    requires Runs(w, run, clock)
    decreases |run|
  {
    && SessionProofs.Enrolment(w.db.users)
    && (run == [] || EnrolledThroughout(Do(w, run[0].at, run[0].action), run[1..], run[0].at))
  }

  lemma WriteKeepsEnrolment(db: Db, now: int, p: Plan)
    requires SessionProofs.Enrolment(db.users)
    ensures SessionProofs.Enrolment(Write(db, now, p).db.users) <==> !WritesBlindly(World(db, map[0 := p]), Resume(0))
  {
    var users := Write(db, now, p).db.users;
    if p.Enable? && p.user in db.users && db.users[p.user].twoFactorSecret.None? {
      assert users[p.user].twoFactorEnabled && users[p.user].twoFactorSecret.None?;
    }
    if p.Spend? && p.user in db.users && !db.users[p.user].twoFactorEnabled {
      assert users[p.user].recoveryHashes == Without(p.read, p.spending) && !users[p.user].twoFactorEnabled;
    }
  }

  lemma TurnKeepsEnrolment(w: World, now: int, a: Action)
    requires Enabled(w, a) && SessionProofs.Enrolment(w.db.users)
    ensures SessionProofs.Enrolment(Do(w, now, a).db.users) <==> !WritesBlindly(w, a)
  {
    hide Write, Read, Step, SessionProofs.Enrolment;
    match a
    case Begin(c, e) => SessionProofs.StepKeepsEnrolment(w.db, now, e);
    case Resume(c) => WriteKeepsEnrolment(w.db, now, w.calls[c]);
  }

  /**
   * Over every interleaving from a consistent state, enrolment is consistent at every moment
   * exactly unless a call switches two-factor login on for a user whose secret is gone by
   * then, or stores remaining codes for a user who is switched off by then.
   */
  lemma {:induction false} EnrolmentHoldsExactlyWithoutBlindWrite(w: World, run: seq<Turn>, clock: int)
    requires Runs(w, run, clock) && SessionProofs.Enrolment(w.db.users)
    ensures EnrolledThroughout(w, run, clock) <==> !SomeWritesBlindly(w, run, clock)
    decreases |run|
  {
    hide Do, SessionProofs.Enrolment, WritesBlindly;
    if run != [] {
      TurnKeepsEnrolment(w, run[0].at, run[0].action);
      if !WritesBlindly(w, run[0].action) {
        EnrolmentHoldsExactlyWithoutBlindWrite(Do(w, run[0].at, run[0].action), run[1..], run[0].at);
      }
    }
  }

  /**
   * The input: two requests to switch on have read, the first completes, the user switches off
   * again, the second completes. Two-factor login is on without a secret: nobody can log in.
   */
  lemma SecondEnablingLocksOut(
      db: Db, now: int, user: UserId, code: string, password: string, codes: seq<string>, submitted: string, totp: bool)
    requires EnableTwoFactor(db, user, code, true, true, codes).out.CodesIssued? && db.users[user].password == password
    ensures var enable := EnableEvent(user, code, true, true, codes);
      var begun := Do(Do(World(db, map[]), now, Begin(0, enable)), now, Begin(1, enable));
      var on := Do(begun, now, Resume(0));
      var off := DisableTwoFactor(on.db, user, password).db;
      var end := Do(World(off, on.calls), now, Resume(1)).db;
      && end.users[user].twoFactorEnabled && end.users[user].twoFactorSecret.None?
      && VerifyTwoFactor(end, now, Some(user), submitted, true, totp).out.Rejected?
      && !Login(end, now, user, password).out.SessionIssued?
  {
  }
}
