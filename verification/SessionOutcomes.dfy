/**
 * Exactly when a session starts, goes on and is refused, stated about what the caller sees,
 * and what that means over whole runs (backend/src/modules/auth/services.ts).
 */
module SessionOutcomes {
  import opened Prelude
  import opened RecoveryCodes
  import opened Sessions
  import opened SessionProofs

  /* ── Starting a session ─────────────────────────────────────────────── */

  predicate KnowsPassword(db: Db, e: Event) {
    e.LoginEvent? && e.user in db.users && e.password == db.users[e.user].password
  }

  predicate IsActive(db: Db, user: UserId) {
    user in db.users && db.users[user].status == Active
  }

  predicate IsEnrolled(db: Db, user: UserId) {
    user in db.users && db.users[user].twoFactorEnabled
  }

  /** Six decimal digits that the one-time-code library accepts. */
  predicate IsOneTimeCode(code: string, totp: bool) {
    totp && |code| == 6 && forall c :: c in code ==> c in "0123456789"
  }

  /** The second step of a login: an accepted one-time code, or a recovery code that is still stored. */
  predicate HasSecondFactor(db: Db, e: Event, user: UserId) {
    && e.VerifyEvent? && e.challenge == Some(user) && IsActive(db, user)
    && IsEnrolled(db, user) && db.users[user].twoFactorSecret.Some? && e.readable
    && (IsOneTimeCode(e.code, e.totp) || HashCode(e.code) in db.users[user].recoveryHashes)
  }

  /** The password of an active user who is not enrolled, or the second factor. */
  predicate Authenticates(db: Db, e: Event, user: UserId) {
    || (KnowsPassword(db, e) && e.user == user && IsActive(db, user) && !IsEnrolled(db, user))
    || HasSecondFactor(db, e, user)
  }

  predicate StartsSessionOf(out: Outcome, user: UserId) { out.SessionIssued? && out.user == user }

  lemma SixDigitsAreDigits(code: string)
    ensures SixDigits(code) <==> IsOneTimeCode(code, true)
  {
    if SixDigits(code) {
      forall c | c in code ensures c in "0123456789" {
        var i :| 0 <= i < 6 && code[i] == c;
        assert "0123456789"[(c - '0') as int] == c;
      }
    }
    if IsOneTimeCode(code, true) {
      forall i | 0 <= i < 6 ensures '0' <= code[i] <= '9' { assert code[i] in code; }
    }
  }

  /**
   * A call starts a session of the user exactly by authenticating it: with the password alone
   * only while two-factor login is off. With the password it is a challenge exactly while that
   * is on. Nobody is started as anybody else, and a call that starts nothing by either step
   * changes nothing.
   */
  lemma SessionStartsExactlyIfAuthenticated(db: Db, now: int, e: Event, user: UserId)
    ensures StartsSessionOf(Step(db, now, e).out, user) <==> Authenticates(db, e, user)
    ensures Step(db, now, e).out == ChallengeIssued(user)
      <==> KnowsPassword(db, e) && e.user == user && IsActive(db, user) && IsEnrolled(db, user)
    ensures (e.LoginEvent? || e.VerifyEvent?) && !Step(db, now, e).out.SessionIssued? ==> Step(db, now, e).db == db
  {
    if e.VerifyEvent? { SixDigitsAreDigits(e.code); }
  }

  /**
   * The refusals of the two steps: Forbidden exactly for a disabled account that has shown the
   * password, or an enrolment; Unauthorized for everything else.
   */
  lemma LoginRefusalsAreExact(db: Db, now: int, e: Event)
    requires e.LoginEvent? || e.VerifyEvent?
    ensures Step(db, now, e).out.Rejected? <==>
      && !(KnowsPassword(db, e) && IsActive(db, e.user))
      && !(e.VerifyEvent? && e.challenge.Some? && HasSecondFactor(db, e, e.challenge.value))
    ensures Step(db, now, e).out == Rejected(Forbidden) <==>
      || (KnowsPassword(db, e) && !IsActive(db, e.user))
      || (e.VerifyEvent? && e.challenge.Some? && IsEnrolled(db, e.challenge.value)
          && db.users[e.challenge.value].twoFactorSecret.Some? && !IsActive(db, e.challenge.value))
    ensures Step(db, now, e).out.Rejected? ==> Step(db, now, e).out.error in {Unauthorized, Forbidden}
  {
    if e.VerifyEvent? { SixDigitsAreDigits(e.code); }
  }

  lemma StepKeepsRows(db: Db, clock: int, now: int, e: Event, j: nat)
    requires Inv(db, clock) && j in db.rows
    ensures var rows := Step(db, now, e).db.rows;
      j in rows && rows[j].user == db.rows[j].user && rows[j].family == db.rows[j].family
  {
    StepShape(db, now, e);
  }

  lemma {:induction false} RunKeepsRows(db: Db, clock: int, run: seq<Timed>, j: nat)
    requires Inv(db, clock) && Ordered(run, clock) && j in db.rows
    ensures var rows := Exec(db, run).rows;
      j in rows && rows[j].user == db.rows[j].user && rows[j].family == db.rows[j].family
    decreases |run|
  {
    if run != [] {
      StepKeepsRows(db, clock, run[0].at, run[0].event, j);
      StepKeepsInv(db, clock, run[0].at, run[0].event);
      RunKeepsRows(Step(db, run[0].at, run[0].event).db, run[0].at, run[1..], j);
    }
  }

  lemma BeforeShifts(db: Db, run: seq<Timed>, i: nat)
    requires 0 < i < |run|
    ensures Before(db, run, i) == Before(Step(db, run[0].at, run[0].event).db, run[1..], i - 1)
  {
    assert run[..i][1..] == run[1..][..i - 1];
  }

  lemma StepStartsFamily(db: Db, clock: int, now: int, e: Event)
    requires Inv(db, clock)
    ensures var db' := Step(db, now, e).db;
      db'.nextFamily == db.nextFamily
      || (&& db'.nextFamily == db.nextFamily + 1 && db.nextJti in db'.rows
          && db'.rows[db.nextJti].family == db.nextFamily && Authenticates(db, e, db'.rows[db.nextJti].user))
  {
    StepShape(db, now, e);
    var out := Step(db, now, e).out;
    if out.SessionIssued? { SessionStartsExactlyIfAuthenticated(db, now, e, out.user); }
  }

  /**
   * Over every run, each session family that began in it began with its own call, which
   * authenticated the owner of all its rows at that moment.
   */
  lemma {:induction false} EverySessionWasAuthenticated(db: Db, clock: int, run: seq<Timed>, j: nat) returns (i: nat)
    requires Inv(db, clock) && Ordered(run, clock)
    requires j in Exec(db, run).rows && Exec(db, run).rows[j].family >= db.nextFamily
    ensures i < |run| && Before(db, run, i).nextFamily == Exec(db, run).rows[j].family
    ensures Authenticates(Before(db, run, i), run[i].event, Exec(db, run).rows[j].user)
    decreases |run|
  {
    var now, e := run[0].at, run[0].event;
    var db' := Step(db, now, e).db;
    StepKeepsInv(db, clock, now, e);
    StepStartsFamily(db, clock, now, e);
    if Exec(db, run).rows[j].family >= db'.nextFamily {
      var k := EverySessionWasAuthenticated(db', now, run[1..], j);
      i := k + 1;
      BeforeShifts(db, run, i);
    } else {
      i := 0;
      assert run[..0] == [];
      RunKeepsRows(db', now, run[1..], db.nextJti);
      RunKeepsInv(db', now, run[1..]);
      assert SameFamily(Exec(db, run).rows, j, db.nextJti);
    }
  }

  /** No call of the run switches two-factor login off for the user. */
  predicate StaysOn(db: Db, run: seq<Timed>, user: UserId)
    decreases |run|
  {
    run == [] ||
    (!(run[0].event.DisableEvent? && run[0].event.user == user
       && Step(db, run[0].at, run[0].event).out.Done?)
     && StaysOn(Step(db, run[0].at, run[0].event).db, run[1..], user))
  }

  lemma {:induction false} StaysEnrolled(db: Db, run: seq<Timed>, user: UserId, i: nat)
    requires IsEnrolled(db, user) && StaysOn(db, run, user) && i < |run|
    ensures IsEnrolled(Before(db, run, i), user)
    decreases i
  {
    if i == 0 {
      assert run[..0] == [];
    } else {
      BeforeShifts(db, run, i);
      StaysEnrolled(Step(db, run[0].at, run[0].event).db, run[1..], user, i - 1);
    }
  }

  /**
   * Over every run in which an enrolled user does not switch two-factor login off, a session
   * family of that user begins only with a second step that an accepted one-time code or a
   * recovery code stored at that moment completes.
   */
  lemma EnrolledUsersNeedTheSecondFactor(db: Db, clock: int, run: seq<Timed>, user: UserId, j: nat) returns (i: nat)
    requires Inv(db, clock) && Ordered(run, clock) && IsEnrolled(db, user) && StaysOn(db, run, user)
    requires j in Exec(db, run).rows && Exec(db, run).rows[j].user == user
    requires Exec(db, run).rows[j].family >= db.nextFamily
    ensures i < |run| && HasSecondFactor(Before(db, run, i), run[i].event, user)
  {
    i := EverySessionWasAuthenticated(db, clock, run, j);
    StaysEnrolled(db, run, user, i);
  }

  /* ── Going on with a session ────────────────────────────────────────── */

  predicate IsCurrent(now: int, cookie: Cookie) {
    cookie.Token? && now / 1000 < cookie.exp
  }

  /** The family is banned at `now`: all its rows, nothing else. */
  predicate BansFamily(db: Db, db': Db, family: nat, now: int) {
    && db' == db.(rows := db'.rows) && db'.rows.Keys == db.rows.Keys
    && forall j :: j in db.rows ==>
         db'.rows[j] == if db.rows[j].family == family
                        then db.rows[j].(isFamilyRevoked := true, revokedAt := Some(now)) else db.rows[j]
  }

  /**
   * A used row presented with an unexpired cookie: for a known user it gets an access token,
   * and nothing is written, exactly within 5000 ms of its use; otherwise the caller is refused
   * and the whole family is banned. A row without use time counts as used at time 0.
   */
  lemma ReplayIsServedExactlyWithinTolerance(db: Db, now: int, cookie: Cookie)
    requires IsCurrent(now, cookie) && cookie.jti in db.rows && db.rows[cookie.jti].isUsed
    ensures var row, effect := db.rows[cookie.jti], Refresh(db, now, cookie);
      var usedAt := if row.usedAt.Some? then row.usedAt.value else 0;
      && (effect.out.Refreshed? <==> now - usedAt <= 5000 && row.user in db.users)
      && (effect.out.Refreshed? ==>
            effect == Effect(db, Refreshed(row.user, Junk("replay_tolerated__use_winner_cookie"))))
      && (!effect.out.Refreshed? ==>
            effect.out == Rejected(Unauthorized) && BansFamily(db, effect.db, row.family, now))
  {
  }

  /** In a run the use time and the user are always there. */
  lemma UsedRowIsServedExactlyWithinTolerance(db: Db, clock: int, now: int, cookie: Cookie)
    requires Inv(db, clock) && IsCurrent(now, cookie) && cookie.jti in db.rows && db.rows[cookie.jti].isUsed
    ensures var row, effect := db.rows[cookie.jti], Refresh(db, now, cookie);
      && row.usedAt.Some?
      && (effect.out.Refreshed? <==> now - row.usedAt.value <= 5000)
      && (effect.out.Refreshed? ==> effect.db == db && !effect.out.cookie.Token?)
      && (!effect.out.Refreshed? ==>
            effect.out == Rejected(Unauthorized) && BansFamily(db, effect.db, row.family, now))
  {
    ReplayIsServedExactlyWithinTolerance(db, now, cookie);
  }

  /** The row may be exchanged for its successor. */
  predicate IsExchangeable(db: Db, now: int, cookie: Cookie) {
    && cookie.Token? && cookie.jti in db.rows
    && var row := db.rows[cookie.jti];
       !row.isUsed && !row.isFamilyRevoked && row.revokedAt.None? && now <= row.expiresAt && row.user == cookie.sub
  }

  /**
   * Any other cookie: it is exchanged exactly for an unexpired one whose row is unused, not
   * revoked, not expired and its bearer's, of an active user. Then that row is marked used at
   * `now` and the family gets one unspent row, whose cookie is handed out. Nothing is written
   * otherwise, and only the status of the account is answered with Forbidden.
   */
  lemma CookieIsExchangedExactlyIfLive(db: Db, now: int, cookie: Cookie)
    requires !(cookie.Token? && cookie.jti in db.rows && db.rows[cookie.jti].isUsed)
    requires forall j :: j in db.rows ==> j < db.nextJti
    ensures var effect := Refresh(db, now, cookie);
      && (effect.out.Refreshed? <==>
            IsCurrent(now, cookie) && IsExchangeable(db, now, cookie) && IsActive(db, cookie.sub))
      && (effect.out.Refreshed? ==>
            && effect.out.user == cookie.sub && Rotates(db, now, effect.db, cookie.jti)
            && IsUnspent(effect.db, effect.out.cookie, now) && effect.out.cookie.jti == db.nextJti
            && effect.out.cookie.family == db.rows[cookie.jti].family)
      && (!effect.out.Refreshed? ==>
            effect == Effect(db, Rejected(
              if IsCurrent(now, cookie) && IsExchangeable(db, now, cookie) then Forbidden else Unauthorized)))
  {
  }

  /**
   * A replay of a row of a run, later than 5000 ms after its use, ends the family for good:
   * the caller is refused, every row of the family and no other is revoked, and in every later
   * run the family gets no row and none of its cookies is exchanged.
   */
  lemma LateReplayEndsTheFamily(db: Db, clock: int, now: int, cookie: Cookie, run: seq<Timed>)
    requires Inv(db, clock) && clock <= now && Ordered(run, now)
    requires IsCurrent(now, cookie) && cookie.jti in db.rows && db.rows[cookie.jti].isUsed
    requires now - db.rows[cookie.jti].usedAt.value > 5000
    ensures var family, effect := db.rows[cookie.jti].family, Refresh(db, now, cookie);
      && effect.out == Rejected(Unauthorized) && BansFamily(db, effect.db, family, now)
      && FamilyRows(Exec(effect.db, run).rows, family) == FamilyRows(db.rows, family)
      && forall i :: 0 <= i < |run| && Presents(db.rows, run[i].event, family) ==>
           !(OutcomeAt(effect.db, run, i).Refreshed? && OutcomeAt(effect.db, run, i).cookie.Token?)
  {
    var family, e := db.rows[cookie.jti].family, RefreshEvent(cookie);
    var db' := Step(db, now, e).db;
    ReplayIsServedExactlyWithinTolerance(db, now, cookie);
    assert FamilyRows(db'.rows, family) == FamilyRows(db.rows, family);
    StepKeepsInv(db, clock, now, e);
    EvictionKills(db, clock, now, e, family, cookie.jti);
    DeadFamiliesStayDead(db', now, run, family, now);
    forall i | 0 <= i < |run| && Presents(db.rows, run[i].event, family)
      ensures Presents(db'.rows, run[i].event, family)
    {
    }
  }
}
