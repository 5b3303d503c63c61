/**
 * What the calls that change an account do to later logins and sessions, for this user and
 * for everybody else (backend/src/modules/auth/services.ts, backend/src/modules/users/services.ts).
 */
module AccountOutcomes {
  import opened Prelude
  import opened RecoveryCodes
  import opened Sessions
  import opened SessionProofs
  import opened SessionOutcomes

  predicate SameAccount(db: Db, db': Db, user: UserId) {
    (user in db.users <==> user in db'.users) && (user in db.users ==> db'.users[user] == db.users[user])
  }

  /* ── Logout ─────────────────────────────────────────────────────────── */

  /** The refresh exchanges the cookie for its successor. */
  predicate IsExchanged(db: Db, now: int, cookie: Cookie) {
    Refresh(db, now, cookie).out.Refreshed? && Refresh(db, now, cookie).out.cookie.Token?
  }

  lemma OnlyLiveRowsAreExchanged(db: Db, now: int, cookie: Cookie)
    ensures IsExchanged(db, now, cookie) ==>
      cookie.Token? && cookie.jti in db.rows && db.rows[cookie.jti].revokedAt.None?
  {
  }

  /**
   * Logging out with an unexpired cookie revokes its row at that moment and touches nothing
   * else: after any later run the cookie is never exchanged again, while every other cookie
   * is answered as if nobody had logged out. With any other cookie nothing happens at all.
   */
  lemma LogoutEndsExactlyThatSession(db: Db, clock: int, now: int, cookie: Cookie, run: seq<Timed>, later: int,
      other: Cookie)
    requires Inv(db, clock)
    ensures var effect := Logout(db, now, cookie);
      && effect.out == Done
      && if IsCurrent(now, cookie) && cookie.jti in db.rows
         then
           && effect.db.rows[cookie.jti] == db.rows[cookie.jti].(revokedAt := Some(now))
           && !IsExchanged(Exec(effect.db, run), later, cookie)
           && (other.Token? && other.jti != cookie.jti ==> Refresh(effect.db, later, other).out
                                                           == Refresh(db, later, other).out)
           && effect.db == db.(rows := effect.db.rows)
         else effect.db == db
  {
    var db' := Logout(db, now, cookie).db;
    if IsCurrent(now, cookie) && cookie.jti in db.rows {
      RevokedRowsStayRevoked(db', run, cookie.jti);
      OnlyLiveRowsAreExchanged(Exec(db', run), later, cookie);
    }
  }

  /* ── Passwords ──────────────────────────────────────────────────────── */

  /** Both changes ask for the current password and a new one that differs; the profile's route ignores the status. */
  lemma ChangesAreAcceptedExactly(db: Db, now: int, user: UserId, current: string, password: string)
    ensures var effect := ChangePassword(db, now, user, current, password);
      && (effect.out.Done? <==> IsActive(db, user) && current == db.users[user].password && current != password)
      && (!effect.out.Done? ==>
            effect == Effect(db, Rejected(
              if user !in db.users then NotFound
              else if !IsActive(db, user) then Forbidden
              else if current != db.users[user].password then Unprocessable
              else Conflict)))
    ensures var effect := ChangeOwnPassword(db, now, user, current, password);
      && (effect.out.Done? <==> user in db.users && current == db.users[user].password && current != password)
      && (!effect.out.Done? ==>
            effect == Effect(db, Rejected(if current != password && user !in db.users then NotFound else BadRequest)))
  {
  }

  /** The user whose password the call replaces, if it does. */
  function Repassworded(db: Db, now: int, e: Event): Option<(UserId, string)> {
    if !Step(db, now, e).out.Done? then None
    else match e
      case ResetEvent(token, password) => Some((db.resets[token].user, password))
      case ChangePasswordEvent(user, _, password) => Some((user, password))
      case ChangeOwnPasswordEvent(user, _, password) => Some((user, password))
      case _ => None
  }

  /**
   * After a reset or either change the new password is the only one: with it a login is
   * answered as it was with the old one, with any other it is refused; no cookie of the user
   * is exchanged any more. Logins and cookies of everybody else are answered as before.
   */
  lemma NewPasswordIsTheOnlyOne(db: Db, now: int, e: Event, later: int, typed: string, other: UserId, cookie: Cookie)
    requires Repassworded(db, now, e).Some?
    ensures var (user, password) := Repassworded(db, now, e).value;
      var db' := Step(db, now, e).db;
      && user in db.users
      && db'.users[user] == db.users[user].(password := password, mustChangePassword := false)
      && Login(db', later, user, typed).out ==
           (if typed == password then Login(db, later, user, db.users[user].password).out
            else Rejected(Unauthorized))
      && (other != user ==> Login(db', later, other, typed).out == Login(db, later, other, typed).out)
      && (cookie.Token? && cookie.jti in db.rows ==>
            if db.rows[cookie.jti].user == user then !IsExchanged(db', later, cookie)
            else Refresh(db', later, cookie).out == Refresh(db, later, cookie).out)
  {
    hide Refresh;
    var (user, password) := Repassworded(db, now, e).value;
    var db' := Step(db, now, e).db;
    assert db'.rows == RevokeUser(db.rows, user, now);
    if cookie.Token? && cookie.jti in db.rows {
      if db.rows[cookie.jti].user == user {
        OnlyLiveRowsAreExchanged(db', later, cookie);
      } else {
        OtherAccountsDoNotMatter(db, db', later, cookie);
      }
    }
  }

  /** The answer to a cookie depends on its row, the account it belongs to and the counters alone. */
  lemma OtherAccountsDoNotMatter(db: Db, db': Db, now: int, cookie: Cookie)
    requires cookie.Token? && cookie.jti in db.rows && cookie.jti in db'.rows
    requires db'.rows[cookie.jti] == db.rows[cookie.jti]
    requires SameAccount(db, db', db.rows[cookie.jti].user)
    requires db'.nextJti == db.nextJti && db'.ttlSec == db.ttlSec
    ensures Refresh(db', now, cookie).out == Refresh(db, now, cookie).out
  {
  }

  /* ── The reset link ─────────────────────────────────────────────────── */

  /** Some call of the run sets a password with the link. */
  predicate IsUsed(db: Db, run: seq<Timed>, token: nat)
    decreases |run|
  {
    run != [] &&
    ((run[0].event.ResetEvent? && run[0].event.token == token && Step(db, run[0].at, run[0].event).out.Done?)
     || IsUsed(Step(db, run[0].at, run[0].event).db, run[1..], token))
  }

  predicate IsLink(db: Db, token: nat, user: UserId, expiresAt: int) {
    && token in db.resets && token < db.nextReset && user in db.users
    && db.resets[token].user == user && db.resets[token].expiresAt == expiresAt
  }

  lemma StepKeepsLink(db: Db, now: int, e: Event, token: nat, user: UserId, expiresAt: int)
    requires IsLink(db, token, user, expiresAt)
    ensures var effect := Step(db, now, e);
      && IsLink(effect.db, token, user, expiresAt)
      && (effect.db.resets[token].usedAt.None? <==>
            db.resets[token].usedAt.None? && !(e.ResetEvent? && e.token == token && effect.out.Done?))
  {
  }

  lemma {:induction false} LinkWorksExactlyUntilUsed(db: Db, run: seq<Timed>, token: nat, user: UserId, expiresAt: int,
      at: int, password: string)
    requires IsLink(db, token, user, expiresAt)
    ensures ResetPassword(Exec(db, run), at, token, password).out.Done? <==>
      db.resets[token].usedAt.None? && !IsUsed(db, run, token) && at <= expiresAt
    decreases |run|
  {
    if run != [] {
      StepKeepsLink(db, run[0].at, run[0].event, token, user, expiresAt);
      LinkWorksExactlyUntilUsed(Step(db, run[0].at, run[0].event).db, run[1..], token, user, expiresAt, at, password);
    }
  }

  /**
   * Whatever happens in between, the link sent to a known user sets that user's password
   * exactly if no call has used it before and at most fifteen minutes have passed.
   */
  lemma ResetLinkWorksExactlyOnceWithinFifteenMinutes(db: Db, now: int, user: UserId, run: seq<Timed>, at: int,
      password: string)
    requires user in db.users
    ensures var sent, token := ForgotPassword(db, now, user).db, db.nextReset;
      && (ResetPassword(Exec(sent, run), at, token, password).out.Done? <==>
            !IsUsed(sent, run, token) && at - now <= 900000)
      && (ResetPassword(Exec(sent, run), at, token, password).out.Done? ==>
            Repassworded(Exec(sent, run), at, ResetEvent(token, password)) == Some((user, password)))
  {
    var sent, token := ForgotPassword(db, now, user).db, db.nextReset;
    LinkWorksExactlyUntilUsed(sent, run, token, user, now + 900000, at, password);
    LinkStays(sent, run, token, user, now + 900000);
  }

  lemma {:induction false} LinkStays(db: Db, run: seq<Timed>, token: nat, user: UserId, expiresAt: int)
    requires IsLink(db, token, user, expiresAt)
    ensures IsLink(Exec(db, run), token, user, expiresAt)
    decreases |run|
  {
    if run != [] {
      StepKeepsLink(db, run[0].at, run[0].event, token, user, expiresAt);
      LinkStays(Step(db, run[0].at, run[0].event).db, run[1..], token, user, expiresAt);
    }
  }

  /* ── Administration ─────────────────────────────────────────────────── */

  /**
   * An administrator's update of a known user sets what it names, keeps the rest, and decides
   * whether the right password gets in. A deactivation revokes the user's sessions; no update
   * touches anybody else.
   */
  lemma UpdateDecidesWhoGetsIn(db: Db, now: int, user: UserId, status: Option<Status>, mustChange: Option<bool>,
      later: int, other: UserId, cookie: Cookie)
    ensures var effect := UpdateUser(db, now, user, status, mustChange);
      && (effect.out.Done? <==> user in db.users)
      && (effect.out.Done? ==>
            var before, after := db.users[user], effect.db.users[user];
            && after == before.(status := after.status, mustChangePassword := after.mustChangePassword)
            && after.mustChangePassword == (if mustChange.Some? then mustChange.value else before.mustChangePassword)
            && (Login(effect.db, later, user, before.password).out == Rejected(Forbidden) <==>
                  status == Some(Inactive) || (status == None && !IsActive(db, user)))
            && (other != user ==> SameAccount(db, effect.db, other))
            && (cookie.Token? && cookie.jti in db.rows && db.rows[cookie.jti].user != user ==>
                  Refresh(effect.db, later, cookie).out == Refresh(db, later, cookie).out)
            && (IsActive(db, user) && status != Some(Inactive) ==> effect.db.rows == db.rows))
      && (!effect.out.Done? ==> effect == Effect(db, Rejected(NotFound)))
  {
    hide Refresh;
    if user in db.users && cookie.Token? && cookie.jti in db.rows && db.rows[cookie.jti].user != user {
      OtherAccountsDoNotMatter(db, UpdateUser(db, now, user, status, mustChange).db, later, cookie);
    }
  }

  /* ── Two-factor enrolment ───────────────────────────────────────────── */

  lemma HashesHold(codes: seq<string>, code: string)
    ensures HashCode(code) in Hashes(codes) <==> exists c :: c in codes && HashCode(c) == HashCode(code)
  {
    if HashCode(code) in Hashes(codes) {
      var i :| 0 <= i < |codes| && Hashes(codes)[i] == HashCode(code);
      assert codes[i] in codes;
    }
    if c :| c in codes && HashCode(c) == HashCode(code) {
      var i :| 0 <= i < |codes| && codes[i] == c;
      assert Hashes(codes)[i] == HashCode(code);
    }
  }

  /**
   * Two-factor login is switched on exactly for a known user who is not enrolled and shows an
   * accepted one-time code of the stored, readable secret. The printed codes are returned, the
   * password alone is then a challenge, and in the second step exactly they, however typed,
   * do instead of a one-time code.
   */
  lemma EnrolmentMakesThePrintedCodesWork(db: Db, user: UserId, code: string, readable: bool, totp: bool,
      codes: seq<string>, later: int, typed: string, other: UserId)
    ensures var effect := EnableTwoFactor(db, user, code, readable, totp, codes);
      && (effect.out.CodesIssued? <==>
            user in db.users && !IsEnrolled(db, user) && db.users[user].twoFactorSecret.Some? && readable
            && IsOneTimeCode(code, totp))
      && (effect.out.CodesIssued? ==>
            && effect.out.codes == codes && effect.db == db.(users := effect.db.users)
            && (other != user ==> SameAccount(db, effect.db, other))
            && (IsActive(db, user) ==>
                  && Login(effect.db, later, user, db.users[user].password).out == ChallengeIssued(user)
                  && (StartsSessionOf(VerifyTwoFactor(effect.db, later, Some(user), typed, true, false).out, user)
                      <==> exists c :: c in codes && HashCode(c) == HashCode(typed))))
      && (!effect.out.CodesIssued? ==>
            effect == Effect(db, Rejected(
              if user !in db.users then NotFound else if IsEnrolled(db, user) then Conflict else Unprocessable)))
  {
    SixDigitsAreDigits(code);
    HashesHold(codes, typed);
  }

  /**
   * Starting an enrolment stores the secret, exactly for a known user who is not enrolled;
   * switching off takes the password, and then the password alone starts a session again and
   * no second step works until the next enrolment.
   */
  lemma SwitchingOffTakesThePassword(db: Db, now: int, user: UserId, password: string, later: int, typed: string,
      readable: bool, totp: bool, other: UserId)
    ensures var effect := DisableTwoFactor(db, user, password);
      && (effect.out.Done? <==> user in db.users && password == db.users[user].password)
      && (effect.out.Done? ==>
            && effect.db == db.(users := effect.db.users) && (other != user ==> SameAccount(db, effect.db, other))
            && (IsActive(db, user) ==> StartsSessionOf(Login(effect.db, later, user, password).out, user))
            && VerifyTwoFactor(effect.db, later, Some(user), typed, readable, totp).out == Rejected(Unauthorized)
            && (IsEnrolled(db, user) ==>
                  effect.db.users[user].twoFactorSecret.None? && effect.db.users[user].recoveryHashes == []))
      && (!effect.out.Done? ==>
            effect == Effect(db, Rejected(if user in db.users then Unprocessable else NotFound)))
  {
  }

  lemma SetupStoresTheSecret(db: Db, user: UserId, secret: string)
    ensures var effect := SetupTwoFactor(db, user, secret);
      && (effect.out.Done? <==> user in db.users && !IsEnrolled(db, user))
      && (effect.out.Done? ==>
            && effect.db == db.(users := db.users[user := effect.db.users[user]])
            && effect.db.users[user] == db.users[user].(twoFactorSecret := Some(secret)))
      && (!effect.out.Done? ==>
            effect == Effect(db, Rejected(if user in db.users then Conflict else NotFound)))
  {
  }

  /**
   * The second step with a recovery code takes exactly that code from the list; with a
   * one-time code it takes none. Either way nothing else of any account changes.
   */
  lemma SecondStepSpendsExactlyTheCode(db: Db, now: int, e: Event, user: UserId, code: string)
    requires HasSecondFactor(db, e, user)
    ensures var before, after := db.users[user], Step(db, now, e).db.users[user];
      && (HashCode(code) in after.recoveryHashes <==>
            HashCode(code) in before.recoveryHashes
            && (IsOneTimeCode(e.code, e.totp) || HashCode(code) != HashCode(e.code)))
      && after == before.(recoveryHashes := after.recoveryHashes)
      && Step(db, now, e).db.users == db.users[user := after]
      && (IsOneTimeCode(e.code, e.totp) ==> after == before)
  {
    SixDigitsAreDigits(e.code);
  }
}
