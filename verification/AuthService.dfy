/**
 * The authentication service in its own form: an object whose calls read and then update
 * the tables. Each call is proved against the function of Sessions of the same name, and to
 * keep the invariant on which the theorems about runs rest.
 */
module AuthService {
  import opened Prelude
  import opened RecoveryCodes
  import S = Sessions
  import SessionProofs
  import SessionOutcomes

  class Service {
    var users: map<S.UserId, S.User>
    var rows: map<nat, S.Row>
    var resets: map<nat, S.ResetToken>
    var nextJti: nat
    var nextFamily: nat
    var nextReset: nat
    const ttlSec: nat
    ghost var clock: int   // no call was later

    /** Nobody is enrolled when the service is first started. */
    constructor (users: map<S.UserId, S.User>, ttlSec: nat)
      requires SessionProofs.Init(S.Db(users, map[], map[], 0, 0, 0, ttlSec))
      ensures Valid() && Tables() == S.Db(users, map[], map[], 0, 0, 0, ttlSec)
    {
      this.users, this.rows, this.resets := users, map[], map[];
      this.nextJti, this.nextFamily, this.nextReset := 0, 0, 0;
      this.ttlSec := ttlSec;
      new;
      SessionProofs.InitHasInv(Tables(), clock);
    }

    /** Families are chains, used rows have a past use time, disabled users no live row, enrolment is consistent. */
    ghost predicate Valid()
      reads this
    {
      SessionProofs.Inv(Tables(), clock)
    }

    function Tables(): S.Db
      reads this
    {
      S.Db(users, rows, resets, nextJti, nextFamily, nextReset, ttlSec)
    }

    method IssueSession(now: int, user: S.UserId, spent: Option<Digest>) returns (out: S.Outcome)
      modifies this`rows, this`nextJti, this`nextFamily
      ensures S.Effect(Tables(), out) == S.IssueSession(old(Tables()), now, user, spent)
    {
      var jti, family := nextJti, nextFamily;
      nextJti, nextFamily := jti + 1, family + 1;
      var cookie := S.Token(user, jti, family, now / 1000 + ttlSec);
      rows := rows[jti := S.Row(user, family, now + ttlSec * 1000, false, None, false, None)];
      out := S.SessionIssued(user, cookie, spent);
    }

    method Login(now: int, user: S.UserId, password: string) returns (out: S.Outcome)
      requires Valid() && clock <= now
      modifies this
      ensures Valid() && clock == now
      ensures out.SessionIssued? ==> SessionProofs.IsUnspent(Tables(), out.cookie, now)
      ensures S.Effect(Tables(), out) == S.Login(old(Tables()), now, user, password)
      ensures out.SessionIssued? || out.ChallengeIssued? <==>
        user in old(users) && old(users)[user].password == password && old(users)[user].status == S.Active
      ensures out.SessionIssued? ==> !old(users)[user].twoFactorEnabled
      ensures out.ChallengeIssued? ==> old(users)[user].twoFactorEnabled
    {
      hide SessionProofs.Inv;
      SessionProofs.StepKeepsInv(Tables(), clock, now, S.LoginEvent(user, password));
      clock := now;
      var passwordValid := user in users && users[user].password == password;
      if !passwordValid {
        return S.Rejected(Unauthorized);
      }
      if users[user].status != S.Active {
        return S.Rejected(Forbidden);
      }
      if users[user].twoFactorEnabled {
        return S.ChallengeIssued(user);
      }
      out := IssueSession(now, user, None);
    }

    method VerifyTwoFactorLogin(now: int, challenge: Option<S.UserId>, code: string, readable: bool, totp: bool)
      returns (out: S.Outcome)
      requires Valid() && clock <= now
      modifies this
      ensures Valid() && clock == now
      ensures out.SessionIssued? ==> SessionProofs.IsUnspent(Tables(), out.cookie, now)
      ensures S.Effect(Tables(), out) == S.VerifyTwoFactor(old(Tables()), now, challenge, code, readable, totp)
    {
      hide SessionProofs.Inv;
      SessionProofs.StepKeepsInv(Tables(), clock, now, S.VerifyEvent(challenge, code, readable, totp));
      clock := now;
      if challenge.None? || challenge.value !in users {
        return S.Rejected(Unauthorized);
      }
      var id := challenge.value;
      var user := users[id];
      if !user.twoFactorEnabled || user.twoFactorSecret.None? {
        return S.Rejected(Unauthorized);
      }
      if user.status != S.Active {
        return S.Rejected(Forbidden);
      }
      if !readable {
        return S.Rejected(Unauthorized);
      }
      var isTotp := S.SixDigits(code) && totp;
      var spent := None;
      if !isTotp {
        var hashed := HashCode(code);
        if hashed in user.recoveryHashes {
          spent := Some(hashed);
          users := users[id := user.(recoveryHashes := S.Without(user.recoveryHashes, hashed))];
        } else {
          return S.Rejected(Unauthorized);
        }
      }
      out := IssueSession(now, id, spent);
    }

    method Refresh(now: int, cookie: S.Cookie) returns (out: S.Outcome)
      requires Valid() && clock <= now
      modifies this
      ensures Valid() && clock == now
      ensures out.Refreshed? && out.cookie.Token? ==>
        cookie.Token? && SessionProofs.IsHead(rows, cookie.jti, out.cookie.jti)
      ensures S.Effect(Tables(), out) == S.Refresh(old(Tables()), now, cookie)
      ensures SessionOutcomes.IsCurrent(now, cookie) && cookie.jti in old(rows) && old(rows)[cookie.jti].isUsed ==>
        var row := old(rows)[cookie.jti];
        && row.usedAt.Some? && (out.Refreshed? <==> now - row.usedAt.value <= 5000)
        && (!out.Refreshed? ==> SessionOutcomes.BansFamily(old(Tables()), Tables(), row.family, now))
    {
      hide SessionProofs.Inv, SessionOutcomes.BansFamily;
      if SessionOutcomes.IsCurrent(now, cookie) && cookie.jti in rows && rows[cookie.jti].isUsed {
        SessionOutcomes.UsedRowIsServedExactlyWithinTolerance(Tables(), clock, now, cookie);
      }
      if S.Refresh(Tables(), now, cookie).out.Refreshed? && S.Refresh(Tables(), now, cookie).out.cookie.Token? {
        SessionProofs.RotatedRowIsHead(Tables(), clock, now, cookie);
      }
      SessionProofs.StepKeepsInv(Tables(), clock, now, S.RefreshEvent(cookie));
      clock := now;
      if !cookie.Token? || now / 1000 >= cookie.exp {
        return S.Rejected(Unauthorized);
      }
      if cookie.jti !in rows {
        return S.Rejected(Unauthorized);
      }
      var row := rows[cookie.jti];
      if row.isUsed {
        var firstUsedAgo := now - (if row.usedAt.Some? then row.usedAt.value else 0);
        if firstUsedAgo <= S.REPLAY_TOLERANCE_MS {
          if row.user in users {
            return S.Refreshed(row.user, S.REPLAY_PLACEHOLDER);
          }
        }
        rows := map j | j in rows ::
          if rows[j].family == row.family then rows[j].(isFamilyRevoked := true, revokedAt := Some(now)) else rows[j];
        return S.Rejected(Unauthorized);
      }
      if row.isFamilyRevoked || row.revokedAt.Some? {
        return S.Rejected(Unauthorized);
      }
      if now > row.expiresAt {
        return S.Rejected(Unauthorized);
      }
      if row.user != cookie.sub {
        return S.Rejected(Unauthorized);
      }
      if row.user !in users || users[row.user].status != S.Active {
        return S.Rejected(Forbidden);
      }
      rows := rows[cookie.jti := row.(isUsed := true, usedAt := Some(now))];
      var newJti := nextJti;
      nextJti := nextJti + 1;
      var newCookie := S.Token(row.user, newJti, row.family, now / 1000 + ttlSec);
      rows := rows[newJti := S.Row(row.user, row.family, now + ttlSec * 1000, false, None, false, None)];
      out := S.Refreshed(row.user, newCookie);
    }

    method Logout(now: int, cookie: S.Cookie) returns (out: S.Outcome)
      requires Valid() && clock <= now
      modifies this
      ensures Valid() && clock == now
      ensures S.Effect(Tables(), out) == S.Logout(old(Tables()), now, cookie)
    {
      hide SessionProofs.Inv;
      SessionProofs.StepKeepsInv(Tables(), clock, now, S.LogoutEvent(cookie));
      clock := now;
      if cookie.Token? && now / 1000 < cookie.exp {
        if cookie.jti in rows {
          rows := rows[cookie.jti := rows[cookie.jti].(revokedAt := Some(now))];
        }
      }
      out := S.Done;
    }

    method ForgotPassword(now: int, user: S.UserId) returns (out: S.Outcome)
      requires Valid() && clock <= now
      modifies this
      ensures Valid() && clock == now
      ensures S.Effect(Tables(), out) == S.ForgotPassword(old(Tables()), now, user)
    {
      hide SessionProofs.Inv;
      SessionProofs.StepKeepsInv(Tables(), clock, now, S.ForgotEvent(user));
      clock := now;
      if user in users {
        resets := resets[nextReset := S.ResetToken(user, now + 15 * 60 * 1000, None)];
        nextReset := nextReset + 1;
      }
      out := S.Done;
    }

    method RevokeSessions(now: int, user: S.UserId)
      modifies this`rows
      ensures rows == S.RevokeUser(old(rows), user, now)
    {
      rows := map j | j in rows ::
        if rows[j].user == user && rows[j].revokedAt.None?
        then rows[j].(revokedAt := Some(now), isFamilyRevoked := true) else rows[j];
    }

    method ResetPassword(now: int, token: nat, password: string) returns (out: S.Outcome)
      requires Valid() && clock <= now
      modifies this
      ensures Valid() && clock == now
      ensures out.Done? ==> token in old(resets) && SessionProofs.NoLiveRow(rows, old(resets)[token].user)
      ensures S.Effect(Tables(), out) == S.ResetPassword(old(Tables()), now, token, password)
    {
      hide SessionProofs.Inv;
      SessionProofs.StepKeepsInv(Tables(), clock, now, S.ResetEvent(token, password));
      clock := now;
      if token !in resets {
        return S.Rejected(Unprocessable);
      }
      var row := resets[token];
      if row.usedAt.Some? || now > row.expiresAt {
        return S.Rejected(Unprocessable);
      }
      if row.user !in users {
        return S.Rejected(NotFound);
      }
      resets := resets[token := row.(usedAt := Some(now))];
      users := users[row.user := users[row.user].(password := password, mustChangePassword := false)];
      RevokeSessions(now, row.user);
      out := S.Done;
    }

    method ChangePassword(now: int, id: S.UserId, current: string, password: string) returns (out: S.Outcome)
      requires Valid() && clock <= now
      modifies this
      ensures Valid() && clock == now
      ensures out.Done? ==> SessionProofs.NoLiveRow(rows, id)
      ensures S.Effect(Tables(), out) == S.ChangePassword(old(Tables()), now, id, current, password)
    {
      hide SessionProofs.Inv;
      SessionProofs.StepKeepsInv(Tables(), clock, now, S.ChangePasswordEvent(id, current, password));
      clock := now;
      if id !in users {
        return S.Rejected(NotFound);
      }
      var user := users[id];
      if user.status != S.Active {
        return S.Rejected(Forbidden);
      }
      if user.password != current {
        return S.Rejected(Unprocessable);
      }
      if user.password == password {
        return S.Rejected(Conflict);
      }
      users := users[id := user.(password := password, mustChangePassword := false)];
      RevokeSessions(now, id);
      out := S.Done;
    }

    method ChangeOwnPassword(now: int, id: S.UserId, current: string, password: string) returns (out: S.Outcome)
      requires Valid() && clock <= now
      modifies this
      ensures Valid() && clock == now
      ensures out.Done? ==> SessionProofs.NoLiveRow(rows, id)
      ensures S.Effect(Tables(), out) == S.ChangeOwnPassword(old(Tables()), now, id, current, password)
    {
      hide SessionProofs.Inv;
      SessionProofs.StepKeepsInv(Tables(), clock, now, S.ChangeOwnPasswordEvent(id, current, password));
      clock := now;
      if current == password {
        return S.Rejected(BadRequest);
      }
      if id !in users {
        return S.Rejected(NotFound);
      }
      if users[id].password != current {
        return S.Rejected(BadRequest);
      }
      users := users[id := users[id].(password := password, mustChangePassword := false)];
      RevokeSessions(now, id);
      out := S.Done;
    }

    method UpdateUser(now: int, id: S.UserId, status: Option<S.Status>, mustChange: Option<bool>)
        returns (out: S.Outcome)
      requires Valid() && clock <= now
      modifies this
      ensures Valid() && clock == now
      ensures id in users && users[id].status == S.Inactive ==> SessionProofs.NoLiveRow(rows, id)
      ensures S.Effect(Tables(), out) == S.UpdateUser(old(Tables()), now, id, status, mustChange)
    {
      hide SessionProofs.Inv;
      SessionProofs.StepKeepsInv(Tables(), clock, now, S.UpdateUserEvent(id, status, mustChange));
      SessionProofs.InactiveHasNoLiveRow(S.UpdateUser(Tables(), now, id, status, mustChange).db, now, id);
      clock := now;
      if id !in users {
        return S.Rejected(NotFound);
      }
      var before := users[id];
      var after := before;
      if status.Some? {
        after := after.(status := status.value);
      }
      if mustChange.Some? {
        after := after.(mustChangePassword := mustChange.value);
      }
      users := users[id := after];
      if status == Some(S.Inactive) && before.status != S.Inactive {
        RevokeSessions(now, id);
      }
      out := S.Done;
    }

    method StartTwoFactorSetup(id: S.UserId, secret: string) returns (out: S.Outcome)
      requires Valid()
      modifies this
      ensures Valid()
      ensures S.Effect(Tables(), out) == S.SetupTwoFactor(old(Tables()), id, secret)
    {
      hide SessionProofs.Inv;
      SessionProofs.StepKeepsInv(Tables(), clock, clock, S.SetupEvent(id, secret));
      if id !in users {
        return S.Rejected(NotFound);
      }
      if users[id].twoFactorEnabled {
        return S.Rejected(Conflict);
      }
      users := users[id := users[id].(twoFactorSecret := Some(secret))];
      out := S.Done;
    }

    method EnableTwoFactor(id: S.UserId, code: string, readable: bool, totp: bool, codes: seq<string>)
      returns (out: S.Outcome)
      requires Valid()
      modifies this
      ensures Valid()
      ensures S.Effect(Tables(), out) == S.EnableTwoFactor(old(Tables()), id, code, readable, totp, codes)
    {
      hide SessionProofs.Inv;
      SessionProofs.StepKeepsInv(Tables(), clock, clock, S.EnableEvent(id, code, readable, totp, codes));
      if id !in users {
        return S.Rejected(NotFound);
      }
      if users[id].twoFactorEnabled {
        return S.Rejected(Conflict);
      }
      if users[id].twoFactorSecret.None? || !readable {
        return S.Rejected(Unprocessable);
      }
      if !(S.SixDigits(code) && totp) {
        return S.Rejected(Unprocessable);
      }
      users := users[id := users[id].(twoFactorEnabled := true, recoveryHashes := S.Hashes(codes))];
      out := S.CodesIssued(codes);
    }

    method DisableTwoFactor(id: S.UserId, password: string) returns (out: S.Outcome)
      requires Valid()
      modifies this
      ensures Valid()
      ensures S.Effect(Tables(), out) == S.DisableTwoFactor(old(Tables()), id, password)
    {
      hide SessionProofs.Inv;
      SessionProofs.StepKeepsInv(Tables(), clock, clock, S.DisableEvent(id, password));
      if id !in users {
        return S.Rejected(NotFound);
      }
      if users[id].password != password {
        return S.Rejected(Unprocessable);
      }
      if !users[id].twoFactorEnabled {
        return S.Done;
      }
      users := users[id := users[id].(twoFactorEnabled := false, twoFactorSecret := None, recoveryHashes := [])];
      out := S.Done;
    }
  }
}
