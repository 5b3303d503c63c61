/**
 * The authentication tables and what each service call does to them
 * (backend/src/modules/auth/services.ts, backend/src/modules/users/services.ts).
 *
 * Every call is a function from the tables and the time of the call to the new tables and
 * an outcome. `refresh` is split where the program reads and where it writes, because those
 * are separate database operations: `Decide` reads, `Commit` writes.
 */
module Sessions {
  import opened Prelude
  import opened RecoveryCodes

  type UserId = nat

  datatype Status = Active | Inactive

  /** `password` stands for the bcrypt hash; checking a password is equality. */
  datatype User = User(
    password: string,
    status: Status,
    mustChangePassword: bool,
    twoFactorEnabled: bool,
    twoFactorSecret: Option<string>,
    recoveryHashes: seq<Digest>)

  /** A refresh-token row; times are milliseconds. */
  datatype Row = Row(
    user: UserId,
    family: nat,
    expiresAt: int,
    isUsed: bool,
    usedAt: Option<int>,
    isFamilyRevoked: bool,
    revokedAt: Option<int>)

  datatype ResetToken = ResetToken(user: UserId, expiresAt: int, usedAt: Option<int>)

  /**
   * Token identifiers and families are fresh names: the counters are the next unused ones,
   * so a later row has a greater identifier. `ttlSec` is the configured refresh lifetime.
   */
  datatype Db = Db(
    users: map<UserId, User>,
    rows: map<nat, Row>,
    resets: map<nat, ResetToken>,
    nextJti: nat,
    nextFamily: nat,
    nextReset: nat,
    ttlSec: nat)

  /** The refresh cookie: absent, text that is no signed token, or a signed token (`exp` in seconds). */
  datatype Cookie = NoCookie | Junk(text: string) | Token(sub: UserId, jti: nat, family: nat, exp: int)

  const REPLAY_TOLERANCE_MS := 5000
  const RESET_TTL_MS := 15 * 60 * 1000
  const REPLAY_PLACEHOLDER := Junk("replay_tolerated__use_winner_cookie")

  datatype Outcome =
    | SessionIssued(user: UserId, cookie: Cookie, spent: Option<Digest>)
    | ChallengeIssued(user: UserId)
    | Refreshed(user: UserId, cookie: Cookie)   // carries a fresh access token
    | CodesIssued(codes: seq<string>)
    | Done
    | Rejected(error: Error)

  datatype Effect = Effect(db: Db, out: Outcome)

  /* ── Starting a session ─────────────────────────────────────────────── */

  function NewRow(user: UserId, family: nat, now: int, ttlSec: nat): Row {
    Row(user, family, now + ttlSec * 1000, false, None, false, None)
  }

  function NewCookie(user: UserId, jti: nat, family: nat, now: int, ttlSec: nat): Cookie {
    Token(user, jti, family, now / 1000 + ttlSec)
  }

  function IssueSession(db: Db, now: int, user: UserId, spent: Option<Digest>): Effect {
    Effect(
      db.(rows := db.rows[db.nextJti := NewRow(user, db.nextFamily, now, db.ttlSec)],
          nextJti := db.nextJti + 1,
          nextFamily := db.nextFamily + 1),
      SessionIssued(user, NewCookie(user, db.nextJti, db.nextFamily, now, db.ttlSec), spent))
  }

  function Login(db: Db, now: int, user: UserId, password: string): Effect {
    if user !in db.users || db.users[user].password != password then Effect(db, Rejected(Unauthorized))
    else if db.users[user].status != Active then Effect(db, Rejected(Forbidden))
    else if db.users[user].twoFactorEnabled then Effect(db, ChallengeIssued(user))
    else IssueSession(db, now, user, None)
  }

  predicate SixDigits(code: string) {
    |code| == 6 && forall i :: 0 <= i < 6 ==> '0' <= code[i] <= '9'
  }

  function Without(hashes: seq<Digest>, spent: Digest): (r: seq<Digest>)
    ensures spent !in r
    ensures forall h :: h in r ==> h in hashes
    ensures forall h :: h in hashes && h != spent ==> h in r
    ensures |r| <= |hashes|
    ensures spent in hashes ==> |r| < |hashes|
  {
    if hashes == [] then []
    else if hashes[0] == spent then Without(hashes[1..], spent)
    else [hashes[0]] + Without(hashes[1..], spent)
  }

  /** Spending a code is a read and a write: the list left over from the row read, written back. */
  function CodesLeft(read: Db, user: UserId, code: string): seq<Digest>
    requires user in read.users
  {
    Without(read.users[user].recoveryHashes, HashCode(code))
  }

  function StoreCodes(db: Db, user: UserId, left: seq<Digest>): Db
    requires user in db.users
  {
    db.(users := db.users[user := db.users[user].(recoveryHashes := left)])
  }

  /**
   * Second login step. `challenge` is the user named by the challenge token, if the token
   * verified; `readable` says that the stored secret decrypts; `totp` is the one-time-code
   * library's verdict on the submitted code.
   */
  function VerifyTwoFactor(
      db: Db, now: int, challenge: Option<UserId>, code: string, readable: bool, totp: bool): Effect
  {
    if challenge.None? || challenge.value !in db.users then Effect(db, Rejected(Unauthorized))
    else
      var user := db.users[challenge.value];
      if !user.twoFactorEnabled || user.twoFactorSecret.None? then Effect(db, Rejected(Unauthorized))
      else if user.status != Active then Effect(db, Rejected(Forbidden))
      else if !readable then Effect(db, Rejected(Unauthorized))
      else if SixDigits(code) && totp then IssueSession(db, now, challenge.value, None)
      else if HashCode(code) in user.recoveryHashes then
        IssueSession(StoreCodes(db, challenge.value, CodesLeft(db, challenge.value, code)),
                     now, challenge.value, Some(HashCode(code)))
      else Effect(db, Rejected(Unauthorized))
  }

  /* ── Refresh: rotation, replay tolerance, family ban ────────────────── */

  datatype Verdict =
    | Deny(error: Error)
    | Tolerate(user: UserId)
    | Ban(family: nat)
    | Rotate(jti: nat, row: Row)

  /** What one reading of the tables decides about a presented cookie. */
  function Decide(db: Db, now: int, cookie: Cookie): Verdict {
    if !cookie.Token? || now / 1000 >= cookie.exp then Deny(Unauthorized)
    else if cookie.jti !in db.rows then Deny(Unauthorized)
    else
      var row := db.rows[cookie.jti];
      if row.isUsed then
        var usedAt := if row.usedAt.Some? then row.usedAt.value else 0;
        if now - usedAt <= REPLAY_TOLERANCE_MS && row.user in db.users then Tolerate(row.user)
        else Ban(row.family)
      else if row.isFamilyRevoked || row.revokedAt.Some? then Deny(Unauthorized)
      else if now > row.expiresAt then Deny(Unauthorized)
      else if row.user != cookie.sub then Deny(Unauthorized)
      else if row.user !in db.users || db.users[row.user].status != Active then Deny(Forbidden)
      else Rotate(cookie.jti, row)
  }

  function BanFamily(rows: map<nat, Row>, family: nat, now: int): map<nat, Row> {
    map j | j in rows ::
      if rows[j].family == family then rows[j].(isFamilyRevoked := true, revokedAt := Some(now)) else rows[j]
  }

  /** The two writes of a rotation: the presented row is marked used, then its successor is created. */
  function MarkUsed(db: Db, now: int, jti: nat): Db
    requires jti in db.rows
  {
    db.(rows := db.rows[jti := db.rows[jti].(isUsed := true, usedAt := Some(now))])
  }

  function CreateSuccessor(db: Db, now: int, user: UserId, family: nat): Effect {
    Effect(
      db.(rows := db.rows[db.nextJti := NewRow(user, family, now, db.ttlSec)], nextJti := db.nextJti + 1),
      Refreshed(user, NewCookie(user, db.nextJti, family, now, db.ttlSec)))
  }

  /** Writes a verdict reached earlier, possibly on older tables. */
  function Commit(db: Db, now: int, v: Verdict): Effect {
    match v
    case Deny(error) => Effect(db, Rejected(error))
    case Tolerate(user) => Effect(db, Refreshed(user, REPLAY_PLACEHOLDER))
    case Ban(family) => Effect(db.(rows := BanFamily(db.rows, family, now)), Rejected(Unauthorized))
    case Rotate(jti, row) =>
      if jti !in db.rows then Effect(db, Rejected(NotFound))
      else CreateSuccessor(MarkUsed(db, now, jti), now, row.user, row.family)
  }

  function Refresh(db: Db, now: int, cookie: Cookie): Effect {
    Commit(db, now, Decide(db, now, cookie))
  }

  /* ── Ending sessions ────────────────────────────────────────────────── */

  function Logout(db: Db, now: int, cookie: Cookie): Effect {
    if cookie.Token? && now / 1000 < cookie.exp && cookie.jti in db.rows then
      Effect(db.(rows := db.rows[cookie.jti := db.rows[cookie.jti].(revokedAt := Some(now))]), Done)
    else Effect(db, Done)
  }

  function RevokeUser(rows: map<nat, Row>, user: UserId, now: int): map<nat, Row> {
    map j | j in rows ::
      if rows[j].user == user && rows[j].revokedAt.None?
      then rows[j].(isFamilyRevoked := true, revokedAt := Some(now)) else rows[j]
  }

  function ForgotPassword(db: Db, now: int, user: UserId): Effect {
    if user !in db.users then Effect(db, Done)
    else Effect(db.(resets := db.resets[db.nextReset := ResetToken(user, now + RESET_TTL_MS, None)],
                    nextReset := db.nextReset + 1), Done)
  }

  function SetPassword(db: Db, now: int, user: UserId, password: string): Db
    requires user in db.users
  {
    db.(users := db.users[user := db.users[user].(password := password, mustChangePassword := false)],
        rows := RevokeUser(db.rows, user, now))
  }

  function SpendReset(db: Db, now: int, token: nat, user: UserId, password: string): Db
    requires token in db.resets && user in db.users
  {
    SetPassword(db.(resets := db.resets[token := db.resets[token].(usedAt := Some(now))]), now, user, password)
  }

  function ResetPassword(db: Db, now: int, token: nat, password: string): Effect {
    if token !in db.resets || db.resets[token].usedAt.Some? || now > db.resets[token].expiresAt
    then Effect(db, Rejected(Unprocessable))
    else if db.resets[token].user !in db.users then Effect(db, Rejected(NotFound))
    else Effect(SpendReset(db, now, token, db.resets[token].user, password), Done)
  }

  function ChangePassword(db: Db, now: int, user: UserId, current: string, password: string): Effect {
    if user !in db.users then Effect(db, Rejected(NotFound))
    else if db.users[user].status != Active then Effect(db, Rejected(Forbidden))
    else if db.users[user].password != current then Effect(db, Rejected(Unprocessable))
    else if db.users[user].password == password then Effect(db, Rejected(Conflict))
    else Effect(SetPassword(db, now, user, password), Done)
  }

  /** The profile page's route to the same change; it does not look at the account status. */
  function ChangeOwnPassword(db: Db, now: int, user: UserId, current: string, password: string): Effect {
    if current == password then Effect(db, Rejected(BadRequest))
    else if user !in db.users then Effect(db, Rejected(NotFound))
    else if db.users[user].password != current then Effect(db, Rejected(BadRequest))
    else Effect(SetPassword(db, now, user, password), Done)
  }

  /** An administrator's update; only the fields that matter to sessions are modelled. */
  function UpdateUser(db: Db, now: int, user: UserId, status: Option<Status>, mustChange: Option<bool>): Effect {
    if user !in db.users then Effect(db, Rejected(NotFound))
    else
      var before := db.users[user];
      var after := before.(status := Or(status, before.status),
                           mustChangePassword := Or(mustChange, before.mustChangePassword));
      Effect(
        db.(users := db.users[user := after],
            rows := if status == Some(Inactive) && before.status != Inactive
                    then RevokeUser(db.rows, user, now) else db.rows),
        Done)
  }

  /* ── Two-factor enrolment ───────────────────────────────────────────── */

  function StoreSecret(db: Db, user: UserId, secret: string): Db
    requires user in db.users
  {
    db.(users := db.users[user := db.users[user].(twoFactorSecret := Some(secret))])
  }

  function SetupTwoFactor(db: Db, user: UserId, secret: string): Effect {
    if user !in db.users then Effect(db, Rejected(NotFound))
    else if db.users[user].twoFactorEnabled then Effect(db, Rejected(Conflict))
    else Effect(StoreSecret(db, user, secret), Done)
  }

  function Hashes(codes: seq<string>): (r: seq<Digest>)
    ensures |r| == |codes|
    ensures forall i :: 0 <= i < |codes| ==> r[i] == HashCode(codes[i])
  {
    if codes == [] then [] else [HashCode(codes[0])] + Hashes(codes[1..])
  }

  function SwitchOn(db: Db, user: UserId, codes: seq<string>): Db
    requires user in db.users
  {
    db.(users := db.users[user := db.users[user].(twoFactorEnabled := true, recoveryHashes := Hashes(codes))])
  }

  /** `codes` are the freshly drawn recovery codes. */
  function EnableTwoFactor(db: Db, user: UserId, code: string, readable: bool, totp: bool, codes: seq<string>): Effect {
    if user !in db.users then Effect(db, Rejected(NotFound))
    else if db.users[user].twoFactorEnabled then Effect(db, Rejected(Conflict))
    else if db.users[user].twoFactorSecret.None? || !readable || !(SixDigits(code) && totp)
    then Effect(db, Rejected(Unprocessable))
    else Effect(SwitchOn(db, user, codes), CodesIssued(codes))
  }

  function SwitchOff(db: Db, user: UserId): Db
    requires user in db.users
  {
    var off := db.users[user].(twoFactorEnabled := false, twoFactorSecret := None, recoveryHashes := []);
    db.(users := db.users[user := off])
  }

  function DisableTwoFactor(db: Db, user: UserId, password: string): Effect {
    if user !in db.users then Effect(db, Rejected(NotFound))
    else if db.users[user].password != password then Effect(db, Rejected(Unprocessable))
    else if !db.users[user].twoFactorEnabled then Effect(db, Done)
    else Effect(SwitchOff(db, user), Done)
  }

  /* ── Runs ───────────────────────────────────────────────────────────── */

  datatype Event =
    | LoginEvent(user: UserId, password: string)
    | VerifyEvent(challenge: Option<UserId>, code: string, readable: bool, totp: bool)
    | RefreshEvent(cookie: Cookie)
    | LogoutEvent(cookie: Cookie)
    | ForgotEvent(user: UserId)
    | ResetEvent(token: nat, password: string)
    | ChangePasswordEvent(user: UserId, current: string, password: string)
    | ChangeOwnPasswordEvent(user: UserId, current: string, password: string)
    | UpdateUserEvent(user: UserId, status: Option<Status>, mustChange: Option<bool>)
    | SetupEvent(user: UserId, secret: string)
    | EnableEvent(user: UserId, code: string, readable: bool, totp: bool, codes: seq<string>)
    | DisableEvent(user: UserId, password: string)

  function Step(db: Db, now: int, e: Event): Effect {
    match e
    case LoginEvent(user, password) => Login(db, now, user, password)
    case VerifyEvent(challenge, code, readable, totp) => VerifyTwoFactor(db, now, challenge, code, readable, totp)
    case RefreshEvent(cookie) => Refresh(db, now, cookie)
    case LogoutEvent(cookie) => Logout(db, now, cookie)
    case ForgotEvent(user) => ForgotPassword(db, now, user)
    case ResetEvent(token, password) => ResetPassword(db, now, token, password)
    case ChangePasswordEvent(user, current, password) => ChangePassword(db, now, user, current, password)
    case ChangeOwnPasswordEvent(user, current, password) => ChangeOwnPassword(db, now, user, current, password)
    case UpdateUserEvent(user, status, mustChange) => UpdateUser(db, now, user, status, mustChange)
    case SetupEvent(user, secret) => SetupTwoFactor(db, user, secret)
    case EnableEvent(user, code, readable, totp, codes) => EnableTwoFactor(db, user, code, readable, totp, codes)
    case DisableEvent(user, password) => DisableTwoFactor(db, user, password)
  }

  datatype Timed = Timed(at: int, event: Event)

  /** The clock does not run backwards. */
  ghost predicate Ordered(run: seq<Timed>, from: int) {
    run == [] || (from <= run[0].at && Ordered(run[1..], run[0].at))
  }

  function End(run: seq<Timed>, from: int): int {
    if run == [] then from else run[|run| - 1].at
  }

  function Exec(db: Db, run: seq<Timed>): Db
    decreases |run|
  {
    if run == [] then db else Exec(Step(db, run[0].at, run[0].event).db, run[1..])
  }

  /** The tables before the i-th call of a run. */
  function Before(db: Db, run: seq<Timed>, i: nat): Db
    requires i < |run|
  {
    Exec(db, run[..i])
  }

  /** The outcome of the i-th call of a run. */
  function OutcomeAt(db: Db, run: seq<Timed>, i: nat): Outcome
    requires i < |run|
  {
    Step(Before(db, run, i), run[i].at, run[i].event).out
  }
}
