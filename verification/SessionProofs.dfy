/**
 * What every run of the authentication calls keeps, each call taken as one atomic step:
 * families are chains, dead families stay dead, inactive users have no live row, two-factor
 * enrolment is consistent.
 */
module SessionProofs {
  import opened Prelude
  import opened RecoveryCodes
  import opened Sessions

  /* ── The invariant ──────────────────────────────────────────────────── */

  predicate SameFamily(rows: map<nat, Row>, j: nat, k: nat) {
    j in rows && k in rows && rows[j].family == rows[k].family
  }

  ghost predicate HasLater(rows: map<nat, Row>, j: nat) {
    exists k: nat :: SameFamily(rows, j, k) && j < k
  }

  /** Each family is one user's chain: everything but its newest row is used. */
  ghost predicate Chains(rows: map<nat, Row>, nextJti: nat, nextFamily: nat) {
    && (forall j :: j in rows ==> j < nextJti && rows[j].family < nextFamily)
    && (forall j: nat, k: nat :: SameFamily(rows, j, k) ==> rows[j].user == rows[k].user)
    && (forall j: nat, k: nat :: SameFamily(rows, j, k) && j < k ==> rows[j].isUsed)
    && (forall j :: j in rows && rows[j].isUsed ==> HasLater(rows, j))
  }

  ghost predicate Timestamps(rows: map<nat, Row>, clock: int) {
    forall j :: j in rows ==>
      (rows[j].isUsed <==> rows[j].usedAt.Some?) && (rows[j].usedAt.Some? ==> rows[j].usedAt.value <= clock)
  }

  /** Rows belong to users, and a disabled user has no row that is not revoked. */
  ghost predicate Owners(db: Db) {
    forall j :: j in db.rows ==>
      && db.rows[j].user in db.users
      && (db.users[db.rows[j].user].status == Inactive ==> db.rows[j].revokedAt.Some?)
  }

  /** Two-factor login is on only with a stored secret; recovery codes exist only while it is on. */
  ghost predicate Enrolment(users: map<UserId, User>) {
    forall u :: u in users ==>
      && (users[u].twoFactorEnabled ==> users[u].twoFactorSecret.Some?)
      && (users[u].recoveryHashes != [] ==> users[u].twoFactorEnabled)
  }

  ghost predicate Inv(db: Db, clock: int) {
    && Chains(db.rows, db.nextJti, db.nextFamily)
    && Timestamps(db.rows, clock)
    && Owners(db)
    && Enrolment(db.users)
  }

  /** A deployment starts with no session and nobody enrolled. */
  ghost predicate Init(db: Db) {
    && db.rows == map[]
    && forall u :: u in db.users ==> !db.users[u].twoFactorEnabled && db.users[u].recoveryHashes == []
  }

  /* ── Each call keeps it ─────────────────────────────────────────────── */

  /** Revocation in any form: only `revokedAt` and `isFamilyRevoked` change, and no row is revived. */
  ghost predicate OnlyRevokes(rows: map<nat, Row>, rows': map<nat, Row>) {
    && rows'.Keys == rows.Keys
    && forall j :: j in rows ==>
      && rows'[j] == rows[j].(revokedAt := rows'[j].revokedAt, isFamilyRevoked := rows'[j].isFamilyRevoked)
      && (rows[j].revokedAt.Some? ==> rows'[j].revokedAt.Some?)
  }

  /** A session starts: one unused row in a family of its own. */
  ghost predicate StartsFamily(db: Db, now: int, db': Db) {
    exists user :: user in db.users && db.users[user].status == Active
      && db'.rows == db.rows[db.nextJti := NewRow(user, db.nextFamily, now, db.ttlSec)]
      && db'.nextJti == db.nextJti + 1 && db'.nextFamily == db.nextFamily + 1
  }

  /** An unused row is marked used and its family gets a new row. */
  ghost predicate Advances(db: Db, now: int, db': Db, jti: nat) {
    && jti in db.rows && !db.rows[jti].isUsed
    && db'.rows == db.rows[jti := db.rows[jti].(isUsed := true, usedAt := Some(now))]
                          [db.nextJti := NewRow(db.rows[jti].user, db.rows[jti].family, now, db.ttlSec)]
    && db'.nextJti == db.nextJti + 1 && db'.nextFamily == db.nextFamily
  }

  /** The same of a live row of an active user. */
  ghost predicate Rotates(db: Db, now: int, db': Db, jti: nat) {
    && Advances(db, now, db', jti)
    && db.rows[jti].revokedAt.None?
    && db.rows[jti].user in db.users && db.users[db.rows[jti].user].status == Active
  }

  ghost predicate RevokesOnly(db: Db, db': Db) {
    OnlyRevokes(db.rows, db'.rows) && db'.nextJti == db.nextJti && db'.nextFamily == db.nextFamily
  }

  /** The three things a call can do to the token rows; only a refresh rotates. */
  lemma StepShape(db: Db, now: int, e: Event)
    ensures var db' := Step(db, now, e).db;
      || RevokesOnly(db, db')
      || StartsFamily(db, now, db')
      || (e.RefreshEvent? && e.cookie.Token? && Rotates(db, now, db', e.cookie.jti))
  {
    var effect := Step(db, now, e);
    var db' := effect.db;
    if effect.out.SessionIssued? {
      assert StartsFamily(db, now, db');
    } else if e.RefreshEvent? && Decide(db, now, e.cookie).Rotate? {
      assert Rotates(db, now, db', e.cookie.jti);
    } else {
      StepRevokes(db, now, e);
    }
  }

  lemma RefreshRevokes(db: Db, now: int, cookie: Cookie)
    requires !Decide(db, now, cookie).Rotate?
    ensures RevokesOnly(db, Refresh(db, now, cookie).db) && !Refresh(db, now, cookie).out.SessionIssued?
  {
    hide Decide;
  }

  lemma StepRevokes(db: Db, now: int, e: Event)
    requires !Step(db, now, e).out.SessionIssued?
    requires !(e.RefreshEvent? && Decide(db, now, e.cookie).Rotate?)
    ensures RevokesOnly(db, Step(db, now, e).db)
  {
    hide Decide, Refresh, Hashes, Without, SixDigits;
    if e.RefreshEvent? { RefreshRevokes(db, now, e.cookie); }
  }

  lemma ChainsSurviveRevocation(db: Db, db': Db)
    requires Chains(db.rows, db.nextJti, db.nextFamily) && RevokesOnly(db, db')
    ensures Chains(db'.rows, db'.nextJti, db'.nextFamily)
  {
    assert forall j: nat, k: nat :: SameFamily(db'.rows, j, k) <==> SameFamily(db.rows, j, k);
    forall j | j in db'.rows && db'.rows[j].isUsed ensures HasLater(db'.rows, j) {
      assert HasLater(db.rows, j);
      var k :| SameFamily(db.rows, j, k) && j < k;
      assert SameFamily(db'.rows, j, k);
    }
  }

  lemma ChainsSurviveNewFamily(db: Db, now: int, db': Db)
    requires Chains(db.rows, db.nextJti, db.nextFamily) && StartsFamily(db, now, db')
    ensures Chains(db'.rows, db'.nextJti, db'.nextFamily)
  {
    assert forall j: nat, k: nat :: SameFamily(db'.rows, j, k) ==> SameFamily(db.rows, j, k) || j == k == db.nextJti;
    forall j | j in db'.rows && db'.rows[j].isUsed ensures HasLater(db'.rows, j) {
      assert HasLater(db.rows, j);
      var k :| SameFamily(db.rows, j, k) && j < k;
      assert SameFamily(db'.rows, j, k);
    }
  }

  lemma ChainsSurviveRotation(db: Db, now: int, db': Db, jti: nat)
    requires Chains(db.rows, db.nextJti, db.nextFamily) && Advances(db, now, db', jti)
    ensures Chains(db'.rows, db'.nextJti, db'.nextFamily)
  {
    forall j: nat, k: nat | SameFamily(db'.rows, j, k)
      ensures db'.rows[j].user == db'.rows[k].user && (j < k ==> db'.rows[j].isUsed)
    {
      var j0, k0 := if j == db.nextJti then jti else j, if k == db.nextJti then jti else k;
      assert SameFamily(db.rows, j0, k0);
      assert SameFamily(db.rows, k0, j0);
    }
    forall j | j in db'.rows && db'.rows[j].isUsed ensures HasLater(db'.rows, j) {
      if j == jti {
        assert SameFamily(db'.rows, j, db.nextJti);
      } else {
        assert HasLater(db.rows, j);
        var k :| SameFamily(db.rows, j, k) && j < k;
        assert SameFamily(db'.rows, j, k);
      }
    }
  }

  /** Users are never dropped, and disabling one revokes what was left of its rows. */
  lemma StepStatus(db: Db, now: int, e: Event)
    ensures var db' := Step(db, now, e).db;
      && (forall u :: u in db.users ==> u in db'.users)
      && (forall u :: u in db.users && db'.users[u].status != db.users[u].status ==>
            e.UpdateUserEvent? && e.user == u
            && (db'.users[u].status == Inactive ==> db'.rows == RevokeUser(db.rows, u, now)))
  {
  }

  lemma StepKeepsOwners(db: Db, now: int, e: Event)
    requires Owners(db) && (forall j :: j in db.rows ==> j < db.nextJti)
    ensures Owners(Step(db, now, e).db)
  {
    StepShape(db, now, e);
    StepStatus(db, now, e);
  }

  lemma StepKeepsEnrolment(db: Db, now: int, e: Event)
    requires Enrolment(db.users)
    ensures Enrolment(Step(db, now, e).db.users)
  {
  }

  lemma StepKeepsInv(db: Db, clock: int, now: int, e: Event)
    requires Inv(db, clock) && clock <= now
    ensures Inv(Step(db, now, e).db, now)
  {
    var db' := Step(db, now, e).db;
    StepShape(db, now, e);
    if RevokesOnly(db, db') {
      ChainsSurviveRevocation(db, db');
    } else if StartsFamily(db, now, db') {
      ChainsSurviveNewFamily(db, now, db');
    } else {
      ChainsSurviveRotation(db, now, db', e.cookie.jti);
    }
    StepKeepsOwners(db, now, e);
    StepKeepsEnrolment(db, now, e);
  }

  lemma InitHasInv(db: Db, clock: int)
    requires Init(db)
    ensures Inv(db, clock)
  {
  }

  lemma {:induction false} RunKeepsInv(db: Db, clock: int, run: seq<Timed>)
    requires Inv(db, clock) && Ordered(run, clock)
    ensures Inv(Exec(db, run), End(run, clock))
    decreases |run|
  {
    if run != [] {
      StepKeepsInv(db, clock, run[0].at, run[0].event);
      RunKeepsInv(Step(db, run[0].at, run[0].event).db, run[0].at, run[1..]);
    }
  }

  /** Over every run a disabled user has only revoked rows, so enabling the account revives no session. */
  lemma DisabledUsersHaveNoSession(db: Db, clock: int, run: seq<Timed>, j: nat, later: seq<Timed>, now: int,
      cookie: Cookie)
    requires Init(db) && Ordered(run, clock)
    requires j in Exec(db, run).rows && Exec(db, run).rows[j].user in Exec(db, run).users
    requires Exec(db, run).users[Exec(db, run).rows[j].user].status == Inactive
    requires cookie.Token? && cookie.jti == j
    ensures Exec(db, run).rows[j].revokedAt.Some?
    ensures !Decide(Exec(Exec(db, run), later), now, cookie).Rotate?
  {
    InitHasInv(db, clock);
    RunKeepsInv(db, clock, run);
    RevokedRowsStayRevoked(Exec(db, run), later, j);
  }

  lemma StepKeepsRevoked(db: Db, now: int, e: Event, j: nat)
    requires (forall k :: k in db.rows ==> k < db.nextJti) && j in db.rows && db.rows[j].revokedAt.Some?
    ensures var db' := Step(db, now, e).db;
      (forall k :: k in db'.rows ==> k < db'.nextJti) && j in db'.rows && db'.rows[j].revokedAt.Some?
  {
  }

  lemma {:induction false} RevokedRowsStayRevoked(db: Db, run: seq<Timed>, j: nat)
    requires (forall k :: k in db.rows ==> k < db.nextJti) && j in db.rows && db.rows[j].revokedAt.Some?
    ensures j in Exec(db, run).rows && Exec(db, run).rows[j].revokedAt.Some?
    decreases |run|
  {
    if run != [] {
      StepKeepsRevoked(db, run[0].at, run[0].event, j);
      RevokedRowsStayRevoked(Step(db, run[0].at, run[0].event).db, run[1..], j);
    }
  }

  /** Over every run two-factor login is on only with a stored secret, and codes exist only while it is on. */
  lemma {:induction false} EnrolmentStaysConsistent(db: Db, run: seq<Timed>)
    requires Enrolment(db.users)
    ensures Enrolment(Exec(db, run).users)
    decreases |run|
  {
    if run != [] {
      StepKeepsEnrolment(db, run[0].at, run[0].event);
      EnrolmentStaysConsistent(Step(db, run[0].at, run[0].event).db, run[1..]);
    }
  }

  /* ── Families are chains ────────────────────────────────────────────── */

  /** The newest row of the family of `j`: unused, and every other row of the family is used. */
  ghost predicate IsHead(rows: map<nat, Row>, j: nat, head: nat) {
    && SameFamily(rows, j, head)
    && !rows[head].isUsed
    && forall k: nat :: SameFamily(rows, j, k) && k != head ==> k < head && rows[k].isUsed
  }

  lemma {:induction false} HeadOf(rows: map<nat, Row>, nextJti: nat, nextFamily: nat, j: nat) returns (head: nat)
    requires Chains(rows, nextJti, nextFamily) && j in rows
    ensures j <= head && IsHead(rows, j, head)
    decreases nextJti - j
  {
    if rows[j].isUsed {
      assert HasLater(rows, j);
      var k :| SameFamily(rows, j, k) && j < k;
      head := HeadOf(rows, nextJti, nextFamily, k);
      forall i: nat | SameFamily(rows, j, i) ensures SameFamily(rows, k, i) {}
    } else {
      head := j;
      forall k: nat | SameFamily(rows, j, k) && k != head ensures k < head && rows[k].isUsed {
        assert SameFamily(rows, k, j);
      }
    }
  }

  /**
   * Over every run of the calls, taken as atomic steps, every session family is a chain
   * with exactly one unused row, its newest; so at most one row of it can be rotated.
   */
  lemma FamiliesAreChains(db: Db, clock: int, run: seq<Timed>, j: nat) returns (head: nat)
    requires Init(db) && Ordered(run, clock)
    requires j in Exec(db, run).rows
    ensures IsHead(Exec(db, run).rows, j, head)
    ensures forall now, cookie ::
      var v := Decide(Exec(db, run), now, cookie);
      v.Rotate? && SameFamily(Exec(db, run).rows, j, v.jti) ==> v.jti == head
  {
    InitHasInv(db, clock);
    RunKeepsInv(db, clock, run);
    var end := Exec(db, run);
    head := HeadOf(end.rows, end.nextJti, end.nextFamily, j);
  }

  /** A rotation hands out the cookie of the presented family's head: its one row that can be rotated next. */
  lemma RotatedRowIsHead(db: Db, clock: int, now: int, cookie: Cookie)
    requires Inv(db, clock) && clock <= now
    requires Refresh(db, now, cookie).out.Refreshed? && Refresh(db, now, cookie).out.cookie.Token?
    ensures IsHead(Refresh(db, now, cookie).db.rows, cookie.jti, Refresh(db, now, cookie).out.cookie.jti)
  {
    var db' := Step(db, now, RefreshEvent(cookie)).db;
    StepKeepsInv(db, clock, now, RefreshEvent(cookie));
    var head := HeadOf(db'.rows, db'.nextJti, db'.nextFamily, cookie.jti);
    assert SameFamily(db'.rows, cookie.jti, db.nextJti);
  }

  /** No row of the user can be rotated. */
  predicate NoLiveRow(rows: map<nat, Row>, user: UserId) {
    forall j :: j in rows && rows[j].user == user ==> rows[j].revokedAt.Some?
  }

  lemma InactiveHasNoLiveRow(db: Db, clock: int, user: UserId)
    requires Inv(db, clock)
    ensures user in db.users && db.users[user].status == Inactive ==> NoLiveRow(db.rows, user)
  {
  }

  /* ── Dead families ──────────────────────────────────────────────────── */

  function FamilyRows(rows: map<nat, Row>, family: nat): set<nat> {
    set j | j in rows && rows[j].family == family
  }

  /** Every row of the family is revoked, and none was used after `since`. */
  ghost predicate Dead(db: Db, family: nat, since: int) {
    && family < db.nextFamily
    && forall j :: j in db.rows && db.rows[j].family == family ==>
         db.rows[j].revokedAt.Some? && (db.rows[j].usedAt.Some? ==> db.rows[j].usedAt.value <= since)
  }

  lemma StepKeepsDead(db: Db, clock: int, now: int, e: Event, family: nat, since: int)
    requires Inv(db, clock) && clock <= now && Dead(db, family, since)
    ensures Dead(Step(db, now, e).db, family, since)
    ensures FamilyRows(Step(db, now, e).db.rows, family) == FamilyRows(db.rows, family)
  {
    StepShape(db, now, e);
  }

  /** `e` is a refresh presenting a row of the family. */
  ghost predicate Presents(rows: map<nat, Row>, e: Event, family: nat) {
    e.RefreshEvent? && e.cookie.Token? && e.cookie.jti in rows && rows[e.cookie.jti].family == family
  }

  /** The replays that are tolerated: the row was used at most five seconds ago and the cookie has not expired. */
  predicate IsFreshReplay(row: Row, now: int, cookie: Cookie) {
    && cookie.Token? && now / 1000 < cookie.exp
    && row.isUsed && row.usedAt.Some? && now - row.usedAt.value <= REPLAY_TOLERANCE_MS
  }

  /** An unexpired cookie of a row that was used longer ago. */
  predicate IsLateReplay(row: Row, now: int, cookie: Cookie) {
    && cookie.Token? && now / 1000 < cookie.exp
    && row.isUsed && row.usedAt.Some? && now - row.usedAt.value > REPLAY_TOLERANCE_MS
  }

  /**
   * A refresh presenting a row of a dead family mints an access token exactly if it is a
   * fresh replay; it then changes nothing and carries the placeholder.
   */
  lemma DeadRefreshMintsExactlyFreshReplays(db: Db, clock: int, now: int, e: Event, family: nat, since: int)
    requires Inv(db, clock) && Dead(db, family, since) && Presents(db.rows, e, family)
    ensures Step(db, now, e).out.Refreshed? <==> IsFreshReplay(db.rows[e.cookie.jti], now, e.cookie)
    ensures Step(db, now, e).out.Refreshed? ==>
      Step(db, now, e) == Effect(db, Refreshed(db.rows[e.cookie.jti].user, REPLAY_PLACEHOLDER))
  {
  }

  /**
   * A family dead at `since` never gets another row, and the access tokens `refresh` still
   * mints for it are exactly the fresh replays of rows that were used by then: none later
   * than five seconds after `since`.
   */
  lemma {:induction false} DeadFamiliesStayDead(db: Db, since: int, run: seq<Timed>, family: nat, clock: int)
    requires Inv(db, clock) && Ordered(run, clock) && Dead(db, family, since)
    ensures Dead(Exec(db, run), family, since)
    ensures FamilyRows(Exec(db, run).rows, family) == FamilyRows(db.rows, family)
    ensures forall i :: 0 <= i < |run| && Presents(db.rows, run[i].event, family) ==>
      && (OutcomeAt(db, run, i).Refreshed? <==>
        IsFreshReplay(db.rows[run[i].event.cookie.jti], run[i].at, run[i].event.cookie))
      && (OutcomeAt(db, run, i).Refreshed? ==>
            run[i].at <= since + REPLAY_TOLERANCE_MS && OutcomeAt(db, run, i).cookie == REPLAY_PLACEHOLDER)
    decreases |run|
  {
    if run != [] {
      var now, e := run[0].at, run[0].event;
      var db' := Step(db, now, e).db;
      StepKeepsInv(db, clock, now, e);
      StepKeepsDead(db, clock, now, e, family, since);
      DeadFamiliesStayDead(db', since, run[1..], family, now);
      forall i | 0 <= i < |run| && Presents(db.rows, run[i].event, family)
        ensures OutcomeAt(db, run, i).Refreshed? <==>
          IsFreshReplay(db.rows[run[i].event.cookie.jti], run[i].at, run[i].event.cookie)
        ensures OutcomeAt(db, run, i).Refreshed? ==>
          run[i].at <= since + REPLAY_TOLERANCE_MS && OutcomeAt(db, run, i).cookie == REPLAY_PLACEHOLDER
      {
        var jti := run[i].event.cookie.jti;
        if i == 0 {
          assert Before(db, run, 0) == db;
          DeadRefreshMintsExactlyFreshReplays(db, clock, now, e, family, since);
        } else {
          assert run[..i][1..] == run[1..][..i - 1];
          assert Before(db, run, i) == Before(db', run[1..], i - 1);
          assert jti in FamilyRows(db.rows, family);
          assert jti in FamilyRows(db'.rows, family);
          DeadStepKeepsUse(db, clock, now, e, family, since, jti);
        }
      }
    }
  }

  /**
   * The input for which a disabled account is served: a refresh, then the deactivation, then
   * the cookie of that refresh again. It gets an access token exactly within the tolerance.
   */
  lemma DisabledUserIsServedExactlyWithinTolerance(db: Db, clock: int, cookie: Cookie, used: int, off: int, again: int)
    requires Inv(db, clock) && clock <= used <= off <= again && Decide(db, used, cookie).Rotate?
    ensures var disabled := UpdateUser(Refresh(db, used, cookie).db, off, cookie.sub, Some(Inactive), None).db;
      && disabled.users[cookie.sub].status == Inactive
      && (Refresh(disabled, again, cookie).out.Refreshed? <==>
            again / 1000 < cookie.exp && again - used <= REPLAY_TOLERANCE_MS)
  {
  }

  lemma DeadStepKeepsUse(db: Db, clock: int, now: int, e: Event, family: nat, since: int, jti: nat)
    requires Inv(db, clock) && clock <= now && Dead(db, family, since)
    requires jti in db.rows && db.rows[jti].family == family
    ensures jti in Step(db, now, e).db.rows
    ensures Step(db, now, e).db.rows[jti].isUsed == db.rows[jti].isUsed
    ensures Step(db, now, e).db.rows[jti].usedAt == db.rows[jti].usedAt
  {
    StepShape(db, now, e);
  }

  /** The calls after which all of a user's families are dead. */
  predicate Evicts(db: Db, now: int, e: Event, user: UserId) {
    match e
    case ResetEvent(token, _) => Step(db, now, e).out.Done? && db.resets[token].user == user
    case ChangePasswordEvent(u, _, _) => Step(db, now, e).out.Done? && u == user
    case ChangeOwnPasswordEvent(u, _, _) => Step(db, now, e).out.Done? && u == user
    case UpdateUserEvent(u, status, _) =>
      u == user && u in db.users && db.users[u].status == Active && status == Some(Inactive)
    case _ => false
  }

  /**
   * A password reset, either password change, or a deactivation at time `now` kills every
   * family of that user; a replay past the tolerance kills the presented family.
   */
  lemma EvictionKills(db: Db, clock: int, now: int, e: Event, family: nat, j: nat)
    requires Inv(db, clock) && clock <= now
    requires j in db.rows && db.rows[j].family == family
    requires || Evicts(db, now, e, db.rows[j].user)
             || (Presents(db.rows, e, family) && IsLateReplay(db.rows[e.cookie.jti], now, e.cookie))
    ensures Dead(Step(db, now, e).db, family, now)
  {
    forall k | k in db.rows && db.rows[k].family == family ensures db.rows[k].user == db.rows[j].user {
      assert SameFamily(db.rows, j, k);
    }
  }

  /** The two together, from the eviction on: for every later run. */
  lemma EvictedFamiliesNeverComeBack(db: Db, clock: int, now: int, e: Event, family: nat, j: nat, run: seq<Timed>)
    requires Inv(db, clock) && clock <= now && Ordered(run, now)
    requires j in db.rows && db.rows[j].family == family
    requires || Evicts(db, now, e, db.rows[j].user)
             || (Presents(db.rows, e, family) && IsLateReplay(db.rows[e.cookie.jti], now, e.cookie))
    ensures var db' := Step(db, now, e).db;
      && FamilyRows(Exec(db', run).rows, family) == FamilyRows(db'.rows, family)
      && forall i :: 0 <= i < |run| && Presents(db'.rows, run[i].event, family) ==>
           && (OutcomeAt(db', run, i).Refreshed? <==>
             IsFreshReplay(db'.rows[run[i].event.cookie.jti], run[i].at, run[i].event.cookie))
           && (OutcomeAt(db', run, i).Refreshed? ==> run[i].at <= now + REPLAY_TOLERANCE_MS)
  {
    StepKeepsInv(db, clock, now, e);
    EvictionKills(db, clock, now, e, family, j);
    DeadFamiliesStayDead(Step(db, now, e).db, now, run, family, now);
  }

  /* ── Sessions last ──────────────────────────────────────────────────── */

  /** The cookie was handed out at `at` to an active user and has not been spent or revoked. */
  predicate IsUnspent(db: Db, cookie: Cookie, at: int) {
    && cookie.Token? && cookie.jti in db.rows && cookie.jti < db.nextJti
    && db.rows[cookie.jti] == Row(cookie.sub, cookie.family, at + db.ttlSec * 1000, false, None, false, None)
    && cookie.exp == at / 1000 + db.ttlSec
    && cookie.sub in db.users && db.users[cookie.sub].status == Active
  }

  lemma StartedSessionIsUnspent(db: Db, now: int, e: Event)
    requires Step(db, now, e).out.SessionIssued?
    ensures IsUnspent(Step(db, now, e).db, Step(db, now, e).out.cookie, now)
  {
  }

  /** Presents the cookie at the first time, the cookie received then at the second, and so on. */
  predicate AllRefreshed(db: Db, cookie: Cookie, times: seq<int>)
    decreases |times|
  {
    times == [] ||
    (var effect := Refresh(db, times[0], cookie);
     effect.out.Refreshed? && effect.out.cookie.Token? && AllRefreshed(effect.db, effect.out.cookie, times[1..]))
  }

  /** Each time lies within the token's life, counted from the one before. */
  predicate WithinLife(times: seq<int>, from: int, ttlSec: nat)
    decreases |times|
  {
    times == [] ||
    (from <= times[0] <= from + ttlSec * 1000 && times[0] / 1000 < from / 1000 + ttlSec
     && WithinLife(times[1..], times[0], ttlSec))
  }

  predicate InOrder(times: seq<int>, from: int)
    decreases |times|
  {
    times == [] || (from <= times[0] && InOrder(times[1..], times[0]))
  }

  /**
   * An undisturbed session lasts as long as its cookie is refreshed in time, and no longer: of
   * any refreshes one after the other all rotate exactly if each comes within the token's life.
   */
  lemma {:induction false} SessionsLastWhileRefreshed(db: Db, cookie: Cookie, at: int, times: seq<int>)
    requires IsUnspent(db, cookie, at) && InOrder(times, at)
    ensures AllRefreshed(db, cookie, times) <==> WithinLife(times, at, db.ttlSec)
    decreases |times|
  {
    if times != [] {
      var effect := Refresh(db, times[0], cookie);
      if at <= times[0] <= at + db.ttlSec * 1000 && times[0] / 1000 < at / 1000 + db.ttlSec {
        assert Decide(db, times[0], cookie) == Rotate(cookie.jti, db.rows[cookie.jti]);
        assert IsUnspent(effect.db, effect.out.cookie, times[0]);
        SessionsLastWhileRefreshed(effect.db, effect.out.cookie, times[0], times[1..]);
      }
    }
  }
}
