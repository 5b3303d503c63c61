/**
 * What interleaved readings and writings keep, and exactly when they break what atomic calls
 * guarantee: one live row per family, no new row after an eviction.
 */
module SplitProofs {
  import opened Prelude
  import opened RecoveryCodes
  import opened Sessions
  import opened SessionProofs
  import opened CallPlans
  import opened SplitCalls

  /* ── The invariant ──────────────────────────────────────────────────── */

  ghost predicate TablesFit(db: Db, clock: int) {
    && (forall j :: j in db.rows ==> j < db.nextJti && db.rows[j].family < db.nextFamily && db.rows[j].user in db.users)
    && (forall j: nat, k: nat :: SameFamily(db.rows, j, k) ==> db.rows[j].user == db.rows[k].user)
    && Timestamps(db.rows, clock)
  }

  /** What a waiting call remembers of the tables is still true of them. */
  predicate PlanFits(db: Db, p: Plan) {
    match p
    case Answer(_) => true
    case Start(user, _) => user in db.users
    case Spend(user, read, spending) => user in db.users && spending in read
    case Mark(jti, row) => jti in db.rows && db.rows[jti].user == row.user && db.rows[jti].family == row.family
    case Succeed(jti, user, family) => jti in db.rows && db.rows[jti].user == user && db.rows[jti].family == family
    case BanAll(family) => family < db.nextFamily
    case Reset(token, user, _) => token in db.resets && user in db.users
    case Change(user, _) => user in db.users
    case Store(user, _) => user in db.users
    case Enable(user, _) => user in db.users
    case Disable(user) => user in db.users
  }

  ghost predicate WorldInv(w: World, clock: int) {
    TablesFit(w.db, clock) && forall c :: c in w.calls ==> PlanFits(w.db, w.calls[c])
  }

  /** Rows keep their user and family, users and reset tokens stay, counters do not fall. */
  predicate Grows(db: Db, db': Db) {
    && (forall j :: j in db.rows ==>
          j in db'.rows && db'.rows[j].user == db.rows[j].user && db'.rows[j].family == db.rows[j].family
          && (db.rows[j].isUsed ==> db'.rows[j].isUsed))
    && (forall u :: u in db.users ==> u in db'.users)
    && (forall t :: t in db.resets ==> t in db'.resets)
    && db.nextJti <= db'.nextJti && db.nextFamily <= db'.nextFamily
  }

  /** The new row of a family nobody had before. */
  predicate Starts(db: Db, now: int, db': Db, user: UserId) {
    && user in db.users
    && db'.rows == db.rows[db.nextJti := NewRow(user, db.nextFamily, now, db.ttlSec)]
    && db'.nextJti == db.nextJti + 1 && db'.nextFamily == db.nextFamily + 1
  }

  /** What one writing does to the rows. */
  lemma WriteShape(db: Db, now: int, p: Plan)
    requires TablesFit(db, now) && PlanFits(db, p)
    ensures var db' := Write(db, now, p).db;
      match p
      case Mark(jti, _) => db' == MarkUsed(db, now, jti)
      case Succeed(_, user, family) => db' == CreateSuccessor(db, now, user, family).db
      case Start(user, _) => Starts(db, now, db', user)
      case _ => RevokesOnly(db, db')
  {
  }

  lemma RevocationFits(db: Db, db': Db, clock: int)
    requires TablesFit(db, clock) && RevokesOnly(db, db') && (forall u :: u in db.users ==> u in db'.users)
    ensures TablesFit(db', clock)
  {
  }

  lemma SuccessionFits(db: Db, now: int, jti: nat)
    requires TablesFit(db, now) && jti in db.rows
    ensures TablesFit(CreateSuccessor(db, now, db.rows[jti].user, db.rows[jti].family).db, now)
  {
  }

  lemma WriteKeepsTables(db: Db, now: int, p: Plan)
    requires TablesFit(db, now) && PlanFits(db, p)
    ensures TablesFit(Write(db, now, p).db, now)
  {
    WriteShape(db, now, p);
    var db' := Write(db, now, p).db;
    match p
    case Succeed(jti, _, _) => SuccessionFits(db, now, jti);
    case Start(_, _) =>
    case Mark(_, _) =>
      forall j: nat, k: nat | SameFamily(db'.rows, j, k) ensures db'.rows[j].user == db'.rows[k].user {
        assert SameFamily(db.rows, j, k);
      }
    case _ => RevocationFits(db, db', now);
  }

  lemma WriteFits(db: Db, now: int, p: Plan)
    requires TablesFit(db, now) && PlanFits(db, p)
    ensures var written := Write(db, now, p);
      TablesFit(written.db, now) && Grows(db, written.db) && PlanFits(written.db, written.plan)
  {
    WriteShape(db, now, p);
    WriteKeepsTables(db, now, p);
  }

  lemma WholeFits(db: Db, now: int, e: Event)
    requires TablesFit(db, now) && IsWhole(e)
    ensures var db' := Step(db, now, e).db;
      RevokesOnly(db, db') && TablesFit(db', now) && Grows(db, db')
  {
    StepRevokes(db, now, e);
    StepStatus(db, now, e);
    RevocationFits(db, Step(db, now, e).db, now);
  }

  lemma ReadFits(db: Db, now: int, e: Event)
    requires TablesFit(db, now)
    ensures PlanFits(db, Read(db, now, e)) && !Read(db, now, e).Succeed?
  {
  }

  lemma TurnKeepsWorld(w: World, clock: int, now: int, a: Action)
    requires WorldInv(w, clock) && clock <= now && Enabled(w, a)
    ensures WorldInv(Do(w, now, a), now) && Grows(w.db, Do(w, now, a).db)
  {
    hide Read, Write, Step;
    match a
    case Begin(c, e) =>
      if IsWhole(e) { WholeFits(w.db, now, e); } else { ReadFits(w.db, now, e); }
    case Resume(c) =>
      WriteFits(w.db, now, w.calls[c]);
  }

  lemma {:induction false} RunKeepsWorld(w: World, run: seq<Turn>, clock: int)
    requires WorldInv(w, clock) && Runs(w, run, clock)
    ensures WorldInv(After(w, run, clock), EndOf(run, clock)) && Grows(w.db, After(w, run, clock).db)
    decreases |run|
  {
    if run != [] {
      var now, a := run[0].at, run[0].action;
      TurnKeepsWorld(w, clock, now, a);
      RunKeepsWorld(Do(w, now, a), run[1..], now);
    }
  }

  /* ── How many rows of a family are live ─────────────────────────────── */

  function UnusedIn(rows: map<nat, Row>, family: nat): set<nat> {
    set j | j in rows && rows[j].family == family && !rows[j].isUsed
  }

  /** The calls that have marked a row of the family and not yet created its successor. */
  function CreatorsIn(calls: map<nat, Plan>, family: nat): set<nat> {
    set c | c in calls && calls[c].Succeed? && calls[c].family == family
  }

  /** Unused rows of the family, counting those about to be created. */
  function LiveCount(w: World, family: nat): nat {
    |UnusedIn(w.db.rows, family)| + |CreatorsIn(w.calls, family)|
  }

  /** The turn marks a row of the family that is already used: it was read before another call marked it. */
  predicate IsStaleMark(w: World, a: Action, family: nat) {
    && a.Resume? && a.c in w.calls && w.calls[a.c].Mark?
    && w.calls[a.c].jti in w.db.rows && w.db.rows[w.calls[a.c].jti].isUsed
    && w.db.rows[w.calls[a.c].jti].family == family
  }

  ghost function StaleMarks(w: World, run: seq<Turn>, clock: int, family: nat): nat
    requires Runs(w, run, clock)
    decreases |run|
  {
    if run == [] then 0
    else
      (if IsStaleMark(w, run[0].action, family) then 1 else 0)
      + StaleMarks(Do(w, run[0].at, run[0].action), run[1..], run[0].at, family)
  }

  function StartedIn(db: Db, db': Db, family: nat): nat {
    if db.nextFamily <= family < db'.nextFamily then 1 else 0
  }

  lemma UnusedAfterMark(rows: map<nat, Row>, jti: nat, row: Row, family: nat)
    requires jti in rows && row.isUsed && row.family == rows[jti].family
    ensures UnusedIn(rows[jti := row], family) == UnusedIn(rows, family) - {jti}
  {
  }

  lemma UnusedAfterNewRow(rows: map<nat, Row>, jti: nat, row: Row, family: nat)
    requires jti !in rows && !row.isUsed
    ensures UnusedIn(rows[jti := row], family) == UnusedIn(rows, family) + if row.family == family then {jti} else {}
  {
  }

  lemma CreatorsAfter(calls: map<nat, Plan>, c: nat, p: Plan, family: nat)
    ensures CreatorsIn(calls[c := p], family)
      == (CreatorsIn(calls, family) - {c}) + if p.Succeed? && p.family == family then {c} else {}
  {
  }

  lemma MarkCounts(w: World, clock: int, now: int, c: nat, family: nat)
    requires WorldInv(w, clock) && c in w.calls && w.calls[c].Mark?
    ensures LiveCount(Do(w, now, Resume(c)), family)
      == LiveCount(w, family) + if IsStaleMark(w, Resume(c), family) then 1 else 0
  {
    var w', p := Do(w, now, Resume(c)), w.calls[c];
    assert PlanFits(w.db, p);
    UnusedAfterMark(w.db.rows, p.jti, w'.db.rows[p.jti], family);
    CreatorsAfter(w.calls, c, w'.calls[c], family);
    assert p.jti in UnusedIn(w.db.rows, family) <==> w.db.rows[p.jti].family == family && !w.db.rows[p.jti].isUsed;
  }

  lemma SuccessionCounts(w: World, clock: int, now: int, c: nat, family: nat)
    requires WorldInv(w, clock) && c in w.calls && w.calls[c].Succeed?
    ensures LiveCount(Do(w, now, Resume(c)), family) == LiveCount(w, family)
  {
    var w', p := Do(w, now, Resume(c)), w.calls[c];
    UnusedAfterNewRow(w.db.rows, w.db.nextJti, NewRow(p.user, p.family, now, w.db.ttlSec), family);
    CreatorsAfter(w.calls, c, w'.calls[c], family);
    assert c in CreatorsIn(w.calls, family) <==> p.family == family;
  }

  lemma StartCounts(w: World, clock: int, now: int, c: nat, family: nat)
    requires WorldInv(w, clock) && c in w.calls && w.calls[c].Start?
    ensures LiveCount(Do(w, now, Resume(c)), family)
      == LiveCount(w, family) + StartedIn(w.db, Do(w, now, Resume(c)).db, family)
  {
    var w', p := Do(w, now, Resume(c)), w.calls[c];
    UnusedAfterNewRow(w.db.rows, w.db.nextJti, NewRow(p.user, w.db.nextFamily, now, w.db.ttlSec), family);
    CreatorsAfter(w.calls, c, w'.calls[c], family);
  }

  /** Turns that neither use nor add a row. */
  lemma OtherTurnCounts(w: World, clock: int, now: int, a: Action, family: nat)
    requires WorldInv(w, clock) && clock <= now && Enabled(w, a)
    requires a.Resume? ==> !w.calls[a.c].Mark? && !w.calls[a.c].Succeed? && !w.calls[a.c].Start?
    ensures RevokesOnly(w.db, Do(w, now, a).db) && LiveCount(Do(w, now, a), family) == LiveCount(w, family)
  {
    var w' := Do(w, now, a);
    match a {
      case Begin(c, e) => if IsWhole(e) { WholeFits(w.db, now, e); } else { ReadFits(w.db, now, e); }
      case Resume(c) => WriteShape(w.db, now, w.calls[c]);
    }
    assert CreatorsIn(w'.calls, family) == CreatorsIn(w.calls, family);
    assert UnusedIn(w'.db.rows, family) == UnusedIn(w.db.rows, family);
  }

  lemma TurnCounts(w: World, clock: int, now: int, a: Action, family: nat)
    requires WorldInv(w, clock) && clock <= now && Enabled(w, a)
    ensures LiveCount(Do(w, now, a), family)
      == LiveCount(w, family) + (if IsStaleMark(w, a, family) then 1 else 0) + StartedIn(w.db, Do(w, now, a).db, family)
  {
    if a.Resume? && w.calls[a.c].Mark? {
      MarkCounts(w, clock, now, a.c, family);
    } else if a.Resume? && w.calls[a.c].Succeed? {
      SuccessionCounts(w, clock, now, a.c, family);
    } else if a.Resume? && w.calls[a.c].Start? {
      StartCounts(w, clock, now, a.c, family);
    } else {
      OtherTurnCounts(w, clock, now, a, family);
    }
  }

  /**
   * Conservation of live rows: over every interleaving a family gains a live row when it
   * starts and at each stale mark, and never loses one.
   */
  lemma {:induction false} LiveRowsAreConserved(w: World, run: seq<Turn>, clock: int, family: nat)
    requires WorldInv(w, clock) && Runs(w, run, clock)
    ensures LiveCount(After(w, run, clock), family)
      == LiveCount(w, family) + StaleMarks(w, run, clock, family) + StartedIn(w.db, After(w, run, clock).db, family)
    decreases |run|
  {
    if run != [] {
      var now, a := run[0].at, run[0].action;
      TurnCounts(w, clock, now, a, family);
      TurnKeepsWorld(w, clock, now, a);
      LiveRowsAreConserved(Do(w, now, a), run[1..], now, family);
      RunKeepsWorld(Do(w, now, a), run[1..], now);
    }
  }

  /**
   * One rotation, decided at any time on any earlier tables: written onto tables whose families
   * are chains, it keeps them chains exactly if the row it presents is still unused.
   */
  lemma RotationKeepsChainsExactlyIfUnused(db: Db, clock: int, now: int, jti: nat, row: Row)
    requires Inv(db, clock) && jti in db.rows && row.user == db.rows[jti].user && row.family == db.rows[jti].family
    ensures var db' := Commit(db, now, Rotate(jti, row)).db;
      Chains(db'.rows, db'.nextJti, db'.nextFamily) <==> !db.rows[jti].isUsed
  {
    var db' := Commit(db, now, Rotate(jti, row)).db;
    if db.rows[jti].isUsed {
      var head := HeadOf(db.rows, db.nextJti, db.nextFamily, jti);
      assert SameFamily(db'.rows, head, db.nextJti);
    } else {
      ChainsSurviveRotation(db, now, db', jti);
    }
  }

  /** The input: two requests with one cookie that both read before either writes fork the family. */
  lemma BothReadingFirstForks(db: Db, now: int, cookie: Cookie)
    requires (forall j :: j in db.rows ==> j < db.nextJti) && Decide(db, now, cookie).Rotate?
    ensures var begun :=
      Do(Do(World(db, map[]), now, Begin(0, RefreshEvent(cookie))), now, Begin(1, RefreshEvent(cookie)));
      var first := Do(Do(begun, now, Resume(0)), now, Resume(0)).db;
      var both := Do(Do(World(first, begun.calls), now, Resume(1)), now, Resume(1)).db;
      {db.nextJti, db.nextJti + 1} <= UnusedIn(both.rows, db.rows[cookie.jti].family)
  {
  }

  /* ── Chains ─────────────────────────────────────────────────────────── */

  /** Every unused row of the family is its newest. */
  ghost predicate UnusedIsNewest(rows: map<nat, Row>, family: nat) {
    forall h, k :: h in UnusedIn(rows, family) && k in rows && rows[k].family == family ==> k <= h
  }

  /** As long as the family has one live row. */
  ghost predicate LiveIsNewest(w: World, family: nat) {
    LiveCount(w, family) <= 1 ==> UnusedIsNewest(w.db.rows, family)
  }

  /** The family has one live row, its newest, or has not started. */
  ghost predicate Orderly(w: World, family: nat) {
    family >= w.db.nextFamily || (LiveCount(w, family) == 1 && LiveIsNewest(w, family))
  }

  /** Tables that only atomic calls have written are orderly: the interleaved results start from them. */
  lemma AtomicTablesAreOrderly(db: Db, clock: int, j: nat)
    requires Inv(db, clock) && j in db.rows
    ensures WorldInv(World(db, map[]), clock) && Orderly(World(db, map[]), db.rows[j].family)
  {
    var head := HeadOf(db.rows, db.nextJti, db.nextFamily, j);
    var w := World(db, map[]);
    forall k | k in UnusedIn(db.rows, db.rows[j].family) ensures k == head {
      assert SameFamily(db.rows, j, k);
    }
    assert UnusedIn(db.rows, db.rows[j].family) == {head};
    forall k | k in db.rows && db.rows[k].family == db.rows[j].family ensures k <= head {
      assert SameFamily(db.rows, j, k);
    }
    assert CreatorsIn(w.calls, db.rows[j].family) == {};
  }

  lemma SuccessorIsNewest(w: World, clock: int, now: int, c: nat, family: nat)
    requires WorldInv(w, clock) && c in w.calls && w.calls[c].Succeed?
    requires LiveCount(w, family) <= 1 && UnusedIsNewest(w.db.rows, family)
    ensures UnusedIsNewest(Do(w, now, Resume(c)).db.rows, family)
  {
    if w.calls[c].family == family {
      assert c in CreatorsIn(w.calls, family);
      assert |CreatorsIn(w.calls, family)| >= 1;
      assert UnusedIn(w.db.rows, family) == {};
      assert UnusedIn(Do(w, now, Resume(c)).db.rows, family) <= {w.db.nextJti};
    } else {
      assert UnusedIn(Do(w, now, Resume(c)).db.rows, family) == UnusedIn(w.db.rows, family);
    }
  }

  lemma StartIsNewest(w: World, clock: int, now: int, c: nat, family: nat)
    requires WorldInv(w, clock) && c in w.calls && w.calls[c].Start? && UnusedIsNewest(w.db.rows, family)
    ensures UnusedIsNewest(Do(w, now, Resume(c)).db.rows, family)
  {
    assert PlanFits(w.db, w.calls[c]);
    var rows' := Do(w, now, Resume(c)).db.rows;
    forall h, k | h in UnusedIn(rows', family) && k in rows' && rows'[k].family == family ensures k <= h {
      if family != w.db.nextFamily {
        assert h in UnusedIn(w.db.rows, family);
      }
    }
  }

  lemma TurnKeepsNewest(w: World, clock: int, now: int, a: Action, family: nat)
    requires WorldInv(w, clock) && clock <= now && Enabled(w, a)
    requires LiveIsNewest(w, family)
    ensures LiveIsNewest(Do(w, now, a), family)
  {
    TurnCounts(w, clock, now, a, family);
    var w' := Do(w, now, a);
    if LiveCount(w', family) <= 1 {
      if a.Resume? && w.calls[a.c].Mark? {
        assert UnusedIn(w'.db.rows, family) <= UnusedIn(w.db.rows, family);
      } else if a.Resume? && w.calls[a.c].Succeed? {
        SuccessorIsNewest(w, clock, now, a.c, family);
      } else if a.Resume? && w.calls[a.c].Start? {
        StartIsNewest(w, clock, now, a.c, family);
      } else {
        OtherTurnCounts(w, clock, now, a, family);
        assert UnusedIn(w'.db.rows, family) == UnusedIn(w.db.rows, family);
      }
    }
  }

  lemma {:induction false} RunKeepsNewest(w: World, run: seq<Turn>, clock: int, family: nat)
    requires WorldInv(w, clock) && Runs(w, run, clock) && LiveIsNewest(w, family)
    ensures LiveIsNewest(After(w, run, clock), family)
    decreases |run|
  {
    if run != [] {
      var now, a := run[0].at, run[0].action;
      TurnKeepsWorld(w, clock, now, a);
      TurnKeepsNewest(w, clock, now, a, family);
      RunKeepsNewest(Do(w, now, a), run[1..], now, family);
    }
  }

  lemma UnstartedIsEmpty(w: World, clock: int, family: nat)
    requires WorldInv(w, clock) && family >= w.db.nextFamily
    ensures UnusedIn(w.db.rows, family) == {} && CreatorsIn(w.calls, family) == {} && LiveIsNewest(w, family)
  {
  }

  lemma NewestIsHead(rows: map<nat, Row>, j: nat, head: nat)
    requires j in rows && head in UnusedIn(rows, rows[j].family)
    requires (forall k :: k in UnusedIn(rows, rows[j].family) ==> k == head) && UnusedIsNewest(rows, rows[j].family)
    ensures IsHead(rows, j, head)
  {
    forall k: nat | SameFamily(rows, j, k) && k != head ensures k < head && rows[k].isUsed {
      assert k !in UnusedIn(rows, rows[j].family);
    }
  }

  ghost predicate IsChain(rows: map<nat, Row>, j: nat) {
    exists head: nat :: IsHead(rows, j, head)
  }

  lemma ChainHasOneUnused(rows: map<nat, Row>, j: nat)
    requires j in rows && UnusedIn(rows, rows[j].family) != {}
    requires |UnusedIn(rows, rows[j].family)| == 1 ==> UnusedIsNewest(rows, rows[j].family)
    ensures IsChain(rows, j) <==> |UnusedIn(rows, rows[j].family)| == 1
  {
    var unused := UnusedIn(rows, rows[j].family);
    var first :| first in unused;
    if |unused| == 1 {
      forall k | k in unused ensures k == first {
        assert |unused - {first}| == 0;
      }
      NewestIsHead(rows, j, first);
    }
    if IsChain(rows, j) {
      var head: nat :| IsHead(rows, j, head);
      forall k | k in unused ensures k == head {
        assert SameFamily(rows, j, k);
      }
      assert unused == {head};
    }
  }

  /**
   * Whatever calls interleave, once no rotation of the family is half written the family is a
   * chain, its one unused row the newest, exactly when no row of it was marked by a call that
   * had read it before another one marked it.
   */
  lemma FamilyIsChainExactlyWithoutStaleMark(w: World, run: seq<Turn>, clock: int, j: nat)
    requires WorldInv(w, clock) && Runs(w, run, clock)
    requires j in After(w, run, clock).db.rows
    requires Orderly(w, After(w, run, clock).db.rows[j].family)
    requires CreatorsIn(After(w, run, clock).calls, After(w, run, clock).db.rows[j].family) == {}
    ensures var end := After(w, run, clock);
      IsChain(end.db.rows, j) <==> StaleMarks(w, run, clock, end.db.rows[j].family) == 0
  {
    var end := After(w, run, clock);
    var family := end.db.rows[j].family;
    if family >= w.db.nextFamily { UnstartedIsEmpty(w, clock, family); }
    LiveRowsAreConserved(w, run, clock, family);
    RunKeepsWorld(w, run, clock);
    RunKeepsNewest(w, run, clock, family);
    ChainHasOneUnused(end.db.rows, j);
  }
}
