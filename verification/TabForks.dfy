/** Overlapping refreshes of one jar: exactly when the session family forks. */
module TabForks {
  import opened Prelude
  import opened Sessions
  import opened SessionProofs
  import opened CallPlans
  import S = SplitCalls
  import P = SplitProofs
  import M = ManyTabs

  /** The server's side of the refreshes that it is working on. */
  function WorldOf(s: M.State): S.World {
    S.World(s.db, map t | t in s.refreshes && s.refreshes[t].Working? :: s.refreshes[t].plan)
  }

  /** Two refreshes have rotated one cookie of the family. */
  predicate BothRotated(s: M.State, family: nat, u: nat, v: nat) {
    && u != v && u in s.refreshes && v in s.refreshes
    && M.HasRotated(s.refreshes[u]) && M.HasRotated(s.refreshes[v])
    && s.refreshes[u].cookie.Token? && s.refreshes[v].cookie.Token?
    && s.refreshes[u].cookie.jti == s.refreshes[v].cookie.jti
    && s.refreshes[u].cookie.jti in s.db.rows && s.db.rows[s.refreshes[u].cookie.jti].family == family
  }

  ghost predicate RotatedTwice(s: M.State, family: nat) { exists u: nat, v: nat :: BothRotated(s, family, u, v) }

  /** One live row unless a cookie was rotated twice; and a single live row is the newest. */
  ghost predicate Balanced(s: M.State, clock: int, family: nat) {
    && P.WorldInv(WorldOf(s), clock)
    && P.LiveIsNewest(WorldOf(s), family)
    && P.LiveCount(WorldOf(s), family) >= 1
    && (P.LiveCount(WorldOf(s), family) == 1 <==> !RotatedTwice(s, family))
  }

  lemma WriteIsResume(s: M.State, now: int, t: nat)
    requires M.Enabled(s, M.Write(t))
    ensures S.Enabled(WorldOf(s), S.Resume(t))
    ensures WorldOf(M.Do(s, now, M.Write(t))) == S.Do(WorldOf(s), now, S.Resume(t))
  {
  }

  lemma StaleMarkDoubles(s: M.State, start: int, now: int, t: nat, family: nat)
    requires M.Inv(s, start) && M.Enabled(s, M.Write(t)) && s.refreshes[t].plan.Mark?
    requires P.IsStaleMark(WorldOf(s), S.Resume(t), family)
    ensures RotatedTwice(M.Do(s, now, M.Write(t)), family)
  {
    var s', jti := M.Do(s, now, M.Write(t)), s.refreshes[t].plan.jti;
    assert M.RefreshFits(s, start, t);
    var u: nat :| M.RotatedBy(s, u, jti);
    assert BothRotated(s', family, t, u);
  }

  lemma FreshMarkDoesNot(s: M.State, start: int, now: int, t: nat, family: nat, u: nat, v: nat)
    requires M.Inv(s, start) && M.Enabled(s, M.Write(t)) && s.refreshes[t].plan.Mark?
    requires !P.IsStaleMark(WorldOf(s), S.Resume(t), family) && BothRotated(M.Do(s, now, M.Write(t)), family, u, v)
    ensures BothRotated(s, family, u, v)
  {
    assert M.RefreshFits(s, start, t);
    assert M.RefreshFits(s, start, if u == t then v else u);
  }

  lemma MarkAdds(s: M.State, start: int, now: int, t: nat, family: nat)
    requires M.Inv(s, start) && M.Enabled(s, M.Write(t)) && s.refreshes[t].plan.Mark?
    ensures var s' := M.Do(s, now, M.Write(t));
      RotatedTwice(s', family) <==> RotatedTwice(s, family) || P.IsStaleMark(WorldOf(s), S.Resume(t), family)
  {
    var s' := M.Do(s, now, M.Write(t));
    if P.IsStaleMark(WorldOf(s), S.Resume(t), family) {
      StaleMarkDoubles(s, start, now, t, family);
    } else if u: nat, v: nat :| BothRotated(s', family, u, v) {
      FreshMarkDoesNot(s, start, now, t, family, u, v);
    }
    if u: nat, v: nat :| BothRotated(s, family, u, v) { DoubleStays(s, start, now, t, family, u, v); }
  }

  lemma DoubleStays(s: M.State, start: int, now: int, t: nat, family: nat, u: nat, v: nat)
    requires M.Inv(s, start) && M.Enabled(s, M.Write(t)) && s.refreshes[t].plan.Mark? && BothRotated(s, family, u, v)
    ensures BothRotated(M.Do(s, now, M.Write(t)), family, u, v)
  {
  }

  /** Writings that mark nothing. */
  lemma OtherWriteAdds(s: M.State, start: int, now: int, t: nat, family: nat)
    requires M.Inv(s, start) && M.Enabled(s, M.Write(t)) && !s.refreshes[t].plan.Mark?
    ensures RotatedTwice(M.Do(s, now, M.Write(t)), family) <==> RotatedTwice(s, family)
  {
    var s' := M.Do(s, now, M.Write(t));
    assert M.RefreshFits(s, start, t);
    forall u | u in s.refreshes ensures M.HasRotated(s'.refreshes[u]) == M.HasRotated(s.refreshes[u]) {}
    forall u | u in s.refreshes ensures M.RefreshFits(s, start, u) {}
    forall u: nat, v: nat ensures BothRotated(s', family, u, v) == BothRotated(s, family, u, v) {}
  }

  lemma WriteKeepsBalance(s: M.State, start: int, clock: int, now: int, t: nat, family: nat)
    requires M.Inv(s, start) && clock <= now && M.Enabled(s, M.Write(t)) && Balanced(s, clock, family)
    requires family < s.db.nextFamily
    ensures Balanced(M.Do(s, now, M.Write(t)), now, family)
  {
    var w := WorldOf(s);
    assert M.RefreshFits(s, start, t);
    WriteIsResume(s, now, t);
    P.TurnKeepsWorld(w, clock, now, S.Resume(t));
    P.TurnCounts(w, clock, now, S.Resume(t), family);
    P.TurnKeepsNewest(w, clock, now, S.Resume(t), family);
    LaterWorld(w, clock, now);
    if s.refreshes[t].plan.Mark? {
      MarkAdds(s, start, now, t, family);
    } else {
      OtherWriteAdds(s, start, now, t, family);
    }
  }

  lemma LaterWorld(w: S.World, clock: int, now: int)
    requires P.WorldInv(w, clock) && clock <= now
    ensures P.WorldInv(w, now)
  {
  }

  lemma ReadPlanFits(db: Db, clock: int, now: int, cookie: Cookie)
    requires P.TablesFit(db, clock)
    ensures P.PlanFits(db, ReadRefresh(db, now, cookie)) && !ReadRefresh(db, now, cookie).Succeed?
  {
  }

  /** Steps that leave the tables alone. */
  lemma QuietStepKeepsWorld(s: M.State, clock: int, now: int, a: M.Action, family: nat)
    requires clock <= now && M.Enabled(s, a) && !a.Write? && P.WorldInv(WorldOf(s), clock)
    ensures P.WorldInv(WorldOf(M.Do(s, now, a)), now) && M.Do(s, now, a).db == s.db
    ensures P.CreatorsIn(WorldOf(M.Do(s, now, a)).calls, family) == P.CreatorsIn(WorldOf(s).calls, family)
  {
    hide ReadRefresh;
    var w, w' := WorldOf(s), WorldOf(M.Do(s, now, a));
    LaterWorld(w, clock, now);
    if a.Read? { ReadPlanFits(s.db, clock, now, s.refreshes[a.t].cookie); }
    forall c | c in w'.calls ensures P.PlanFits(w'.db, w'.calls[c]) {
      if c != a.t { assert P.PlanFits(w.db, w.calls[c]); }
    }
  }

  lemma QuietStepRotatesNothing(s: M.State, now: int, a: M.Action, u: nat)
    requires M.Enabled(s, a) && !a.Write?
    ensures var s' := M.Do(s, now, a);
      && (u in s.refreshes ==>
            u in s'.refreshes && M.HasRotated(s'.refreshes[u]) == M.HasRotated(s.refreshes[u])
            && s'.refreshes[u].cookie == s.refreshes[u].cookie)
      && (u !in s.refreshes && u in s'.refreshes ==> !M.HasRotated(s'.refreshes[u]))
  {
  }

  lemma QuietStepKeepsBalance(s: M.State, clock: int, now: int, a: M.Action, family: nat)
    requires clock <= now && M.Enabled(s, a) && !a.Write? && Balanced(s, clock, family)
    ensures Balanced(M.Do(s, now, a), now, family)
  {
    hide M.Do, M.Enabled, M.HasRotated, P.WorldInv;
    var s' := M.Do(s, now, a);
    QuietStepKeepsWorld(s, clock, now, a, family);
    forall u: nat, v: nat ensures BothRotated(s', family, u, v) == BothRotated(s, family, u, v) {
      QuietStepRotatesNothing(s, now, a, u);
      QuietStepRotatesNothing(s, now, a, v);
    }
  }

  lemma FamilyCounterGrows(s: M.State, now: int, a: M.Action)
    requires M.Enabled(s, a)
    ensures s.db.nextFamily <= M.Do(s, now, a).db.nextFamily
  {
  }

  lemma {:induction false} RunKeepsBalance(s: M.State, run: seq<M.Turn>, clock: int, start: int, family: nat)
      returns (end: int)
    requires M.Inv(s, start) && start <= clock && M.Runs(s, run, clock) && Balanced(s, clock, family)
    requires family < s.db.nextFamily
    ensures Balanced(M.After(s, run, clock), end, family)
    decreases |run|
  {
    hide M.Inv, M.Do, M.Enabled, Balanced;
    end := clock;
    if run != [] {
      var now, a := run[0].at, run[0].action;
      if a.Write? { WriteKeepsBalance(s, start, clock, now, a.t, family); }
      else { QuietStepKeepsBalance(s, clock, now, a, family); }
      M.StepKeepsInv(s, start, now, a);
      FamilyCounterGrows(s, now, a);
      end := RunKeepsBalance(M.Do(s, now, a), run[1..], now, start, family);
    }
  }

  /**
   * In every interleaving, once no rotation is half written, the family of the jar's first
   * token is a chain exactly if no cookie of it was rotated by two refreshes. A second refresh
   * rotates a cookie exactly if it reads before the first one marks it.
   */
  lemma FamilyForksExactlyIfCookieRotatedTwice(s: M.State, run: seq<M.Turn>, start: int)
    requires M.Init(s, start) && M.Runs(s, run, start)
    requires Inv(s.db, start)
    requires forall t :: t in M.After(s, run, start).refreshes ==> !M.After(s, run, start).refreshes[t].Working?
    ensures var end := M.After(s, run, start);
      && s.jar.jti in end.db.rows
      && (P.IsChain(end.db.rows, s.jar.jti) <==> !RotatedTwice(end, s.db.rows[s.jar.jti].family))
  {
    var end, family := M.After(s, run, start), s.db.rows[s.jar.jti].family;
    P.AtomicTablesAreOrderly(s.db, start, s.jar.jti);
    assert WorldOf(s) == S.World(s.db, map[]);
    var now := RunKeepsBalance(s, run, start, start, family);
    RunKeepsRow(s, run, start, start, s.jar.jti);
    assert P.CreatorsIn(WorldOf(end).calls, family) == {};
    P.ChainHasOneUnused(end.db.rows, s.jar.jti);
  }

  lemma {:induction false} RunKeepsRow(s: M.State, run: seq<M.Turn>, clock: int, start: int, j: nat)
    requires M.Inv(s, start) && start <= clock && M.Runs(s, run, clock) && j in s.db.rows
    ensures j in M.After(s, run, clock).db.rows && M.After(s, run, clock).db.rows[j].family == s.db.rows[j].family
    decreases |run|
  {
    if run != [] {
      StepKeepsRow(s, start, run[0].at, run[0].action, j);
      M.StepKeepsInv(s, start, run[0].at, run[0].action);
      RunKeepsRow(M.Do(s, run[0].at, run[0].action), run[1..], run[0].at, start, j);
    }
  }

  lemma StepKeepsRow(s: M.State, start: int, now: int, a: M.Action, j: nat)
    requires M.Inv(s, start) && M.Enabled(s, a) && j in s.db.rows
    ensures j in M.Do(s, now, a).db.rows && M.Do(s, now, a).db.rows[j].family == s.db.rows[j].family
  {
    if a.Write? { assert M.RefreshFits(s, start, a.t); }
  }
}
