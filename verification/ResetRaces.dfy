/** Password-reset tokens, which are meant to work once, when resets interleave. */
module ResetRaces {
  import opened Prelude
  import opened Sessions
  import opened CallPlans
  import opened SplitCalls
  import opened SplitProofs

  predicate IsSpent(db: Db, token: nat) {
    token in db.resets && db.resets[token].usedAt.Some?
  }

  /** The turn commits a password reset with this token. */
  predicate Resets(w: World, a: Action, token: nat) {
    a.Resume? && a.c in w.calls && w.calls[a.c].Reset? && w.calls[a.c].token == token
  }

  ghost function ResetsOver(w: World, run: seq<Turn>, clock: int, token: nat): nat
    requires Runs(w, run, clock)
    decreases |run|
  {
    if run == [] then 0
    else
      (if Resets(w, run[0].action, token) then 1 else 0)
      + ResetsOver(Do(w, run[0].at, run[0].action), run[1..], run[0].at, token)
  }

  /** Of those, the ones that find the token spent: it was read before another reset committed. */
  ghost function StaleResets(w: World, run: seq<Turn>, clock: int, token: nat): nat
    requires Runs(w, run, clock)
    decreases |run|
  {
    if run == [] then 0
    else
      (if Resets(w, run[0].action, token) && IsSpent(w.db, token) then 1 else 0)
      + StaleResets(Do(w, run[0].at, run[0].action), run[1..], run[0].at, token)
  }

  lemma TurnSpends(w: World, clock: int, now: int, a: Action, token: nat)
    requires WorldInv(w, clock) && Enabled(w, a) && token < w.db.nextReset
    ensures IsSpent(Do(w, now, a).db, token) <==> IsSpent(w.db, token) || Resets(w, a, token)
    ensures token < Do(w, now, a).db.nextReset
  {
  }

  /**
   * Over every interleaving the uses of a token beyond the one that spends it are exactly the
   * commits that find it spent: so a fresh token works at most once exactly if there is none.
   */
  lemma {:induction false} TokenWorksOnceExactlyWithoutStaleReset(w: World, run: seq<Turn>, clock: int, token: nat)
    requires WorldInv(w, clock) && Runs(w, run, clock) && token < w.db.nextReset
    ensures ResetsOver(w, run, clock, token)
      == StaleResets(w, run, clock, token)
         + if !IsSpent(w.db, token) && IsSpent(After(w, run, clock).db, token) then 1 else 0
    ensures IsSpent(w.db, token) ==> IsSpent(After(w, run, clock).db, token)
    decreases |run|
  {
    if run != [] {
      var now, a := run[0].at, run[0].action;
      TurnKeepsWorld(w, clock, now, a);
      TurnSpends(w, clock, now, a, token);
      TokenWorksOnceExactlyWithoutStaleReset(Do(w, now, a), run[1..], now, token);
    }
  }

  /** The input: two requests with one link that both read before either commits both set a password. */
  lemma BothReadingFirstResetTwice(db: Db, now: int, token: nat, first: string, second: string)
    requires ResetPassword(db, now, token, first).out.Done?
    ensures var begun :=
      Do(Do(World(db, map[]), now, Begin(0, ResetEvent(token, first))), now, Begin(1, ResetEvent(token, second)));
      var user := db.resets[token].user;
      var one := Do(begun, now, Resume(0));
      var two := Do(one, now, Resume(1));
      one.db.users[user].password == first && two.db.users[user].password == second
  {
  }
}
