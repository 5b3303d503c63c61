/**
 * Recovery codes when verifications interleave: each reads the stored list, and later writes
 * back what its own reading leaves of it.
 */
module CodeRaces {
  import opened Prelude
  import opened RecoveryCodes
  import opened Sessions
  import opened EnrolmentProofs
  import opened CallPlans
  import opened SplitCalls
  import opened SplitProofs

  /* ── Spending, and writing over a list one has not read ─────────────── */

  /** The turn stores the list left after spending a code of the user. */
  predicate Stores(w: World, a: Action, user: UserId) {
    a.Resume? && a.c in w.calls && w.calls[a.c].Spend? && w.calls[a.c].user == user
  }

  /** It overwrites a list other than the one it was computed from. */
  predicate IsStaleStore(w: World, a: Action, user: UserId) {
    Stores(w, a, user) && w.calls[a.c].read != CodesOf(w.db, user)
  }

  /** The turn replaces the user's codes altogether. */
  predicate Switches(w: World, a: Action, user: UserId) {
    && a.Resume? && a.c in w.calls
    && (w.calls[a.c].Enable? || w.calls[a.c].Disable?) && w.calls[a.c].user == user
  }

  ghost predicate NeverSwitches(w: World, run: seq<Turn>, clock: int, user: UserId)
    requires Runs(w, run, clock)
    decreases |run|
  {
    run == [] || (!Switches(w, run[0].action, user)
                  && NeverSwitches(Do(w, run[0].at, run[0].action), run[1..], run[0].at, user))
  }

  ghost function StaleStores(w: World, run: seq<Turn>, clock: int, user: UserId): nat
    requires Runs(w, run, clock)
    decreases |run|
  {
    if run == [] then 0
    else
      (if IsStaleStore(w, run[0].action, user) then 1 else 0)
      + StaleStores(Do(w, run[0].at, run[0].action), run[1..], run[0].at, user)
  }

  /** The code a turn spends, if it does. */
  function SpentByTurn(w: World, a: Action, user: UserId): multiset<Digest> {
    if Stores(w, a, user) then multiset{w.calls[a.c].spending} else multiset{}
  }

  /** How often each code of the user was spent over a run. */
  ghost function SpentOver(w: World, run: seq<Turn>, clock: int, user: UserId): multiset<Digest>
    requires Runs(w, run, clock)
    decreases |run|
  {
    if run == [] then multiset{}
    else
      SpentByTurn(w, run[0].action, user)
      + SpentOver(Do(w, run[0].at, run[0].action), run[1..], run[0].at, user)
  }

  /** The turn completes an enrolment of the user that issues the code. */
  predicate Issues(w: World, a: Action, user: UserId, d: Digest) {
    && a.Resume? && a.c in w.calls && w.calls[a.c].Enable?
    && w.calls[a.c].user == user && d in Hashes(w.calls[a.c].codes)
  }

  ghost function IssuesOver(w: World, run: seq<Turn>, clock: int, user: UserId, d: Digest): nat
    requires Runs(w, run, clock)
    decreases |run|
  {
    if run == [] then 0
    else
      (if Issues(w, run[0].action, user, d) then 1 else 0)
      + IssuesOver(Do(w, run[0].at, run[0].action), run[1..], run[0].at, user, d)
  }

  function IsStored(db: Db, user: UserId, d: Digest): nat {
    if d in CodesOf(db, user) then 1 else 0
  }

  /** Only stores and switches touch the list; a store leaves what its call had read, less its code. */
  lemma TurnChangesCodes(w: World, clock: int, now: int, a: Action, user: UserId)
    requires WorldInv(w, clock) && Enabled(w, a)
    ensures CodesOf(Do(w, now, a).db, user)
      == if Stores(w, a, user) then Without(w.calls[a.c].read, w.calls[a.c].spending)
         else if Switches(w, a, user) then (if w.calls[a.c].Enable? then Hashes(w.calls[a.c].codes) else [])
         else CodesOf(w.db, user)
    ensures Stores(w, a, user) ==> w.calls[a.c].spending in w.calls[a.c].read
  {
    if a.Resume? { assert PlanFits(w.db, w.calls[a.c]); }
  }

  /**
   * Over every interleaving, enrolments and disablings included: a code is spent, or left
   * stored, at most once for each time it is issued, and once more for each stale store.
   */
  lemma {:induction false} StaleStoresBoundReuse(w: World, run: seq<Turn>, clock: int, user: UserId, d: Digest)
    requires WorldInv(w, clock) && Runs(w, run, clock)
    ensures SpentOver(w, run, clock, user)[d] + IsStored(After(w, run, clock).db, user, d)
      <= IsStored(w.db, user, d) + IssuesOver(w, run, clock, user, d) + StaleStores(w, run, clock, user)
    decreases |run|
  {
    hide Do, Read, Write;
    if run != [] {
      var now, a := run[0].at, run[0].action;
      TurnKeepsWorld(w, clock, now, a);
      TurnChangesCodes(w, clock, now, a, user);
      StaleStoresBoundReuse(Do(w, now, a), run[1..], now, user, d);
    }
  }

  /** At every moment of the run no code has been spent twice, or been spent and is stored. */
  ghost predicate SpentOnceThroughout(w: World, run: seq<Turn>, clock: int, user: UserId, spent: multiset<Digest>)
    requires Runs(w, run, clock)
    decreases |run|
  {
    && (forall d :: spent[d] + IsStored(w.db, user, d) <= 1)
    && (run == [] || SpentOnceThroughout(Do(w, run[0].at, run[0].action), run[1..], run[0].at, user,
                                         spent + SpentByTurn(w, run[0].action, user)))
  }

  /** A waiting verification has read the stored list, or one with a code that was spent since. */
  ghost predicate StaleReadsShow(w: World, user: UserId, spent: multiset<Digest>) {
    forall c :: c in w.calls && w.calls[c].Spend? && w.calls[c].user == user ==>
      w.calls[c].read == CodesOf(w.db, user) || HasSpent(w.calls[c].read, CodesOf(w.db, user), spent)
  }

  ghost predicate HasSpent(read: seq<Digest>, stored: seq<Digest>, spent: multiset<Digest>) {
    exists d :: d in read && d !in stored && spent[d] >= 1
  }

  lemma TurnKeepsStaleReads(w: World, clock: int, now: int, a: Action, user: UserId, spent: multiset<Digest>)
    requires WorldInv(w, clock) && Enabled(w, a) && !Switches(w, a, user) && !IsStaleStore(w, a, user)
    requires StaleReadsShow(w, user, spent)
    ensures StaleReadsShow(Do(w, now, a), user, spent + SpentByTurn(w, a, user))
  {
    var w', spent' := Do(w, now, a), spent + SpentByTurn(w, a, user);
    TurnChangesCodes(w, clock, now, a, user);
    forall c | c in w'.calls && w'.calls[c].Spend? && w'.calls[c].user == user
      ensures w'.calls[c].read == CodesOf(w'.db, user) || HasSpent(w'.calls[c].read, CodesOf(w'.db, user), spent')
    {
      if c in w.calls {
        assert w'.calls[c] == w.calls[c];
        if w.calls[c].read == CodesOf(w.db, user) {
          if Stores(w, a, user) { assert w.calls[a.c].spending in w'.calls[c].read; }
        } else {
          var d :| d in w.calls[c].read && d !in CodesOf(w.db, user) && spent[d] >= 1;
          assert spent'[d] >= 1;
        }
      }
    }
  }

  /** A stale store spends a code that was spent already, or brings one back. */
  lemma StaleStoreReuses(w: World, clock: int, now: int, a: Action, user: UserId, spent: multiset<Digest>)
    requires WorldInv(w, clock) && Enabled(w, a) && IsStaleStore(w, a, user) && StaleReadsShow(w, user, spent)
    ensures exists d :: (spent + SpentByTurn(w, a, user))[d] + IsStored(Do(w, now, a).db, user, d) > 1
  {
    TurnChangesCodes(w, clock, now, a, user);
    var d :| d in w.calls[a.c].read && d !in CodesOf(w.db, user) && spent[d] >= 1;
    assert (spent + SpentByTurn(w, a, user))[d] + IsStored(Do(w, now, a).db, user, d) > 1;
  }

  lemma {:induction false} OnceExactlyWithoutStaleStore(w: World, run: seq<Turn>, clock: int, user: UserId,
      spent: multiset<Digest>)
    requires WorldInv(w, clock) && Runs(w, run, clock) && NeverSwitches(w, run, clock, user)
    requires StaleReadsShow(w, user, spent) && forall d :: spent[d] + IsStored(w.db, user, d) <= 1
    ensures SpentOnceThroughout(w, run, clock, user, spent) <==> StaleStores(w, run, clock, user) == 0
    decreases |run|
  {
    if run != [] {
      var now, a := run[0].at, run[0].action;
      var w', spent' := Do(w, now, a), spent + SpentByTurn(w, a, user);
      TurnKeepsWorld(w, clock, now, a);
      if IsStaleStore(w, a, user) {
        StaleStoreReuses(w, clock, now, a, user, spent);
      } else {
        TurnChangesCodes(w, clock, now, a, user);
        TurnKeepsStaleReads(w, clock, now, a, user, spent);
        forall d ensures spent'[d] + IsStored(w'.db, user, d) <= 1 {
          assert spent[d] + IsStored(w.db, user, d) <= 1;
        }
        OnceExactlyWithoutStaleStore(w', run[1..], now, user, spent');
      }
    }
  }

  /**
   * Between switching two-factor login on and off, over every interleaving from a moment at
   * which every waiting verification has read the stored list: each recovery code is spent at
   * most once and gone from then on, at every moment, exactly when no verification writes back
   * a list computed from another one than it overwrites. This includes two requests with the
   * same code.
   */
  lemma CodesAreSpentOnceExactlyWithoutStaleStore(w: World, run: seq<Turn>, clock: int, user: UserId)
    requires WorldInv(w, clock) && Runs(w, run, clock) && NeverSwitches(w, run, clock, user)
    requires forall c :: c in w.calls && w.calls[c].Spend? && w.calls[c].user == user ==>
      w.calls[c].read == CodesOf(w.db, user)
    ensures SpentOnceThroughout(w, run, clock, user, multiset{}) <==> StaleStores(w, run, clock, user) == 0
  {
    OnceExactlyWithoutStaleStore(w, run, clock, user, multiset{});
  }

  /** The input: two requests with one code that both read before either writes start two sessions. */
  lemma SameCodeStartsTwoSessions(db: Db, now: int, user: UserId, code: string)
    requires VerifyTwoFactor(db, now, Some(user), code, true, false).out.SessionIssued?
    ensures var verify := VerifyEvent(Some(user), code, true, false);
      var begun := Do(Do(World(db, map[]), now, Begin(0, verify)), now, Begin(1, verify));
      var first := Do(Do(begun, now, Resume(0)), now, Resume(0));
      var both := Do(Do(first, now, Resume(1)), now, Resume(1));
      forall c | c in {0, 1} :: both.calls[c].Answer? && both.calls[c].out.SessionIssued?
                                && both.calls[c].out.user == user && both.calls[c].out.spent == Some(HashCode(code))
  {
  }

  /* ── When a code is refused for good ────────────────────────────────── */

  /** A request with this code, reading now, would be accepted. */
  predicate AcceptsCode(db: Db, now: int, user: UserId, code: string) {
    Read(db, now, VerifyEvent(Some(user), code, true, false)).Spend?
  }

  /** The code is stored, or a verification of another code that is still to store a list has read it. */
  ghost predicate CanReturn(w: World, user: UserId, d: Digest) {
    d in CodesOf(w.db, user) || exists c :: BringsBack(w, c, user, d)
  }

  predicate BringsBack(w: World, c: nat, user: UserId, d: Digest) {
    c in w.calls && w.calls[c].Spend? && w.calls[c].user == user && d in w.calls[c].read && w.calls[c].spending != d
  }

  /** No enrolment of the user completes; it may be switched off. */
  ghost predicate NeverEnrols(w: World, run: seq<Turn>, clock: int, user: UserId)
    requires Runs(w, run, clock)
    decreases |run|
  {
    run == [] || (!Enrols(w, run[0].action, user)
                  && NeverEnrols(Do(w, run[0].at, run[0].action), run[1..], run[0].at, user))
  }

  predicate Enrols(w: World, a: Action, user: UserId) {
    a.Resume? && a.c in w.calls && w.calls[a.c].Enable? && w.calls[a.c].user == user
  }

  lemma TurnKeepsGone(w: World, clock: int, now: int, a: Action, user: UserId, d: Digest)
    requires WorldInv(w, clock) && Enabled(w, a) && !Enrols(w, a, user) && !CanReturn(w, user, d)
    ensures !CanReturn(Do(w, now, a), user, d)
  {
    TurnChangesCodes(w, clock, now, a, user);
    var w' := Do(w, now, a);
    forall c ensures !BringsBack(w', c, user, d) {
      assert !BringsBack(w, c, user, d);
    }
    assert Stores(w, a, user) ==> !BringsBack(w, a.c, user, d);
  }

  lemma {:induction false} GoneStaysGone(w: World, run: seq<Turn>, clock: int, user: UserId, d: Digest)
    requires WorldInv(w, clock) && Runs(w, run, clock) && NeverEnrols(w, run, clock, user) && !CanReturn(w, user, d)
    ensures d !in CodesOf(After(w, run, clock).db, user)
    decreases |run|
  {
    if run != [] {
      var now, a := run[0].at, run[0].action;
      TurnKeepsWorld(w, clock, now, a);
      TurnKeepsGone(w, clock, now, a, user, d);
      GoneStaysGone(Do(w, now, a), run[1..], now, user, d);
    }
  }

  /** Some continuation reaches tables on which the code would be accepted. */
  ghost predicate AcceptedLater(w: World, clock: int, user: UserId, code: string) {
    exists run :: Runs(w, run, clock) && NeverEnrols(w, run, clock, user)
                  && AcceptsCode(After(w, run, clock).db, EndOf(run, clock), user, code)
  }

  /**
   * For an active user with two-factor login on: some continuation without a new enrolment
   * accepts a recovery code exactly if the code is stored, or a waiting verification of
   * another code read it.
   */
  lemma CodeIsAcceptedLaterExactlyIfItCanReturn(w: World, clock: int, user: UserId, code: string)
    requires WorldInv(w, clock) && user in w.db.users
    requires w.db.users[user].status == Active && w.db.users[user].twoFactorEnabled &&
      w.db.users[user].twoFactorSecret.Some?
    ensures AcceptedLater(w, clock, user, code) <==> CanReturn(w, user, HashCode(code))
  {
    var d := HashCode(code);
    if d in CodesOf(w.db, user) {
      assert Runs(w, [], clock) && AcceptsCode(After(w, [], clock).db, EndOf([], clock), user, code);
    } else if CanReturn(w, user, d) {
      var c :| BringsBack(w, c, user, d);
      var run := [Turn(clock, Resume(c))];
      var w' := Do(w, clock, Resume(c));
      assert Runs(w', run[1..], clock) && NeverEnrols(w', run[1..], clock, user) && After(w', run[1..], clock) == w';
      assert Runs(w, run, clock) && NeverEnrols(w, run, clock, user) && After(w, run, clock) == w';
      assert AcceptsCode(w'.db, clock, user, code);
    } else if AcceptedLater(w, clock, user, code) {
      var run :| Runs(w, run, clock) && NeverEnrols(w, run, clock, user)
                 && AcceptsCode(After(w, run, clock).db, EndOf(run, clock), user, code);
      GoneStaysGone(w, run, clock, user, d);
      assert false;
    }
  }

  /* ── Across enrolments ──────────────────────────────────────────────── */

  predicate AllIn(codes: seq<Digest>, issued: seq<Digest>) { forall d :: d in codes ==> d in issued }

  /** At every moment of the run the stored codes are among the issued ones. */
  ghost predicate AmongThroughout(w: World, run: seq<Turn>, clock: int, user: UserId, issued: seq<Digest>)
    requires Runs(w, run, clock)
    decreases |run|
  {
    && AllIn(CodesOf(w.db, user), issued)
    && (run == [] || AmongThroughout(Do(w, run[0].at, run[0].action), run[1..], run[0].at, user, issued))
  }

  /** The turn stores a list with a code that was not issued; `calls` are the calls that may. */
  predicate StoresOther(w: World, a: Action, user: UserId, issued: seq<Digest>, calls: set<nat>) {
    Stores(w, a, user) && a.c in calls && !AllIn(Without(w.calls[a.c].read, w.calls[a.c].spending), issued)
  }

  ghost predicate SomeStoresOther(w: World, run: seq<Turn>, clock: int, user: UserId, issued: seq<Digest>,
      calls: set<nat>)
    requires Runs(w, run, clock)
    decreases |run|
  {
    run != [] && (StoresOther(w, run[0].action, user, issued, calls)
                  || SomeStoresOther(Do(w, run[0].at, run[0].action), run[1..], run[0].at, user, issued, calls))
  }

  /** The waiting verifications of the user: those that have read, and not yet stored. */
  function Verifying(w: World, user: UserId): set<nat> {
    set c | c in w.calls && w.calls[c].Spend? && w.calls[c].user == user
  }

  /** A waiting verification has read issued codes only, unless it is one of `calls`. */
  ghost predicate OthersReadIssued(w: World, user: UserId, issued: seq<Digest>, calls: set<nat>) {
    forall c :: c in Verifying(w, user) && c !in calls ==> AllIn(w.calls[c].read, issued)
  }

  lemma TurnKeepsReads(w: World, clock: int, now: int, a: Action, user: UserId, issued: seq<Digest>, calls: set<nat>)
    requires WorldInv(w, clock) && Enabled(w, a) && AllIn(CodesOf(w.db, user), issued)
    requires OthersReadIssued(w, user, issued, calls)
    ensures OthersReadIssued(Do(w, now, a), user, issued, calls)
  {
  }

  lemma {:induction false} AmongExactlyWithoutOlder(
      w: World, run: seq<Turn>, clock: int, user: UserId, issued: seq<Digest>, calls: set<nat>)
    requires WorldInv(w, clock) && Runs(w, run, clock) && NeverEnrols(w, run, clock, user)
    requires AllIn(CodesOf(w.db, user), issued) && OthersReadIssued(w, user, issued, calls)
    ensures AmongThroughout(w, run, clock, user, issued) <==> !SomeStoresOther(w, run, clock, user, issued, calls)
    decreases |run|
  {
    hide Do, Read, Write;
    if run != [] {
      var now, a := run[0].at, run[0].action;
      var w' := Do(w, now, a);
      TurnKeepsWorld(w, clock, now, a);
      TurnChangesCodes(w, clock, now, a, user);
      TurnKeepsReads(w, clock, now, a, user, issued, calls);
      if AllIn(CodesOf(w'.db, user), issued) {
        AmongExactlyWithoutOlder(w', run[1..], now, user, issued, calls);
      } else {
        assert StoresOther(w, a, user, issued, calls);
      }
    }
  }

  /**
   * After an enrolment has issued its codes, over every interleaving until the next one, a
   * disabling included: at every moment the stored codes are among the issued ones, exactly
   * unless a verification that had read before the enrolment stores a list with another code.
   */
  lemma StoredCodesAreIssuedExactlyUnlessOlderStore(
      w: World, now: int, c: nat, user: UserId, run: seq<Turn>, clock: int)
    requires WorldInv(w, clock) && clock <= now && Enabled(w, Resume(c)) && Enrols(w, Resume(c), user)
    requires Runs(Do(w, now, Resume(c)), run, now) && NeverEnrols(Do(w, now, Resume(c)), run, now, user)
    ensures var w', issued := Do(w, now, Resume(c)), Hashes(w.calls[c].codes);
      && CodesOf(w'.db, user) == issued
      && (AmongThroughout(w', run, now, user, issued) <==>
            !SomeStoresOther(w', run, now, user, issued, Verifying(w, user)))
  {
    TurnKeepsWorld(w, clock, now, Resume(c));
    TurnChangesCodes(w, clock, now, Resume(c), user);
    var w', issued := Do(w, now, Resume(c)), Hashes(w.calls[c].codes);
    assert Verifying(w', user) <= Verifying(w, user);
    AmongExactlyWithoutOlder(w', run, now, user, issued, Verifying(w, user));
  }

  /**
   * The input: a verification has read, two-factor login is switched off and on again, the
   * verification stores. An old code works again, and the new ones are dead.
   */
  lemma OldCodesReturnAfterEnrolment(db: Db, now: int, user: UserId, code: string, password: string, secret: string,
      codes: seq<string>)
    requires VerifyTwoFactor(db, now, Some(user), code, true, false).out.SessionIssued?
    requires db.users[user].password == password
    ensures var begun := Do(World(db, map[]), now, Begin(0, VerifyEvent(Some(user), code, true, false)));
      var off := DisableTwoFactor(begun.db, user, password).db;
      var on := SwitchOn(StoreSecret(off, user, secret), user, codes);
      var stored := Do(World(on, begun.calls), now, Resume(0)).db;
      && CodesOf(on, user) == Hashes(codes)
      && stored.users[user].twoFactorEnabled
      && CodesOf(stored, user) == Without(db.users[user].recoveryHashes, HashCode(code))
  {
  }
}
