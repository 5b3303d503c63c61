/** Recovery codes over whole runs of the authentication calls. */
module EnrolmentProofs {
  import opened Prelude
  import opened RecoveryCodes
  import opened Sessions

  function CodesOf(db: Db, user: UserId): seq<Digest> {
    if user in db.users then db.users[user].recoveryHashes else []
  }

  /** The call switches two-factor login on for the user, issuing new codes. */
  predicate Enrols(db: Db, now: int, e: Event, user: UserId) {
    e.EnableEvent? && e.user == user && Step(db, now, e).out.CodesIssued?
  }

  predicate NoEnrolment(db: Db, run: seq<Timed>, user: UserId)
    decreases |run|
  {
    run == [] || (!Enrols(db, run[0].at, run[0].event, user)
                  && NoEnrolment(Step(db, run[0].at, run[0].event).db, run[1..], user))
  }

  /** The digest of the recovery code by which a call started a session of the user, if it did. */
  function SpentBy(out: Outcome, user: UserId): seq<Digest> {
    if out.SessionIssued? && out.user == user && out.spent.Some? then [out.spent.value] else []
  }

  /** The recovery codes accepted for the user over a run, in order. */
  function Accepted(db: Db, run: seq<Timed>, user: UserId): seq<Digest>
    decreases |run|
  {
    if run == [] then []
    else
      var effect := Step(db, run[0].at, run[0].event);
      SpentBy(effect.out, user) + Accepted(effect.db, run[1..], user)
  }

  lemma StepSpends(db: Db, now: int, e: Event, user: UserId)
    requires !Enrols(db, now, e, user)
    ensures var before, after, spent :=
      CodesOf(db, user), CodesOf(Step(db, now, e).db, user), SpentBy(Step(db, now, e).out, user);
      && |spent| + |after| <= |before|
      && (forall d :: d in after ==> d in before)
      && (forall d :: d in spent ==> d in before && d !in after)
  {
  }

  /**
   * From any point until the next enrolment, no recovery code is accepted twice, an accepted
   * code is gone for good, and accepted and remaining codes together never exceed the number
   * there was.
   */
  lemma {:induction false} CodesAreSpentOnce(db: Db, run: seq<Timed>, user: UserId)
    requires NoEnrolment(db, run, user)
    ensures var before, after, spent := CodesOf(db, user), CodesOf(Exec(db, run), user), Accepted(db, run, user);
      && |spent| + |after| <= |before|
      && (forall d :: d in after ==> d in before)
      && (forall d :: d in spent ==> d in before && d !in after)
      && (forall i, j :: 0 <= i < j < |spent| ==> spent[i] != spent[j])
    decreases |run|
  {
    if run != [] {
      var effect := Step(db, run[0].at, run[0].event);
      StepSpends(db, run[0].at, run[0].event, user);
      CodesAreSpentOnce(effect.db, run[1..], user);
      var first, rest := SpentBy(effect.out, user), Accepted(effect.db, run[1..], user);
      assert Accepted(db, run, user) == first + rest;
      forall d | d in first + rest ensures d in CodesOf(db, user) && d !in CodesOf(Exec(db, run), user) {
        assert d in first || d in rest;
      }
    }
  }

  /** The same counted from an enrolment: what is accepted is one of the codes it printed. */
  lemma EnrolmentIssuesEachCodeOnce(db: Db, now: int, e: Event, run: seq<Timed>, user: UserId)
    requires Enrols(db, now, e, user)
    requires NoEnrolment(Step(db, now, e).db, run, user)
    ensures var db' := Step(db, now, e).db;
      && |Accepted(db', run, user)| + |CodesOf(Exec(db', run), user)| <= |e.codes|
      && forall d :: d in Accepted(db', run, user) ==> exists c :: c in e.codes && HashCode(c) == d
  {
    var db' := Step(db, now, e).db;
    CodesAreSpentOnce(db', run, user);
    forall d | d in Accepted(db', run, user) ensures exists c :: c in e.codes && HashCode(c) == d {
      assert d in Hashes(e.codes);
      var i :| 0 <= i < |e.codes| && Hashes(e.codes)[i] == d;
      assert e.codes[i] in e.codes;
    }
  }
}
