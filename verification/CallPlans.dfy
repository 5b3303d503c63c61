/**
 * The authentication calls as the database operations they are: a call reads and decides, and
 * writes later, in up to two operations.
 */
module CallPlans {
  import opened Prelude
  import opened RecoveryCodes
  import opened Sessions

  /** What a call that has read still has to write. */
  datatype Plan =
    | Answer(out: Outcome)                                        // nothing
    | Start(user: UserId, spent: Option<Digest>)                  // the first row of a new family
    | Spend(user: UserId, read: seq<Digest>, spending: Digest)    // the codes left of the list read, then Start
    | Mark(jti: nat, row: Row)                                    // the presented row as used, then Succeed
    | Succeed(jti: nat, user: UserId, family: nat)                // the successor of that row
    | BanAll(family: nat)
    | Reset(token: nat, user: UserId, password: string)
    | Change(user: UserId, password: string)
    | Store(user: UserId, secret: string)
    | Enable(user: UserId, codes: seq<string>)
    | Disable(user: UserId)

  /** Calls that read inside the transaction that writes, or only write. */
  predicate IsWhole(e: Event) {
    e.LogoutEvent? || e.ForgotEvent? || e.ChangeOwnPasswordEvent? || e.UpdateUserEvent?
  }

  /** The reading of a call: it settles what the call would do if nothing changed before it writes. */
  function Read(db: Db, now: int, e: Event): Plan {
    var out := Step(db, now, e).out;
    match e
    case LoginEvent(user, _) => if out.SessionIssued? then Start(user, None) else Answer(out)
    case VerifyEvent(_, _, _, _) =>
      if !out.SessionIssued? then Answer(out)
      else if out.spent.Some? then Spend(out.user, db.users[out.user].recoveryHashes, out.spent.value)
      else Start(out.user, None)
    case RefreshEvent(cookie) => ReadRefresh(db, now, cookie)
    case ResetEvent(token, password) => if out.Done? then Reset(token, db.resets[token].user, password) else Answer(out)
    case ChangePasswordEvent(user, _, password) => if out.Done? then Change(user, password) else Answer(out)
    case SetupEvent(user, secret) => if out.Done? then Store(user, secret) else Answer(out)
    case EnableEvent(user, _, _, _, codes) => if out.CodesIssued? then Enable(user, codes) else Answer(out)
    case DisableEvent(user, _) => if out.Done? && db.users[user].twoFactorEnabled then Disable(user) else Answer(out)
    case _ => Answer(out)
  }

  function ReadRefresh(db: Db, now: int, cookie: Cookie): Plan {
    match Decide(db, now, cookie)
    case Deny(error) => Answer(Rejected(error))
    case Tolerate(user) => Answer(Refreshed(user, REPLAY_PLACEHOLDER))
    case Ban(family) => BanAll(family)
    case Rotate(jti, row) => Mark(jti, row)
  }

  datatype Written = Written(db: Db, plan: Plan)

  /** The next writing of a call, on whatever the tables hold by then. */
  function Write(db: Db, now: int, plan: Plan): Written {
    var missing := Written(db, Answer(Rejected(NotFound)));
    match plan
    case Answer(_) => Written(db, plan)
    case Start(user, spent) => var effect := IssueSession(db, now, user, spent); Written(effect.db, Answer(effect.out))
    case Spend(user, read, spending) =>
      if user !in db.users then missing
      else Written(StoreCodes(db, user, Without(read, spending)), Start(user, Some(spending)))
    case Mark(jti, row) =>
      if jti in db.rows then Written(MarkUsed(db, now, jti), Succeed(jti, row.user, row.family)) else missing
    case Succeed(_, user, family) =>
      var effect := CreateSuccessor(db, now, user, family);
      Written(effect.db, Answer(effect.out))
    case BanAll(family) => Written(db.(rows := BanFamily(db.rows, family, now)), Answer(Rejected(Unauthorized)))
    case Reset(token, user, password) =>
      if token !in db.resets || user !in db.users then missing
      else Written(SpendReset(db, now, token, user, password), Answer(Done))
    case Change(user, password) =>
      if user in db.users then Written(SetPassword(db, now, user, password), Answer(Done)) else missing
    case Store(user, secret) =>
      if user in db.users then Written(StoreSecret(db, user, secret), Answer(Done)) else missing
    case Enable(user, codes) =>
      if user in db.users then Written(SwitchOn(db, user, codes), Answer(CodesIssued(codes))) else missing
    case Disable(user) => if user in db.users then Written(SwitchOff(db, user), Answer(Done)) else missing
  }

  /** A call whose reading and writings follow each other without interruption is the atomic call. */
  lemma UninterruptedIsAtomic(db: Db, now: int, e: Event)
    requires !IsWhole(e)
    ensures var first := Write(db, now, Read(db, now, e));
      var second := Write(first.db, now, first.plan);
      second.plan == Answer(Step(db, now, e).out) && second.db == Step(db, now, e).db
  {
  }
}
