/**
 * Customers and their generated codes (backend/src/modules/crm/customers/services.ts). The
 * same generator is copied, with other prefixes, for leads, opportunities, contracts,
 * departments and designations.
 */
module CustomerCodes {
  import opened Prelude
  import opened Decimal

  const PREFIX := "CUST-"

  datatype Customer = Customer(code: string, email: Option<string>)

  predicate HasPrefix(code: string) { PREFIX <= code }

  /** The first row in descending string order among the prefixed codes. */
  function Last(codes: seq<string>): Option<string> {
    if codes == [] then None
    else
      var best, c := Last(codes[..|codes| - 1]), codes[|codes| - 1];
      if HasPrefix(c) && (best.None? || Less(best.value, c)) then Some(c) else best
  }

  /** Replaces the first occurrence, here the leading one; NaN and 0 both count as 0. */
  function NumberOf(code: string): int
    requires HasPrefix(code)
  {
    var n := ParseInt(code[|PREFIX|..]);
    if n.Some? then n.value else 0
  }

  function Generate(codes: seq<string>): string {
    if Last(codes).None? || !HasPrefix(Last(codes).value) then "CUST-0001"
    else PREFIX + PadStart(PrintInt(NumberOf(Last(codes).value) + 1), 4)
  }

  /** The code printed for a number. */
  function Code(n: nat): string { PREFIX + Padded(n, 4) }

  function CodesOf(rows: seq<Customer>): (codes: seq<string>)
    ensures |codes| == |rows| && forall i :: 0 <= i < |rows| ==> codes[i] == rows[i].code
  {
    if rows == [] then [] else CodesOf(rows[..|rows| - 1]) + [rows[|rows| - 1].code]
  }

  predicate HasEmail(rows: seq<Customer>, email: Option<string>) {
    email.Some? && exists i :: 0 <= i < |rows| && rows[i].email == email
  }

  datatype Reply = Reply(rows: seq<Customer>, result: Result<string>)

  /** The transaction of a creation, with the code that was generated before it. */
  function Insert(rows: seq<Customer>, email: Option<string>, code: string): Reply {
    if HasEmail(rows, email) then Reply(rows, Err(Conflict))
    else if code in CodesOf(rows) then Reply(rows, Err(UniqueViolation))
    else Reply(rows + [Customer(code, email)], Ok(code))
  }

  function Create(rows: seq<Customer>, email: Option<string>): Reply {
    Insert(rows, email, Generate(CodesOf(rows)))
  }

  function Remove(rows: seq<Customer>, i: nat): Reply {
    if i >= |rows| then Reply(rows, Err(NotFound))
    else Reply(rows[..i] + rows[i + 1..], Ok(rows[i].code))
  }

  datatype Event = CreateEvent(email: Option<string>) | RemoveEvent(i: nat)

  function Step(rows: seq<Customer>, e: Event): Reply {
    match e
    case CreateEvent(email) => Create(rows, email)
    case RemoveEvent(i) => Remove(rows, i)
  }

  function Exec(rows: seq<Customer>, run: seq<Event>): seq<Customer>
    decreases |run|
  {
    if run == [] then rows else Exec(Step(rows, run[0]).rows, run[1..])
  }

  /** The service in its own form. */
  class CustomerService {
    var rows: seq<Customer>

    constructor ()
      ensures rows == []
    {
      rows := [];
    }

    method GenerateCustomerCode() returns (code: string)
      ensures code == Generate(CodesOf(rows))
    {
      var last := Last(CodesOf(rows));
      if last.None? {
        return "CUST-0001";
      }
      LastIsGreatest(CodesOf(rows));
      var numPart := last.value[|PREFIX|..];
      var parsed := ParseInt(numPart);
      var n := if parsed.Some? then parsed.value else 0;
      code := "CUST-" + PadStart(PrintInt(n + 1), 4);
    }

    method CreateCustomer(email: Option<string>) returns (result: Result<string>)
      modifies this
      ensures Reply(rows, result) == Create(old(rows), email)
    {
      var code := GenerateCustomerCode();
      if HasEmail(rows, email) {
        return Err(Conflict);
      }
      if code in CodesOf(rows) {
        return Err(UniqueViolation);
      }
      rows := rows + [Customer(code, email)];
      result := Ok(code);
    }

    method RemoveCustomer(i: nat) returns (result: Result<string>)
      modifies this
      ensures Reply(rows, result) == Remove(old(rows), i)
    {
      if i >= |rows| {
        return Err(NotFound);
      }
      result := Ok(rows[i].code);
      rows := rows[..i] + rows[i + 1..];
    }
  }

  lemma CodeIsStored(rows: seq<Customer>, code: string)
    ensures code in CodesOf(rows) <==> exists k :: 0 <= k < |rows| && rows[k].code == code
  {
    if k :| 0 <= k < |rows| && rows[k].code == code { assert CodesOf(rows)[k] == code; }
    if code in CodesOf(rows) {
      var k :| 0 <= k < |rows| && CodesOf(rows)[k] == code;
      assert rows[k].code == code;
    }
  }

  /**
   * A creation is a conflict exactly for an e-mail that some customer has; else it fails on a
   * stored code and otherwise adds one row with the generated one.
   */
  lemma CustomersAreStoredExactly(rows: seq<Customer>, email: Option<string>)
    ensures var reply, code := Create(rows, email), Generate(CodesOf(rows));
      var known := exists k :: 0 <= k < |rows| && email.Some? && rows[k].email == email;
      var taken := exists k :: 0 <= k < |rows| && rows[k].code == code;
      reply == if known then Reply(rows, Err(Conflict))
               else if taken then Reply(rows, Err(UniqueViolation))
               else Reply(rows + [Customer(code, email)], Ok(code))
  {
    hide Generate, CodesOf;
    CodeIsStored(rows, Generate(CodesOf(rows)));
  }

  /** A removal takes out the named row and no other. */
  lemma RemovalTakesOneRow(rows: seq<Customer>, i: nat)
    ensures var reply := Remove(rows, i);
      if i < |rows|
      then
        && reply.result == Ok(rows[i].code) && |reply.rows| == |rows| - 1
        && forall k :: 0 <= k < |reply.rows| ==> reply.rows[k] == rows[if k < i then k else k + 1]
      else reply == Reply(rows, Err(NotFound))
  {
  }

  /* ── The greatest code ──────────────────────────────────────────────── */

  lemma {:induction false} LastIsGreatest(codes: seq<string>)
    ensures Last(codes).None? <==> forall c :: c in codes ==> !HasPrefix(c)
    ensures Last(codes).Some? ==> Last(codes).value in codes && HasPrefix(Last(codes).value)
    ensures Last(codes).Some? ==> forall c :: c in codes && HasPrefix(c) ==> !Less(Last(codes).value, c)
    decreases |codes|
  {
    if codes != [] {
      var init, c := codes[..|codes| - 1], codes[|codes| - 1];
      assert codes == init + [c];
      LastIsGreatest(init);
      LessIsTotal(c, c);
      if Last(init).Some? && Last(codes) == Some(c) {
        forall d | d in init && HasPrefix(d) ensures !Less(c, d) {
          if Less(c, d) { LessIsTransitive(Last(init).value, c, d); }
        }
      }
    }
  }

  /* ── Codes that the generator itself printed ────────────────────────── */

  /** Every stored code is the code of a positive number. */
  ghost predicate Canonical(codes: seq<string>) {
    forall c :: c in codes ==> IsCode(c)
  }

  ghost predicate IsCode(c: string) { exists n: nat :: n >= 1 && c == Code(n) }

  lemma NumberOfCode(n: nat)
    ensures HasPrefix(Code(n)) && NumberOf(Code(n)) == n
  {
    ParsePadded(n, 4);
    assert Code(n)[|PREFIX|..] == Padded(n, 4);
  }

  lemma CodeIsInjective(n: nat, m: nat)
    requires Code(n) == Code(m)
    ensures n == m
  {
    NumberOfCode(n);
    NumberOfCode(m);
  }

  /** Codes with as many digits compare as their numbers. */
  lemma CodesOfOneLength(n: nat, m: nat)
    requires |Code(n)| == |Code(m)|
    ensures Less(Code(n), Code(m)) <==> n < m
  {
    LessAfterPrefix(PREFIX, Padded(n, 4), Padded(m, 4));
    LessIsNumeric(Padded(n, 4), Padded(m, 4));
    ParsePadded(n, 4);
    ParsePadded(m, 4);
  }

  lemma FourDigits(n: nat)
    ensures |Code(n)| == |PREFIX| + 4 <==> n < 10000
  {
    PrintLength(n, 4);
    assert Pow10(4) == 10 * Pow10(3) == 100 * Pow10(2) == 1000 * Pow10(1) == 10000 * Pow10(0);
  }

  /** On a non-empty canonical store the generator prints the successor of the greatest code's number. */
  lemma GenerateIsSuccessor(codes: seq<string>) returns (top: nat)
    requires Canonical(codes) && codes != []
    ensures top >= 1 && Code(top) in codes && Last(codes) == Some(Code(top)) && Generate(codes) == Code(top + 1)
    ensures forall n :: n >= 1 && Code(n) in codes ==> !Less(Code(top), Code(n))
  {
    LastIsGreatest(codes);
    assert IsCode(codes[0]) by { assert codes[0] in codes; }
    var first: nat :| first >= 1 && codes[0] == Code(first);
    NumberOfCode(first);
    assert codes[0] in codes && HasPrefix(codes[0]);
    assert IsCode(Last(codes).value);
    top :| top >= 1 && Last(codes).value == Code(top);
    NumberOfCode(top);
    forall n: nat | n >= 1 && Code(n) in codes ensures !Less(Code(top), Code(n)) {
      NumberOfCode(n);
    }
  }

  lemma FirstCode()
    ensures Code(1) == "CUST-0001"
  {
    assert Print(1) == "1";
    assert "0" + "1" == "01" && "0" + "01" == "001" && "0" + "001" == "0001";
    assert PadStart("001", 4) == "0001";
    assert PadStart("01", 4) == "0001";
  }

  /** The number of a stored code, with what the greatest code says about it. */
  lemma StoredNumber(codes: seq<string>, top: nat, c: string) returns (n: nat)
    requires Canonical(codes) && c in codes && |c| == |Code(top)|
    requires forall n :: n >= 1 && Code(n) in codes ==> !Less(Code(top), Code(n))
    ensures 1 <= n <= top && c == Code(n) && HasPrefix(c) && NumberOf(c) == n
  {
    assert IsCode(c);
    n :| n >= 1 && c == Code(n);
    NumberOfCode(n);
    CodesOfOneLength(top, n);
  }

  /**
   * While every stored code has four digits, the generated code is new and its number is
   * greater than every stored one.
   */
  lemma GeneratedIsNewBelowTenThousand(codes: seq<string>)
    requires Canonical(codes) && forall c :: c in codes ==> |c| == |PREFIX| + 4
    ensures Generate(codes) !in codes && HasPrefix(Generate(codes))
    ensures forall c :: c in codes ==> HasPrefix(c) && NumberOf(c) < NumberOf(Generate(codes))
  {
    if codes == [] {
      FirstCode();
      NumberOfCode(1);
    } else {
      var top := GenerateIsSuccessor(codes);
      NumberOfCode(top + 1);
      forall c | c in codes ensures c != Code(top + 1) && HasPrefix(c) && NumberOf(c) < top + 1 {
        var n := StoredNumber(codes, top, c);
      }
    }
  }

  /** `nines` is 9999: a name, because the verifier would unfold the printing of a literal. */
  lemma GeneratedBeatsStored(codes: seq<string>, top: nat, c: string, nines: nat)
    requires Canonical(codes) && c in codes && |c| == |Code(top)| == |PREFIX| + 4 && nines == 9999
    requires forall n :: n >= 1 && Code(n) in codes ==> !Less(Code(top), Code(n))
    requires top != nines
    ensures Less(c, Code(top + 1)) && c != Code(nines)
  {
    var n := StoredNumber(codes, top, c);
    FourDigits(top);
    FourDigits(top + 1);
    CodesOfOneLength(n, top + 1);
    if c == Code(nines) { CodeIsInjective(n, nines); }
  }

  /** It is also the greatest string, unless 9999 is stored. */
  lemma GeneratedIsGreatestBelowNines(codes: seq<string>, nines: nat)
    requires Canonical(codes) && (forall c :: c in codes ==> |c| == |PREFIX| + 4) && nines == 9999
    ensures (forall c :: c in codes ==> Less(c, Generate(codes))) <==> Code(nines) !in codes
  {
    if codes != [] {
      var top := GenerateIsSuccessor(codes);
      var next := Code(top + 1);
      assert Generate(codes) == next;
      if top == nines {
        var at := Code(nines);
        assert Less(next, at) by { NinesBeatTenThousand(nines); }
        assert !Less(at, next) by { LessIsTotal(at, next); }
        assert at in codes && !Less(at, Generate(codes));
      } else {
        forall c | c in codes ensures Less(c, Generate(codes)) && c != Code(nines) {
          GeneratedBeatsStored(codes, top, c, nines);
        }
      }
    }
  }

  lemma PrintTenThousand()
    ensures Print(10000) == "10000"
  {
  }

  lemma PrintNines()
    ensures Print(9999) == "9999"
  {
  }

  /** String order and numeric order part ways at ten thousand. */
  lemma NinesBeatTenThousand(nines: nat)
    requires nines == 9999
    ensures Less(Code(nines + 1), Code(nines))
  {
    PrintTenThousand();
    PrintNines();
    var long, short := "10000", "9999";
    assert Less(long, short);
    LessAfterPrefix(PREFIX, long, short);
  }

  /** The printed number is all nines, so its successor needs one digit more. */
  predicate RollsOver(top: nat) { AllNines(Padded(top, 4)) }

  /**
   * On every store the generator can have filled, whatever was removed in between, the
   * generated code is already taken exactly when the greatest code is all nines and its
   * successor is stored.
   */
  lemma GeneratedIsTakenExactlyAtRollover(codes: seq<string>) returns (top: nat)
    requires Canonical(codes) && codes != []
    ensures Last(codes) == Some(Code(top)) && NumberOf(Code(top)) == top
    ensures Generate(codes) in codes <==> RollsOver(top) && Code(top + 1) in codes
  {
    top := GenerateIsSuccessor(codes);
    NumberOfCode(top);
    GrowsExactlyAfterNines(top, 4);
    if !RollsOver(top) { CodesOfOneLength(top, top + 1); }
  }

  /* ── Runs ───────────────────────────────────────────────────────────── */

  /** Over every run of creations and removals the stored codes stay canonical and distinct. */
  ghost predicate Inv(rows: seq<Customer>) {
    Canonical(CodesOf(rows)) && forall i, j :: 0 <= i < j < |rows| ==> rows[i].code != rows[j].code
  }

  lemma GeneratedIsCode(codes: seq<string>)
    requires Canonical(codes)
    ensures IsCode(Generate(codes))
  {
    if codes == [] {
      FirstCode();
    } else {
      var top := GenerateIsSuccessor(codes);
    }
  }

  lemma CreateKeepsInv(rows: seq<Customer>, email: Option<string>)
    requires Inv(rows)
    ensures Inv(Create(rows, email).rows)
  {
    var codes, code := CodesOf(rows), Generate(CodesOf(rows));
    GeneratedIsCode(codes);
    assert CodesOf(rows + [Customer(code, email)]) == codes + [code];
    forall i | 0 <= i < |rows| ensures rows[i].code in codes {
      assert codes[i] in codes;
    }
  }

  lemma RemoveKeepsInv(rows: seq<Customer>, i: nat)
    requires Inv(rows)
    ensures Inv(Remove(rows, i).rows)
  {
  }

  lemma {:induction false} RunKeepsInv(rows: seq<Customer>, run: seq<Event>)
    requires Inv(rows)
    ensures Inv(Exec(rows, run))
    decreases |run|
  {
    if run != [] {
      match run[0] {
        case CreateEvent(email) => CreateKeepsInv(rows, email);
        case RemoveEvent(i) => RemoveKeepsInv(rows, i);
      }
      RunKeepsInv(Step(rows, run[0]).rows, run[1..]);
    }
  }

  /**
   * After any run of atomic creations and removals, creating a customer without e-mail fails
   * exactly at the rollover.
   */
  lemma CreationFailsExactlyAtRollover(run: seq<Event>) returns (top: nat)
    requires Exec([], run) != []
    ensures var codes := CodesOf(Exec([], run));
      && Last(codes) == Some(Code(top))
      && (Create(Exec([], run), None).result == Err(UniqueViolation) <==> RollsOver(top) && Code(top + 1) in codes)
  {
    RunKeepsInv([], run);
    top := GeneratedIsTakenExactlyAtRollover(CodesOf(Exec([], run)));
  }

  predicate OnlyCreations(run: seq<Event>) {
    forall i :: 0 <= i < |run| ==> run[i].CreateEvent?
  }

  lemma {:induction false} CreationsAppend(rows: seq<Customer>, run: seq<Event>)
    requires OnlyCreations(run)
    ensures rows <= Exec(rows, run)
    decreases |run|
  {
    if run != [] { CreationsAppend(Step(rows, run[0]).rows, run[1..]); }
  }

  lemma {:induction false} FirstCreationTakesCode(rows: seq<Customer>, run: seq<Event>)
    requires OnlyCreations(run)
    ensures Exec(rows, run) != rows ==>
      |Exec(rows, run)| > |rows| && Exec(rows, run)[|rows|].code == Generate(CodesOf(rows))
    decreases |run|
  {
    if run != [] {
      var rows' := Step(rows, run[0]).rows;
      if rows' == rows {
        FirstCreationTakesCode(rows, run[1..]);
      } else {
        CreationsAppend(rows', run[1..]);
      }
    }
  }

  lemma CodesOfPrefix(rows: seq<Customer>, more: seq<Customer>, code: string)
    requires rows <= more && code in CodesOf(rows)
    ensures code in CodesOf(more)
  {
    var i :| 0 <= i < |rows| && CodesOf(rows)[i] == code;
    assert CodesOf(more)[i] == code;
  }

  /**
   * A creation whose code was generated before other creations and stored after them fails on
   * the unique code exactly if one of them succeeded, or it was generated at the rollover.
   */
  lemma LateCreationFailsExactlyIfOneSucceededSince(rows: seq<Customer>, run: seq<Event>, email: Option<string>)
    requires OnlyCreations(run) && !HasEmail(Exec(rows, run), email)
    ensures var code := Generate(CodesOf(rows));
      Insert(Exec(rows, run), email, code).result == Err(UniqueViolation) <==>
        (Exec(rows, run) != rows || code in CodesOf(rows))
  {
    var code := Generate(CodesOf(rows));
    CreationsAppend(rows, run);
    FirstCreationTakesCode(rows, run);
    if code in CodesOf(rows) { CodesOfPrefix(rows, Exec(rows, run), code); }
    if Exec(rows, run) != rows { assert CodesOf(Exec(rows, run))[|rows|] == code; }
  }

  /** `k` creations, each with no e-mail. */
  function Creations(k: nat): seq<Event> {
    if k == 0 then [] else Creations(k - 1) + [CreateEvent(None)]
  }

  lemma {:induction false} ExecAppend(rows: seq<Customer>, run: seq<Event>, e: Event)
    ensures Exec(rows, run + [e]) == Step(Exec(rows, run), e).rows
    decreases |run|
  {
    if run == [] {
      assert [e][1..] == [];
    } else {
      assert (run + [e])[1..] == run[1..] + [e];
      ExecAppend(Step(rows, run[0]).rows, run[1..], e);
    }
  }

  /** The store holds exactly the codes 1..k, in order. */
  ghost predicate HoldsFirst(rows: seq<Customer>, k: nat) {
    |rows| == k && forall i :: 0 <= i < k ==> rows[i] == Customer(Code(i + 1), None)
  }

  /** Of the codes 1..k no string exceeds that of k, or of 9999 once k is 10000. */
  lemma GreatestOfFirst(k: nat, nines: nat, top: nat)
    requires 1 <= top <= k <= nines + 1 && nines == 9999
    requires !Less(Code(top), Code(if k <= nines then k else nines))
    ensures top == if k <= nines then k else nines
  {
    if top == nines + 1 {
      NinesBeatTenThousand(nines);
    } else {
      var last := if k <= nines then k else nines;
      FourDigits(top);
      FourDigits(last);
      CodesOfOneLength(top, last);
    }
  }

  lemma TopOfFirst(rows: seq<Customer>, k: nat, nines: nat)
    requires HoldsFirst(rows, k) && 1 <= k <= nines + 1 && nines == 9999
    ensures Generate(CodesOf(rows)) == Code(if k <= nines then k + 1 else nines + 1)
  {
    var codes := CodesOf(rows);
    forall c | c in codes ensures IsCode(c) {}
    var top := GenerateIsSuccessor(codes);
    var at :| 0 <= at < k && codes[at] == Code(top);
    CodeIsInjective(top, at + 1);
    var last := if k <= nines then k else nines;
    assert codes[last - 1] in codes;
    GreatestOfFirst(k, nines, top);
  }

  /** What the generator prints on the codes 1..k is new, or at 10000 the code of 10000 again. */
  lemma NextOfFirst(rows: seq<Customer>, k: nat, nines: nat)
    requires HoldsFirst(rows, k) && k <= nines + 1 && nines == 9999
    ensures var next := Code(if k <= nines then k + 1 else nines + 1);
      Generate(CodesOf(rows)) == next && (next in CodesOf(rows) <==> k > nines)
  {
    hide Generate, Code;
    var codes := CodesOf(rows);
    if k == 0 {
      EmptyGenerates();
    } else {
      TopOfFirst(rows, k, nines);
      forall i | 0 <= i < k && k <= nines ensures codes[i] != Code(k + 1) {
        if codes[i] == Code(k + 1) { CodeIsInjective(i + 1, k + 1); }
      }
      assert k > nines ==> codes[nines] == Code(nines + 1);
    }
  }

  lemma EmptyGenerates()
    ensures Generate([]) == Code(1)
  {
    FirstCode();
  }

  lemma OneMoreCreation(rows: seq<Customer>, k: nat, nines: nat)
    requires HoldsFirst(rows, k) && k <= nines + 1 && nines == 9999
    ensures HoldsFirst(Create(rows, None).rows, if k <= nines then k + 1 else nines + 1)
  {
    hide Generate, Code;
    NextOfFirst(rows, k, nines);
  }

  /** Creating from an empty store works ten thousand times and never again. */
  lemma {:induction false} TenThousandCustomers(k: nat)
    ensures HoldsFirst(Exec([], Creations(k)), if k <= 10000 then k else 10000)
  {
    if k > 0 {
      TenThousandCustomers(k - 1);
      ExecAppend([], Creations(k - 1), CreateEvent(None));
      OneMoreCreation(Exec([], Creations(k - 1)), if k - 1 <= 10000 then k - 1 else 10000, 9999);
    }
  }
}
