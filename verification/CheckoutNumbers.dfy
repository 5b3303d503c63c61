/**
 * The numbers of payments taken at checkout, and exactly when a checkout succeeds
 * (backend/src/modules/sales/orders/services.ts).
 */
module CheckoutNumbers {
  import opened Prelude
  import opened Decimal
  import opened Payments

  predicate IsStored(payments: seq<Payment>, number: string) {
    exists i :: 0 <= i < |payments| && payments[i].number == number
  }

  /**
   * A checkout is refused for a negative amount; else it goes through exactly with no payment,
   * or with one whose number is not taken, and otherwise fails on the unique number.
   */
  lemma CheckoutSucceedsExactly(t: Tables, total: int, amounts: seq<int>)
    requires NumbersDiffer(t.payments)
    ensures var result := Checkout(t, total, amounts).result;
      && (result == Err(Unprocessable) <==> AnyNegative(amounts))
      && (result.Ok? <==> !AnyNegative(amounts)
                          && |amounts| <= 1 && (amounts == [] || !IsStored(t.payments, CheckoutNumber(t.payments))))
      && (result.Err? && !AnyNegative(amounts) ==> result == Err(UniqueViolation))
  {
    var number := CheckoutNumber(t.payments);
    var all := t.payments + Taken(number, t.next, amounts);
    if |amounts| >= 2 {
      SplitPaymentNeverSucceeds(t, total, amounts);
    } else if |amounts| == 1 && IsStored(t.payments, number) {
      var i :| 0 <= i < |t.payments| && t.payments[i].number == number;
      assert all[i].number == all[|t.payments|].number;
    }
  }

  /* ── The numbers there are ──────────────────────────────────────────── */

  /** The number checkout prints for `n`. */
  function CodeFor(n: nat): string { "PAY-" + Padded(n, 4) }

  ghost predicate IsCheckoutCode(number: string) {
    exists n: nat :: n >= 1 && number == CodeFor(n)
  }

  ghost predicate IsRecorded(number: string) {
    exists month: Month, k: nat :: month.Valid() && number == NumberFor(month, k)
  }

  ghost predicate Known(payments: seq<Payment>) {
    forall i :: 0 <= i < |payments| ==> IsCheckoutCode(payments[i].number) || IsRecorded(payments[i].number)
  }

  lemma {:induction false} LastIsGreatest(payments: seq<Payment>)
    requires payments != []
    ensures LastNumber(payments).Some? && IsStored(payments, LastNumber(payments).value)
    ensures forall i :: 0 <= i < |payments| ==> !Less(LastNumber(payments).value, payments[i].number)
    decreases |payments|
  {
    var init, n := payments[..|payments| - 1], payments[|payments| - 1].number;
    LessIsTotal(n, n);
    if init != [] {
      LastIsGreatest(init);
      var best := LastNumber(init).value;
      var at :| 0 <= at < |init| && init[at].number == best;
      assert payments[at].number == best;
      forall i | 0 <= i < |payments| ensures !Less(LastNumber(payments).value, payments[i].number) {
        if i < |init| && Less(best, n) && Less(n, init[i].number) { LessIsTransitive(best, n, init[i].number); }
      }
    }
  }

  /* ── What the generator makes of each ───────────────────────────────── */

  lemma SuccessorOfCode(payments: seq<Payment>, n: nat)
    requires LastNumber(payments) == Some(CodeFor(n))
    ensures CheckoutNumber(payments) == CodeFor(n + 1)
  {
    ParsePadded(n, 4);
    assert CodeFor(n)[4..] == Padded(n, 4);
  }

  /** Year and month as one numeral. */
  function MonthValue(month: Month): nat
    requires month.Valid()
  {
    100 * month.year + month.month
  }

  lemma MonthDigits(month: Month) returns (digits: string)
    requires month.Valid()
    ensures digits == Padded(month.year, 1) + Padded(month.month, 2) && Prefix(month) == "PAY-" + digits
    ensures |digits| == 6 && AllDigits(digits) && Value(digits) == MonthValue(month)
  {
    digits := Padded(month.year, 1) + Padded(month.month, 2);
    PrefixLength(month);
    assert Prefix(month) == "PAY-" + digits;
    ParsePadded(month.year, 1);
    ParsePadded(month.month, 2);
    MonthTwoDigits(month);
    var m := Padded(month.month, 2);
    assert |m| == 2;
    assert digits[..5] == Padded(month.year, 1) + m[..1] && digits[..5][..4] == Padded(month.year, 1);
    assert m[..1][..0] == "";
    assert Value(m) == 10 * Value(m[..1]) + DigitValue(m[1]);
    assert Value(m[..1]) == DigitValue(m[0]);
    assert Value(digits) == 10 * Value(digits[..5]) + DigitValue(m[1]);
    assert Value(digits[..5]) == 10 * Value(Padded(month.year, 1)) + DigitValue(m[0]);
  }

  lemma MonthTwoDigits(month: Month)
    requires month.Valid()
    ensures |Padded(month.month, 2)| == 2
  {
    PrintLength(month.month, 2);
    assert Pow10(2) == 10 * Pow10(1) == 100 * Pow10(0);
  }

  /** A recorded number is parsed up to its dash. */
  lemma SuccessorOfRecorded(payments: seq<Payment>, month: Month, k: nat)
    requires month.Valid() && LastNumber(payments) == Some(NumberFor(month, k))
    ensures CheckoutNumber(payments) == CodeFor(MonthValue(month) + 1)
  {
    hide ParseInt;
    var digits := MonthDigits(month);
    AfterPrefix("PAY-", digits, "-", Padded(k, 5));
    DigitsUpToDash(digits, "-" + Padded(k, 5));
  }

  lemma AfterPrefix(prefix: string, a: string, b: string, c: string)
    ensures prefix <= prefix + a + b + c && (prefix + a + b + c)[|prefix|..] == a + (b + c)
  {
  }

  lemma DigitsUpToDash(digits: string, rest: string)
    requires digits != "" && AllDigits(digits) && rest != "" && !IsDigit(rest[0])
    ensures ParseInt(digits + rest) == Some(Value(digits))
  {
    hide LeadingDigits, Value;
    LeadingDigitsStop(digits, rest);
    assert IsDigit((digits + rest)[0]);
    assert (digits + rest)[..|digits|] == digits;
  }

  lemma {:induction false} LeadingDigitsStop(digits: string, rest: string)
    requires AllDigits(digits) && rest != "" && !IsDigit(rest[0])
    ensures LeadingDigits(digits + rest) == |digits|
  {
    if digits == "" {
      assert digits + rest == rest;
    } else {
      assert (digits + rest)[1..] == digits[1..] + rest;
      LeadingDigitsStop(digits[1..], rest);
    }
  }

  /* ── When it is taken ───────────────────────────────────────────────── */

  /** The greatest number is the checkout number of `n`, all nines, and its successor is stored. */
  predicate IsStuckAt(payments: seq<Payment>, n: nat) {
    n >= 1 && AllNines(Padded(n, 4)) && LastNumber(payments) == Some(CodeFor(n)) && IsStored(payments, CodeFor(n + 1))
  }

  ghost predicate AtRollover(payments: seq<Payment>) {
    exists n: nat :: IsStuckAt(payments, n)
  }

  /** Below the rollover the successor of a checkout number is the greater string. */
  lemma SuccessorIsGreater(n: nat)
    requires !AllNines(Padded(n, 4))
    ensures Less(CodeFor(n), CodeFor(n + 1))
  {
    GrowsExactlyAfterNines(n, 4);
    LessAfterPrefix("PAY-", Padded(n, 4), Padded(n + 1, 4));
    LessIsNumeric(Padded(n, 4), Padded(n + 1, 4));
    ParsePadded(n, 4);
    ParsePadded(n + 1, 4);
  }

  /** A month is at most 12, so the successor of a recorded number keeps its six digits and is greater. */
  lemma SuccessorOfMonthIsGreater(month: Month, k: nat)
    requires month.Valid()
    ensures Less(NumberFor(month, k), CodeFor(MonthValue(month) + 1))
  {
    var digits := MonthDigits(month);
    var next := MonthValue(month) + 1;
    PrintLength(next, 6);
    PrintLength(next, 5);
    assert Pow10(5) == 100000 && Pow10(6) == 1000000 by {
      assert Pow10(2) == 10 * Pow10(1) == 100 * Pow10(0);
      assert Pow10(5) == 10 * Pow10(4) == 100 * Pow10(3) == 1000 * Pow10(2);
    }
    ParsePadded(next, 4);
    LessIsNumeric(digits, Padded(next, 4));
    LessExtends(digits, Padded(next, 4), "-" + Padded(k, 5), "");
    LessAfterPrefix("PAY-", digits + ("-" + Padded(k, 5)), Padded(next, 4));
    assert NumberFor(month, k) == "PAY-" + (digits + ("-" + Padded(k, 5)));
    assert Padded(next, 4) + "" == Padded(next, 4);
  }

  lemma GreaterIsNotStored(payments: seq<Payment>, number: string)
    requires payments != [] && Less(LastNumber(payments).value, number)
    ensures !IsStored(payments, number)
  {
    LastIsGreatest(payments);
  }

  lemma TakenAfterCode(payments: seq<Payment>, n: nat)
    requires payments != [] && n >= 1 && LastNumber(payments) == Some(CodeFor(n))
    ensures IsStored(payments, CheckoutNumber(payments)) <==> AtRollover(payments)
  {
    hide CodeFor, CheckoutNumber, AllNines, LastNumber, Padded;
    SuccessorOfCode(payments, n);
    if AllNines(Padded(n, 4)) {
      assert IsStored(payments, CodeFor(n + 1)) ==> IsStuckAt(payments, n);
    } else {
      SuccessorIsGreater(n);
      GreaterIsNotStored(payments, CodeFor(n + 1));
    }
    if m: nat :| IsStuckAt(payments, m) { CodeDetermines(m, n); }
  }

  lemma NotTakenAfterRecorded(payments: seq<Payment>, month: Month, k: nat)
    requires payments != [] && month.Valid() && LastNumber(payments) == Some(NumberFor(month, k))
    ensures !IsStored(payments, CheckoutNumber(payments))
  {
    hide CodeFor, CheckoutNumber, NumberFor, LastNumber;
    SuccessorOfRecorded(payments, month, k);
    SuccessorOfMonthIsGreater(month, k);
    GreaterIsNotStored(payments, CodeFor(MonthValue(month) + 1));
  }

  /** On numbers of the two forms there are, the generated number is taken exactly at the rollover. */
  lemma NumberIsTakenExactlyAtRollover(payments: seq<Payment>)
    requires Known(payments)
    ensures IsStored(payments, CheckoutNumber(payments)) <==> AtRollover(payments)
  {
    hide CodeFor, CheckoutNumber, NumberFor;
    if payments == [] {
      assert !AtRollover(payments);
    } else {
      LastIsGreatest(payments);
      var last := LastNumber(payments).value;
      var at :| 0 <= at < |payments| && payments[at].number == last;
      if IsRecorded(last) {
        var month: Month, k: nat :| month.Valid() && last == NumberFor(month, k);
        NotTakenAfterRecorded(payments, month, k);
        StuckIsTaken(payments);
      } else {
        var n: nat :| n >= 1 && last == CodeFor(n);
        TakenAfterCode(payments, n);
      }
    }
  }

  lemma StuckIsTaken(payments: seq<Payment>)
    requires payments != []
    ensures AtRollover(payments) ==> IsStored(payments, CheckoutNumber(payments))
  {
    hide CodeFor, CheckoutNumber;
    if n: nat :| IsStuckAt(payments, n) { SuccessorOfCode(payments, n); }
  }

  lemma CodeDetermines(m: nat, n: nat)
    requires CodeFor(m) == CodeFor(n)
    ensures m == n
  {
    assert CodeFor(m)[4..] == Padded(m, 4) && CodeFor(n)[4..] == Padded(n, 4);
    PaddedIsInjective(m, n, 4);
  }

  /* ── Over runs ──────────────────────────────────────────────────────── */

  lemma FirstCode()
    ensures CodeFor(1) == "PAY-0001"
  {
    assert Print(1) == "1";
    assert "0" + "1" == "01" && "0" + "01" == "001" && "0" + "001" == "0001";
    assert PadStart("001", 4) == "0001";
    assert PadStart("01", 4) == "0001";
  }

  lemma GeneratedIsCode(payments: seq<Payment>)
    requires Known(payments)
    ensures IsCheckoutCode(CheckoutNumber(payments))
  {
    if payments == [] {
      FirstCode();
    } else {
      LastIsGreatest(payments);
      var last := LastNumber(payments).value;
      var at :| 0 <= at < |payments| && payments[at].number == last;
      if IsCheckoutCode(last) {
        var n: nat :| n >= 1 && last == CodeFor(n);
        SuccessorOfCode(payments, n);
      } else {
        var month: Month, k: nat :| month.Valid() && last == NumberFor(month, k);
        SuccessorOfRecorded(payments, month, k);
      }
    }
  }

  lemma StepKeepsKnown(t: Tables, e: Event)
    requires Known(t.payments) && IsValid(e)
    ensures Known(Step(t, e).tables.payments)
  {
    if e.CheckoutEvent? {
      GeneratedIsCode(t.payments);
    } else {
      assert IsRecorded(GenerateNumber(t.payments, e.month));
    }
  }

  lemma {:induction false} RunKeepsKnown(t: Tables, run: seq<Event>)
    requires Known(t.payments) && ValidRun(run)
    ensures Known(Exec(t, run).payments)
    decreases |run|
  {
    if run != [] {
      StepKeepsKnown(t, run[0]);
      RunKeepsKnown(Step(t, run[0]).tables, run[1..]);
    }
  }

  /**
   * After any run from empty tables, a checkout with no negative amount fails exactly with two
   * or more payments, or with one at the rollover.
   */
  lemma CheckoutFailsExactlyWhenSplitOrAtRollover(run: seq<Event>, total: int, amounts: seq<int>)
    requires ValidRun(run) && !AnyNegative(amounts)
    ensures Checkout(Exec(EMPTY, run), total, amounts).result == Err(UniqueViolation)
      <==> |amounts| >= 2 || (|amounts| == 1 && AtRollover(Exec(EMPTY, run).payments))
  {
    var t := Exec(EMPTY, run);
    RunKeepsKnown(EMPTY, run);
    StoredNumbersDiffer(EMPTY, run);
    NumberIsTakenExactlyAtRollover(t.payments);
    CheckoutSucceedsExactly(t, total, amounts);
  }

  /* ── The rollover is for good ───────────────────────────────────────── */

  /** No year before 9999 gives a number above a checkout number of all nines. */
  lemma RecordedIsBelowNines(month: Month, k: nat, n: nat)
    requires month.Valid() && month.year < 9999 && AllNines(Padded(n, 4))
    ensures Less(NumberFor(month, k), CodeFor(n))
  {
    var year, nines := Padded(month.year, 1), Padded(n, 4);
    var yearDigits, rest := nines[..4], Padded(month.month, 2) + ("-" + Padded(k, 5));
    FourDigitYear(month);
    ParsePadded(month.year, 1);
    NinesAreGreatest(yearDigits);
    assert Pow10(4) == 10 * Pow10(3) == 100 * Pow10(2) == 1000 * Pow10(1) == 10000 * Pow10(0);
    LessIsNumeric(year, yearDigits);
    LessExtends(year, yearDigits, rest, nines[4..]);
    assert nines == yearDigits + nines[4..];
    LessAfterPrefix("PAY-", year + rest, nines);
    assert NumberFor(month, k) == "PAY-" + (year + rest);
  }

  lemma FourDigitYear(month: Month)
    requires month.Valid()
    ensures |Padded(month.year, 1)| == 4
  {
    PrintLength(month.year, 4);
    PrintLength(month.year, 3);
    assert Pow10(4) == 10 * Pow10(3) == 100 * Pow10(2) == 1000 * Pow10(1) == 10000 * Pow10(0);
  }

  lemma StepStaysStuck(t: Tables, e: Event, n: nat)
    requires NumbersDiffer(t.payments) && IsValid(e) && IsStuckAt(t.payments, n)
    requires e.PaymentEvent? ==> e.month.year < 9999
    ensures IsStuckAt(Step(t, e).tables.payments, n)
    ensures e.CheckoutEvent? && e.amounts != [] ==> Step(t, e).result.Err?
  {
    hide CheckoutNumber, GenerateNumber, CodeFor;
    if e.CheckoutEvent? {
      SuccessorOfCode(t.payments, n);
      CheckoutSucceedsExactly(t, e.total, e.amounts);
      assert t.payments + [] == t.payments;
    } else if Step(t, e).result.Ok? {
      var number := GenerateNumber(t.payments, e.month);
      GeneratedIsRecorded(t.payments, e.month, n);
      LessIsTotal(number, CodeFor(n));
      var longer := Step(t, e).tables.payments;
      assert longer[..|longer| - 1] == t.payments;
      var at :| 0 <= at < |t.payments| && t.payments[at].number == CodeFor(n + 1);
      assert longer[at].number == CodeFor(n + 1);
    }
  }

  lemma GeneratedIsRecorded(payments: seq<Payment>, month: Month, n: nat)
    requires month.Valid() && month.year < 9999 && AllNines(Padded(n, 4))
    ensures Less(GenerateNumber(payments, month), CodeFor(n))
  {
    RecordedIsBelowNines(month, CountPrefix(payments, Prefix(month)) + 1, n);
  }

  /** The results of a run's checkouts that take a payment. */
  ghost predicate PaidCheckoutsFail(t: Tables, run: seq<Event>)
    requires ValidRun(run)
    decreases |run|
  {
    run == [] || ((run[0].CheckoutEvent? && run[0].amounts != [] ==> Step(t, run[0]).result.Err?)
                  && PaidCheckoutsFail(Step(t, run[0]).tables, run[1..]))
  }

  /** Once at the rollover, no checkout with a payment succeeds any more, at least until the year 9999. */
  lemma {:induction false} RolloverIsForGood(t: Tables, run: seq<Event>, n: nat)
    requires NumbersDiffer(t.payments) && ValidRun(run) && IsStuckAt(t.payments, n)
    requires forall i :: 0 <= i < |run| && run[i].PaymentEvent? ==> run[i].month.year < 9999
    ensures PaidCheckoutsFail(t, run) && IsStuckAt(Exec(t, run).payments, n)
    decreases |run|
  {
    if run != [] {
      StepStaysStuck(t, run[0], n);
      RolloverIsForGood(Step(t, run[0]).tables, run[1..], n);
    }
  }
}
