/**
 * What recording a payment and checking out store, and the status of every order in terms of
 * the calls that were made for it.
 */
module PaymentOutcomes {
  import opened Prelude
  import opened Decimal
  import opened Payments
  import opened CheckoutNumbers

  /* ── What is stored ─────────────────────────────────────────────────── */

  /**
   * A payment is recorded exactly for a known order and invoice, if its number is free: once,
   * as it was asked for. Of the orders only its own may change, and there only the status.
   */
  lemma PaymentIsRecordedExactly(t: Tables, dto: PaymentDto, month: Month)
    requires month.Valid()
    ensures var reply, number := Create(t, dto, month), GenerateNumber(t.payments, month);
      var known := dto.order in t.orders && (dto.invoice.None? || dto.invoice.value in t.invoices);
      && reply.result == (if !known then Err(NotFound)
                          else if IsStored(t.payments, number) then Err(UniqueViolation) else Ok(number))
      && (reply.result.Err? ==> reply.tables == t)
      && (reply.result.Ok? ==>
            && reply.tables.payments
               == t.payments + [Payment(number, Some(dto.order), dto.invoice, dto.amount, dto.status)]
            && reply.tables == t.(payments := reply.tables.payments, orders := reply.tables.orders)
            && dto.order in reply.tables.orders
            && reply.tables.orders == t.orders[dto.order := reply.tables.orders[dto.order]]
            && reply.tables.orders[dto.order].total == t.orders[dto.order].total)
  {
  }

  /**
   * An accepted checkout stores a new order of that value with an invoice of its own, and for
   * each amount, in order, a PAID payment of that invoice under the one number.
   */
  lemma CheckoutStoresEverything(t: Tables, total: int, amounts: seq<int>)
    ensures var reply, id := Checkout(t, total, amounts), t.next;
      && (reply.result.Err? ==> reply.tables == t)
      && (reply.result.Ok? ==>
            && reply.result.value == CheckoutNumber(t.payments)
            && |reply.tables.payments| == |t.payments| + |amounts| && t.payments <= reply.tables.payments
            && (forall i :: 0 <= i < |amounts| ==>
                  reply.tables.payments[|t.payments| + i]
                  == Payment(reply.result.value, None, Some(id), amounts[i], Paid))
            && id in reply.tables.orders && reply.tables.orders == t.orders[id := reply.tables.orders[id]]
            && reply.tables.orders[id].total == total
            && reply.tables.invoices == t.invoices[id := id] && reply.tables.next == id + 1)
  {
  }

  /** A recorded number reads PAY-, four digits of year, two of month, a dash, and at least five of its rank. */
  lemma NumberReads(month: Month, n: nat)
    requires month.Valid()
    ensures var number := NumberFor(month, n);
      && |number| >= 16 && number[..4] == "PAY-" && number[10] == '-'
      && ParseInt(number[4..8]) == Some(month.year) && ParseInt(number[8..10]) == Some(month.month)
      && ParseInt(number[11..]) == Some(n)
  {
    hide ParseInt, PadStart, Print;
    var number, year, m := NumberFor(month, n), Padded(month.year, 1), Padded(month.month, 2);
    FourDigitYear(month);
    MonthTwoDigits(month);
    ParsePadded(month.year, 1);
    ParsePadded(month.month, 2);
    ParsePadded(n, 5);
    assert number == "PAY-" + year + m + "-" + Padded(n, 5);
    assert number[4..8] == year && number[8..10] == m && number[11..] == Padded(n, 5);
  }

  /* ── The status of every order ──────────────────────────────────────── */

  /** The status that an amount paid gives an order of this value; `free`: whether one of no value is paid. */
  predicate IsStatusFor(status: PaymentStatus, paid: int, total: int, free: bool) {
    && (status == Paid <==> (total > 0 && paid >= total) || (total <= 0 && free))
    && (status == Partial <==> paid > 0 && !(total > 0 && paid >= total) && !(total <= 0 && free))
    && (status in {Paid, Partial, Unpaid})
  }

  predicate RecordsFor(t: Tables, e: Event, o: nat) {
    e.PaymentEvent? && e.month.Valid() && e.dto.order == o && Create(t, e.dto, e.month).result.Ok?
  }

  /** How many payments a run records for the order. */
  function RecordedIn(t: Tables, run: seq<Event>, o: nat): nat
    requires ValidRun(run)
    decreases |run|
  {
    if run == [] then 0
    else (if RecordsFor(t, run[0], o) then 1 else 0) + RecordedIn(Step(t, run[0]).tables, run[1..], o)
  }

  /** The sum of those that are PAID. */
  function PaidIn(t: Tables, run: seq<Event>, o: nat): int
    requires ValidRun(run)
    decreases |run|
  {
    if run == [] then 0
    else
      (if RecordsFor(t, run[0], o) && run[0].dto.status == Paid then run[0].dto.amount else 0)
      + PaidIn(Step(t, run[0]).tables, run[1..], o)
  }

  lemma TakenIsNoOwn(payments: seq<Payment>, number: string, invoice: nat, amounts: seq<int>, o: nat)
    ensures TotalPaid(payments + Taken(number, invoice, amounts), o) == TotalPaid(payments, o)
    ensures HasOwn(payments + Taken(number, invoice, amounts), o) <==> HasOwn(payments, o)
  {
    TakenCount(payments, number, map[invoice := invoice], invoice, amounts, o);
    HasOwnAfter(payments, Taken(number, invoice, amounts), o);
  }

  /** What a call leaves of an order that exists, and what it counts for it. */
  predicate CountsFor(t: Tables, e: Event, t': Tables, o: nat)
    requires o in t.orders
  {
    && o in t'.orders && o < t'.next && t'.orders[o].total == t.orders[o].total
    && TotalPaid(t'.payments, o) == TotalPaid(t.payments, o)
         + (if RecordsFor(t, e, o) && e.dto.status == Paid then e.dto.amount else 0)
    && (HasOwn(t'.payments, o) <==> HasOwn(t.payments, o) || RecordsFor(t, e, o))
    && (!RecordsFor(t, e, o) ==> t'.orders[o] == t.orders[o])
  }

  lemma PaymentCounts(t: Tables, e: Event, o: nat)
    requires IsValid(e) && e.PaymentEvent? && o in t.orders && o < t.next
    ensures CountsFor(t, e, Step(t, e).tables, o)
  {
    hide GenerateNumber, HasOwn;
    var t' := Step(t, e).tables;
    if t' != t {
      var p := t'.payments[|t.payments|];
      assert t'.payments[..|t'.payments| - 1] == t.payments && t'.payments == t.payments + [p];
      HasOwnAfter(t.payments, [p], o);
      OneOwn(p, o);
    }
  }

  lemma OneOwn(p: Payment, o: nat)
    ensures HasOwn([p], o) <==> p.order == Some(o)
  {
    assert [p][0] == p;
  }

  lemma CheckoutCounts(t: Tables, e: Event, o: nat)
    requires e.CheckoutEvent? && o in t.orders && o < t.next
    ensures CountsFor(t, e, Step(t, e).tables, o)
  {
    hide CheckoutNumber, NumbersDiffer, TotalPaid, HasOwn, Taken, Sum;
    TakenIsNoOwn(t.payments, CheckoutNumber(t.payments), t.next, e.amounts, o);
  }

  lemma {:induction false} RunCounts(t: Tables, run: seq<Event>, o: nat)
    requires ValidRun(run) && o in t.orders && o < t.next
    ensures var end := Exec(t, run);
      && o in end.orders && end.orders[o].total == t.orders[o].total
      && TotalPaid(end.payments, o) == TotalPaid(t.payments, o) + PaidIn(t, run, o)
      && (HasOwn(end.payments, o) <==> HasOwn(t.payments, o) || RecordedIn(t, run, o) > 0)
      && (RecordedIn(t, run, o) == 0 ==> end.orders[o] == t.orders[o])
    decreases |run|
  {
    hide Step, RecordsFor, HasOwn;
    if run != [] {
      if run[0].PaymentEvent? { PaymentCounts(t, run[0], o); } else { CheckoutCounts(t, run[0], o); }
      RunCounts(Step(t, run[0]).tables, run[1..], o);
    }
  }

  /**
   * The whole life of an order, from empty tables: after any calls it is created by a checkout,
   * and after any further ones its value is the one given there. Until a payment is recorded
   * for it, its status is that of what was taken at the checkout, an order of no value counting
   * as paid; from the first one on it is that of the PAID ones among the payments recorded for
   * it alone, and one of no value does not.
   */
  lemma EveryOrderHasTheStatusOfItsPayments(before: seq<Event>, total: int, amounts: seq<int>, after: seq<Event>)
    requires ValidRun(before) && ValidRun(after)
    requires Checkout(Exec(EMPTY, before), total, amounts).result.Ok?
    ensures var start, o := Checkout(Exec(EMPTY, before), total, amounts).tables, Exec(EMPTY, before).next;
      var orders := Exec(start, after).orders;
      && o in orders && orders[o].total == total
      && if RecordedIn(start, after, o) == 0
         then IsStatusFor(orders[o].status, Sum(amounts), total, true)
         else IsStatusFor(orders[o].status, PaidIn(start, after, o), total, false)
  {
    var t := Exec(EMPTY, before);
    var start, o := Checkout(t, total, amounts).tables, t.next;
    StatusFollowsPayments(EMPTY, before);
    CheckoutKeepsConsistent(t, total, amounts);
    StatusFollowsPayments(start, after);
    RunCounts(start, after, o);
    TakenIsNoOwn(t.payments, CheckoutNumber(t.payments), o, amounts, o);
    assert !HasOwn(t.payments, o);
    NoOwnNoTotal(start.payments, o);
    assert IsExplained(Exec(start, after), o);
  }
}
