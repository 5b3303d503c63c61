/**
 * Payments, the order status derived from them and their numbers, together with the checkout
 * that creates orders and writes payments of its own
 * (backend/src/modules/sales/payments/services.ts, backend/src/modules/sales/orders/services.ts).
 * Money is integer cents.
 */
module Payments {
  import opened Prelude
  import opened Decimal

  datatype PaymentStatus = Pending | Unpaid | Partial | Paid | Failed | Refunded

  datatype Order = Order(total: int, status: PaymentStatus)

  /** A payment recorded for an order names it; one taken at checkout names only the invoice. */
  datatype Payment = Payment(number: string, order: Option<nat>, invoice: Option<nat>, amount: int,
    status: PaymentStatus)

  /** The month of the call, with a four-digit year. */
  datatype Month = Month(year: int, month: int)
  {
    predicate Valid() { 1000 <= year <= 9999 && 1 <= month <= 12 }
  }

  /** `invoices` maps each invoice to its order; `next` is the next fresh order and invoice name. */
  datatype Tables = Tables(orders: map<nat, Order>, invoices: map<nat, nat>, payments: seq<Payment>, next: nat)

  /** Amounts are validated to be positive before the service runs. */
  type Amount = a: int | a > 0 witness 1

  datatype PaymentDto = PaymentDto(order: nat, invoice: Option<nat>, amount: Amount, status: PaymentStatus)

  function ComputePaymentStatus(paid: int, total: int): PaymentStatus {
    if paid >= total && total > 0 then Paid
    else if paid > 0 then Partial
    else Unpaid
  }

  function Prefix(month: Month): string
    requires month.Valid()
  {
    "PAY-" + Padded(month.year, 1) + Padded(month.month, 2)
  }

  function CountPrefix(payments: seq<Payment>, prefix: string): nat {
    if payments == [] then 0
    else CountPrefix(payments[..|payments| - 1], prefix) + if prefix <= payments[|payments| - 1].number then 1 else 0
  }

  function NumberFor(month: Month, n: nat): string
    requires month.Valid()
  {
    Prefix(month) + "-" + Padded(n, 5)
  }

  function GenerateNumber(payments: seq<Payment>, month: Month): string
    requires month.Valid()
  {
    NumberFor(month, CountPrefix(payments, Prefix(month)) + 1)
  }

  /** Sum of the order's own payments with status PAID. */
  function TotalPaid(payments: seq<Payment>, order: nat): int {
    if payments == [] then 0
    else
      var p := payments[|payments| - 1];
      TotalPaid(payments[..|payments| - 1], order) + if p.order == Some(order) && p.status == Paid then p.amount else 0
  }

  datatype Reply = Reply(tables: Tables, result: Result<string>)

  function Create(t: Tables, dto: PaymentDto, month: Month): Reply
    requires month.Valid()
  {
    if dto.order !in t.orders then Reply(t, Err(NotFound))
    else if dto.invoice.Some? && dto.invoice.value !in t.invoices then Reply(t, Err(NotFound))
    else
      var number := GenerateNumber(t.payments, month);
      if exists i :: 0 <= i < |t.payments| && t.payments[i].number == number then Reply(t, Err(UniqueViolation))
      else
        var payments := t.payments + [Payment(number, Some(dto.order), dto.invoice, dto.amount, dto.status)];
        var order := t.orders[dto.order];
        var status := ComputePaymentStatus(TotalPaid(payments, dto.order), order.total);
        Reply(t.(payments := payments, orders := t.orders[dto.order := order.(status := status)]), Ok(number))
  }

  /* ── Checkout ───────────────────────────────────────────────────────── */

  /** Checkout has its own rule: an order of no value is paid. */
  function CheckoutStatus(paid: int, total: int): PaymentStatus {
    if total <= 0 then Paid
    else if paid >= total then Paid
    else if paid > 0 then Partial
    else Unpaid
  }

  /** The greatest payment number in string order. */
  function LastNumber(payments: seq<Payment>): Option<string> {
    if payments == [] then None
    else
      var best, n := LastNumber(payments[..|payments| - 1]), payments[|payments| - 1].number;
      if best.None? || Less(best.value, n) then Some(n) else best
  }

  /** Checkout's number generator: the successor of the greatest number, whatever its form. */
  function CheckoutNumber(payments: seq<Payment>): string {
    var last := LastNumber(payments);
    if last.None? then "PAY-0001"
    else
      var parsed := ParseInt(if "PAY-" <= last.value then last.value[4..] else last.value);
      "PAY-" + PadStart(PrintInt((if parsed.Some? then parsed.value else 0) + 1), 4)
  }

  /** Every payment of one checkout is numbered before any of them is stored. */
  function Taken(number: string, invoice: nat, amounts: seq<int>): (r: seq<Payment>)
    ensures |r| == |amounts|
    ensures forall i :: 0 <= i < |r| ==> r[i] == Payment(number, None, Some(invoice), amounts[i], Paid)
  {
    if amounts == [] then []
    else
      var init, last := amounts[..|amounts| - 1], amounts[|amounts| - 1];
      Taken(number, invoice, init) + [Payment(number, None, Some(invoice), last, Paid)]
  }

  function Sum(amounts: seq<int>): int {
    if amounts == [] then 0 else Sum(amounts[..|amounts| - 1]) + amounts[|amounts| - 1]
  }

  predicate NumbersDiffer(payments: seq<Payment>) {
    forall i, j :: 0 <= i < j < |payments| ==> payments[i].number != payments[j].number
  }

  predicate AnyNegative(amounts: seq<int>) {
    exists i :: 0 <= i < |amounts| && amounts[i] < 0
  }

  /** The order, its invoice and the payments taken; items and stock only give the total. */
  function Checkout(t: Tables, total: int, amounts: seq<int>): Reply {
    if AnyNegative(amounts) then Reply(t, Err(Unprocessable))
    else
      var payments := t.payments + Taken(CheckoutNumber(t.payments), t.next, amounts);
      if !NumbersDiffer(payments) then Reply(t, Err(UniqueViolation))
      else
        Reply(t.(payments := payments, invoices := t.invoices[t.next := t.next],
                 orders := t.orders[t.next := Order(total, CheckoutStatus(Sum(amounts), total))],
                 next := t.next + 1),
              Ok(CheckoutNumber(t.payments)))
  }

  datatype Event = PaymentEvent(dto: PaymentDto, month: Month) | CheckoutEvent(total: int, amounts: seq<int>)

  predicate IsValid(e: Event) { e.PaymentEvent? ==> e.month.Valid() }

  predicate ValidRun(run: seq<Event>) {
    forall i :: 0 <= i < |run| ==> IsValid(run[i])
  }

  function Step(t: Tables, e: Event): Reply
    requires IsValid(e)
  {
    match e
    case PaymentEvent(dto, month) => Create(t, dto, month)
    case CheckoutEvent(total, amounts) => Checkout(t, total, amounts)
  }

  function Exec(t: Tables, run: seq<Event>): Tables
    requires ValidRun(run)
    decreases |run|
  {
    if run == [] then t else Exec(Step(t, run[0]).tables, run[1..])
  }

  /* ── Order status ───────────────────────────────────────────────────── */

  /** What was paid for the order at checkout. */
  function CheckoutPaid(payments: seq<Payment>, invoices: map<nat, nat>, order: nat): int {
    if payments == [] then 0
    else
      var p := payments[|payments| - 1];
      CheckoutPaid(payments[..|payments| - 1], invoices, order)
      + if p.order.None? && p.invoice.Some? && p.invoice.value in invoices && invoices[p.invoice.value] == order
        then p.amount else 0
  }

  /** Payments have been recorded for the order itself. */
  predicate HasOwn(payments: seq<Payment>, order: nat) {
    exists i :: 0 <= i < |payments| && payments[i].order == Some(order)
  }

  /** The status is the one computed from the order's own payments, or before there is one, from the checkout's. */
  predicate IsExplained(t: Tables, o: nat)
    requires o in t.orders
  {
    t.orders[o].status ==
      if HasOwn(t.payments, o) then ComputePaymentStatus(TotalPaid(t.payments, o), t.orders[o].total)
      else CheckoutStatus(CheckoutPaid(t.payments, t.invoices, o), t.orders[o].total)
  }

  ghost predicate Consistent(t: Tables) {
    && (forall o :: o in t.orders ==> o < t.next && IsExplained(t, o))
    && (forall v :: v in t.invoices ==> v < t.next && t.invoices[v] < t.next)
    && (forall i :: 0 <= i < |t.payments| ==>
          && (t.payments[i].order.Some? ==> t.payments[i].order.value < t.next && t.payments[i].amount > 0)
          && (t.payments[i].invoice.Some? ==> t.payments[i].invoice.value < t.next))
  }

  function Level(s: PaymentStatus): nat {
    if s == Paid then 2 else if s == Partial then 1 else 0
  }

  lemma {:induction false} NoOwnNoTotal(payments: seq<Payment>, o: nat)
    requires !HasOwn(payments, o)
    ensures TotalPaid(payments, o) == 0
    decreases |payments|
  {
    if payments != [] {
      var init := payments[..|payments| - 1];
      assert !HasOwn(init, o) by { assert forall i :: 0 <= i < |init| ==> init[i] == payments[i]; }
      assert payments[|payments| - 1].order != Some(o);
      NoOwnNoTotal(init, o);
    }
  }

  lemma {:induction false} TotalIsNonNegative(payments: seq<Payment>, o: nat)
    requires forall i :: 0 <= i < |payments| && payments[i].order.Some? ==> payments[i].amount > 0
    ensures TotalPaid(payments, o) >= 0
    decreases |payments|
  {
    if payments != [] { TotalIsNonNegative(payments[..|payments| - 1], o); }
  }

  /** The payment's own contribution: nothing unless it is PAID. */
  function Counted(dto: PaymentDto): int { if dto.status == Paid then dto.amount else 0 }

  /**
   * An accepted payment lowers the status of its order exactly if it is the first one
   * recorded for it and the checkout had counted more: an order of no value, one paid in full
   * there and not by this payment, or one paid in part when this payment does not count.
   */
  lemma StatusFallsExactlyAfterCheckout(t: Tables, dto: PaymentDto, month: Month)
    requires Consistent(t) && month.Valid() && Create(t, dto, month).result.Ok?
    ensures var o, before, after := dto.order, t.orders[dto.order], Create(t, dto, month).tables.orders[dto.order];
      var atCheckout := CheckoutPaid(t.payments, t.invoices, o);
      Level(after.status) < Level(before.status) <==>
        && !HasOwn(t.payments, o)
        && (|| before.total <= 0
            || (atCheckout >= before.total && Counted(dto) < before.total)
            || (atCheckout > 0 && Counted(dto) == 0))
  {
    var payments := Create(t, dto, month).tables.payments;
    assert payments[..|payments| - 1] == t.payments;
    TotalIsNonNegative(t.payments, dto.order);
    if !HasOwn(t.payments, dto.order) { NoOwnNoTotal(t.payments, dto.order); }
  }

  lemma HasOwnAfter(payments: seq<Payment>, more: seq<Payment>, o: nat)
    ensures HasOwn(payments + more, o) <==> HasOwn(payments, o) || HasOwn(more, o)
  {
    var all := payments + more;
    if i :| 0 <= i < |payments| && payments[i].order == Some(o) { assert all[i].order == Some(o); }
    if i :| 0 <= i < |more| && more[i].order == Some(o) { assert all[|payments| + i].order == Some(o); }
    if HasOwn(all, o) {
      var i :| 0 <= i < |all| && all[i].order == Some(o);
      assert i < |payments| ==> payments[i].order == Some(o);
      assert i >= |payments| ==> more[i - |payments|].order == Some(o);
    }
  }

  lemma PaymentKeepsConsistent(t: Tables, dto: PaymentDto, month: Month)
    requires Consistent(t) && month.Valid()
    ensures Consistent(Create(t, dto, month).tables)
  {
    var t' := Create(t, dto, month).tables;
    if t' != t {
      var p := t'.payments[|t.payments|];
      assert t'.payments[..|t.payments|] == t.payments;
      forall o | o in t'.orders ensures o < t'.next && IsExplained(t', o) {
        HasOwnAfter(t.payments, [p], o);
        assert HasOwn([p], o) <==> o == dto.order by { assert [p][0].order == Some(dto.order); }
        assert IsExplained(t, o);
      }
    }
  }

  /** Payments taken at checkout are no order's own, and count for their invoice's order. */
  lemma {:induction false} TakenCount(payments: seq<Payment>, number: string, invoices: map<nat, nat>, invoice: nat,
      amounts: seq<int>, o: nat)
    requires invoice in invoices
    ensures var all := payments + Taken(number, invoice, amounts);
      && TotalPaid(all, o) == TotalPaid(payments, o)
      && CheckoutPaid(all, invoices, o)
         == CheckoutPaid(payments, invoices, o) + if invoices[invoice] == o then Sum(amounts) else 0
    decreases |amounts|
  {
    if amounts == [] {
      assert payments + [] == payments;
    } else {
      var taken := Taken(number, invoice, amounts);
      var all := payments + taken;
      assert taken[..|taken| - 1] == Taken(number, invoice, amounts[..|amounts| - 1]);
      assert all[..|all| - 1] == payments + taken[..|taken| - 1];
      TakenCount(payments, number, invoices, invoice, amounts[..|amounts| - 1], o);
    }
  }

  /** A new invoice changes nothing for payments that do not name it. */
  lemma {:induction false} NewInvoiceCounts(payments: seq<Payment>, invoices: map<nat, nat>, invoice: nat, o: nat)
    requires forall i :: 0 <= i < |payments| && payments[i].invoice.Some? ==> payments[i].invoice.value < invoice
    ensures CheckoutPaid(payments, invoices[invoice := invoice], o) == CheckoutPaid(payments, invoices, o)
    decreases |payments|
  {
    if payments != [] { NewInvoiceCounts(payments[..|payments| - 1], invoices, invoice, o); }
  }

  /** Before its order exists nothing has been paid for it. */
  lemma {:induction false} NothingPaidYet(payments: seq<Payment>, invoices: map<nat, nat>, o: nat)
    requires forall v :: v in invoices ==> invoices[v] < o
    ensures CheckoutPaid(payments, invoices, o) == 0
    decreases |payments|
  {
    if payments != [] { NothingPaidYet(payments[..|payments| - 1], invoices, o); }
  }

  lemma CheckoutKeepsConsistent(t: Tables, total: int, amounts: seq<int>)
    requires Consistent(t)
    ensures Consistent(Checkout(t, total, amounts).tables)
  {
    var t' := Checkout(t, total, amounts).tables;
    if t' != t {
      var number := CheckoutNumber(t.payments);
      forall o | o in t'.orders ensures o < t'.next && IsExplained(t', o) {
        HasOwnAfter(t.payments, Taken(number, t.next, amounts), o);
        TakenCount(t.payments, number, t'.invoices, t.next, amounts, o);
        NewInvoiceCounts(t.payments, t.invoices, t.next, o);
        if o == t.next {
          NothingPaidYet(t.payments, t.invoices, o);
        } else {
          assert IsExplained(t, o);
        }
      }
    }
  }

  /** No tables yet. */
  const EMPTY := Tables(map[], map[], [], 0)

  lemma StepKeepsConsistent(t: Tables, e: Event)
    requires Consistent(t) && IsValid(e)
    ensures Consistent(Step(t, e).tables)
  {
    hide Consistent;
    match e
    case PaymentEvent(dto, month) => PaymentKeepsConsistent(t, dto, month);
    case CheckoutEvent(total, amounts) => CheckoutKeepsConsistent(t, total, amounts);
  }

  /**
   * Over any run of checkouts and payments from empty tables, each order's status is the one
   * computed from its own PAID payments, or, as long as there is none, from its checkout's.
   */
  lemma {:induction false} StatusFollowsPayments(t: Tables, run: seq<Event>)
    requires Consistent(t) && ValidRun(run)
    ensures Consistent(EMPTY) && Consistent(Exec(t, run))
    decreases |run|
  {
    if run != [] {
      StepKeepsConsistent(t, run[0]);
      StatusFollowsPayments(Step(t, run[0]).tables, run[1..]);
    }
  }

  lemma StepRaisesStatus(t: Tables, e: Event, o: nat)
    requires Consistent(t) && IsValid(e) && o in t.orders && HasOwn(t.payments, o)
    ensures var t' := Step(t, e).tables;
      o in t'.orders && HasOwn(t'.payments, o) && Level(t'.orders[o].status) >= Level(t.orders[o].status)
  {
    var t' := Step(t, e).tables;
    if e.PaymentEvent? && t' != t {
      HasOwnAfter(t.payments, t'.payments[|t.payments|..], o);
      assert t'.payments == t.payments + t'.payments[|t.payments|..];
      if o == e.dto.order { StatusFallsExactlyAfterCheckout(t, e.dto, e.month); }
    } else if t' != t {
      HasOwnAfter(t.payments, Taken(CheckoutNumber(t.payments), t.next, e.amounts), o);
    }
  }

  /** Once an order has a payment of its own, its status never falls again. */
  lemma {:induction false} StatusNeverFallsAgain(t: Tables, run: seq<Event>, o: nat)
    requires Consistent(t) && ValidRun(run) && o in t.orders && HasOwn(t.payments, o)
    ensures o in Exec(t, run).orders && Level(Exec(t, run).orders[o].status) >= Level(t.orders[o].status)
    decreases |run|
  {
    hide Consistent, Step;
    if run != [] {
      StepRaisesStatus(t, run[0], o);
      StepKeepsConsistent(t, run[0]);
      StatusNeverFallsAgain(Step(t, run[0]).tables, run[1..], o);
    }
  }

  /** Paying by two means at checkout always fails: both payments get the same number. */
  lemma SplitPaymentNeverSucceeds(t: Tables, total: int, amounts: seq<int>)
    requires |amounts| >= 2
    ensures Checkout(t, total, amounts).result == Err(if AnyNegative(amounts) then Unprocessable else UniqueViolation)
  {
    var payments := t.payments + Taken(CheckoutNumber(t.payments), t.next, amounts);
    assert payments[|t.payments|].number == payments[|t.payments| + 1].number;
  }

  /* ── Payment numbers ────────────────────────────────────────────────── */

  /** How many of the first `i` payments carry the month's prefix. */
  function IssuedBefore(payments: seq<Payment>, i: nat, month: Month): nat
    requires i <= |payments| && month.Valid()
  {
    CountPrefix(payments[..i], Prefix(month))
  }

  /** Not of the form that recorded payments get: no dash after the month. */
  predicate IsForeign(number: string) { |number| > 10 ==> number[10] != '-' }

  /** The number that a payment stored at place `i` must have. */
  ghost predicate NumberFits(payments: seq<Payment>, i: nat, month: Option<Month>, number: string)
    requires i <= |payments|
  {
    if month.None? then IsForeign(number)
    else month.value.Valid() && number == NumberFor(month.value, IssuedBefore(payments, i, month.value) + 1)
  }

  /**
   * Each recorded payment carries the number of some month, one more than the numbers with
   * that month's prefix when it was issued; payments taken at checkout, without a month here,
   * carry numbers of another form.
   */
  ghost predicate Numbered(payments: seq<Payment>, months: seq<Option<Month>>) {
    && |months| == |payments|
    && forall i :: 0 <= i < |payments| ==>
         NumberFits(payments, i, months[i], payments[i].number)
  }

  lemma PrefixLength(month: Month)
    requires month.Valid()
    ensures |Prefix(month)| == 10
  {
    PrintLength(month.year, 4);
    PrintLength(month.year, 3);
    PrintLength(month.month, 2);
    assert Pow10(2) == 100 && Pow10(3) == 10 * Pow10(2) && Pow10(4) == 10 * Pow10(3) by {
      assert Pow10(1) == 10 * Pow10(0) && Pow10(2) == 10 * Pow10(1);
    }
  }

  /** A number belongs to one month and one position. */
  lemma NumberDetermines(m1: Month, n1: nat, m2: Month, n2: nat)
    requires m1.Valid() && m2.Valid()
    ensures Prefix(m2) <= NumberFor(m1, n1) <==> m1 == m2
    ensures NumberFor(m1, n1) == NumberFor(m2, n2) <==> m1 == m2 && n1 == n2
  {
    PrefixLength(m1);
    PrefixLength(m2);
    var number := NumberFor(m1, n1);
    assert number[..10] == Prefix(m1) && number[11..] == Padded(n1, 5);
    if Prefix(m2) <= number {
      assert Prefix(m2) == number[..10];
      MonthOfPrefix(m1, m2);
    }
    if number == NumberFor(m2, n2) {
      assert NumberFor(m2, n2)[..10] == Prefix(m2) && NumberFor(m2, n2)[11..] == Padded(n2, 5);
      PaddedIsInjective(n1, n2, 5);
    }
  }

  lemma MonthOfPrefix(m1: Month, m2: Month)
    requires m1.Valid() && m2.Valid() && Prefix(m1) == Prefix(m2)
    ensures m1 == m2
  {
    PrefixLength(m1);
    PrefixLength(m2);
    PrintLength(m1.month, 2);
    PrintLength(m2.month, 2);
    assert Pow10(2) == 10 * Pow10(1) == 100 * Pow10(0);
    assert |Padded(m1.month, 2)| == 2 == |Padded(m2.month, 2)|;
    assert Prefix(m1)[8..] == Padded(m1.month, 2) && Prefix(m2)[8..] == Padded(m2.month, 2);
    assert Prefix(m1)[4..8] == Padded(m1.year, 1) && Prefix(m2)[4..8] == Padded(m2.year, 1);
    PaddedIsInjective(m1.month, m2.month, 2);
    PaddedIsInjective(m1.year, m2.year, 1);
  }

  lemma {:induction false} CountIsMonotone(payments: seq<Payment>, i: nat, j: nat, month: Month)
    requires i <= j <= |payments| && month.Valid()
    ensures IssuedBefore(payments, i, month) <= IssuedBefore(payments, j, month)
    ensures i < j && Prefix(month) <= payments[i].number ==>
      IssuedBefore(payments, i, month) < IssuedBefore(payments, j, month)
    decreases j
  {
    if i < j {
      CountIsMonotone(payments, i, j - 1, month);
      assert payments[..j][..j - 1] == payments[..j - 1];
    }
  }

  /** The next number of any month is new. */
  lemma NextNumberIsNew(payments: seq<Payment>, months: seq<Option<Month>>, month: Month)
    requires Numbered(payments, months) && month.Valid()
    ensures forall i :: 0 <= i < |payments| ==> payments[i].number != GenerateNumber(payments, month)
  {
    assert payments[..|payments|] == payments;
    var n := IssuedBefore(payments, |payments|, month) + 1;
    forall i | 0 <= i < |payments| ensures payments[i].number != NumberFor(month, n) {
      LaterNumberDiffers(payments, months, i, |payments|, month);
    }
  }

  lemma LaterNumberDiffers(payments: seq<Payment>, months: seq<Option<Month>>, i: nat, j: nat, month: Month)
    requires Numbered(payments, months) && month.Valid() && i < j <= |payments|
    ensures payments[i].number != NumberFor(month, IssuedBefore(payments, j, month) + 1)
  {
    if months[i].None? {
      PrefixLength(month);
    } else {
      var m := months[i].value;
      var n := IssuedBefore(payments, i, m) + 1;
      NumberDetermines(m, n, month, IssuedBefore(payments, j, month) + 1);
      NumberDetermines(m, n, m, n);
      CountIsMonotone(payments, i, j, m);
    }
  }

  /** What checkout prints has no dash where recorded payments have one. */
  lemma CheckoutNumberIsForeign(payments: seq<Payment>)
    ensures IsForeign(CheckoutNumber(payments))
  {
  }

  /** The months under which a run's accepted payments were numbered; none for those taken at checkout. */
  ghost function MonthsOf(t: Tables, run: seq<Event>): seq<Option<Month>>
    requires ValidRun(run)
    decreases |run|
  {
    if run == [] then [] else NewMonths(t, run[0]) + MonthsOf(Step(t, run[0]).tables, run[1..])
  }

  ghost function NewMonths(t: Tables, e: Event): seq<Option<Month>>
    requires IsValid(e)
  {
    if Step(t, e).result.Err? then []
    else match e
      case PaymentEvent(_, month) => [Some(month)]
      case CheckoutEvent(_, amounts) => seq(|amounts|, i => None)
  }

  lemma AppendKeepsIssued(payments: seq<Payment>, more: seq<Payment>, i: nat, month: Month)
    requires i <= |payments| && month.Valid()
    ensures IssuedBefore(payments + more, i, month) == IssuedBefore(payments, i, month)
  {
    assert (payments + more)[..i] == payments[..i];
  }

  lemma AppendNumbered(payments: seq<Payment>, months: seq<Option<Month>>, p: Payment, month: Option<Month>)
    requires Numbered(payments, months)
    requires NumberFits(payments, |payments|, month, p.number)
    ensures Numbered(payments + [p], months + [month])
  {
    var longer, all := payments + [p], months + [month];
    forall i | 0 <= i < |longer|
      ensures NumberFits(longer, i, all[i], longer[i].number)
    {
      if i < |payments| {
        assert all[i] == months[i] && longer[i] == payments[i];
      } else {
        assert all[i] == month && longer[i] == p;
      }
      if all[i].Some? { AppendKeepsIssued(payments, [p], i, all[i].value); }
    }
  }

  lemma StepKeepsNumbered(t: Tables, months: seq<Option<Month>>, e: Event)
    requires Numbered(t.payments, months) && IsValid(e)
    ensures e.PaymentEvent? ==> Step(t, e).result != Err(UniqueViolation)
    ensures Numbered(Step(t, e).tables.payments, months + NewMonths(t, e))
  {
    assert t.payments[..|t.payments|] == t.payments && months + [] == months;
    match e
    case PaymentEvent(dto, month) =>
      NextNumberIsNew(t.payments, months, month);
      var p := Payment(GenerateNumber(t.payments, month), Some(dto.order), dto.invoice, dto.amount, dto.status);
      AppendNumbered(t.payments, months, p, Some(month));
    case CheckoutEvent(total, amounts) =>
      if |amounts| >= 2 { SplitPaymentNeverSucceeds(t, total, amounts); }
      if Step(t, e).result.Ok? {
        var taken := Taken(CheckoutNumber(t.payments), t.next, amounts);
        CheckoutNumberIsForeign(t.payments);
        if amounts == [] {
          assert NewMonths(t, e) == [] && t.payments + taken == t.payments;
        } else {
          assert NewMonths(t, e) == [None] && taken == [taken[0]];
          AppendNumbered(t.payments, months, taken[0], None);
        }
      }
  }

  lemma Regroup(a: seq<Option<Month>>, b: seq<Option<Month>>, c: seq<Option<Month>>)
    ensures a + (b + c) == (a + b) + c
  {
  }

  /**
   * Over any run of checkouts and payments each recorded payment gets the next number of its
   * month, past five digits too.
   */
  lemma {:induction false} NumbersCountUp(t: Tables, months: seq<Option<Month>>, run: seq<Event>)
    requires Numbered(t.payments, months) && ValidRun(run)
    ensures Numbered(Exec(t, run).payments, months + MonthsOf(t, run))
    decreases |run|
  {
    if run == [] {
      assert months + [] == months;
    } else {
      StepKeepsNumbered(t, months, run[0]);
      var t' := Step(t, run[0]).tables;
      NumbersCountUp(t', months + NewMonths(t, run[0]), run[1..]);
      Regroup(months, NewMonths(t, run[0]), MonthsOf(t', run[1..]));
    }
  }

  /** Payments of the month recorded before, and payments taken at checkout whose number has its prefix. */
  function RecordedBefore(months: seq<Option<Month>>, i: nat, month: Month): nat
    requires i <= |months|
  {
    if i == 0 then 0 else RecordedBefore(months, i - 1, month) + if months[i - 1] == Some(month) then 1 else 0
  }

  function TakenBefore(payments: seq<Payment>, months: seq<Option<Month>>, i: nat, month: Month): nat
    requires i <= |months| == |payments| && month.Valid()
  {
    if i == 0 then 0
    else TakenBefore(payments, months, i - 1, month)
         + if months[i - 1].None? && Prefix(month) <= payments[i - 1].number then 1 else 0
  }

  /** So the k-th payment recorded in a month gets the number k, plus one for each checkout number with its prefix. */
  lemma {:induction false} RankIsRecordedPlusTaken(payments: seq<Payment>, months: seq<Option<Month>>, i: nat,
      month: Month)
    requires Numbered(payments, months) && i <= |payments| && month.Valid()
    ensures IssuedBefore(payments, i, month) ==
      RecordedBefore(months, i, month) + TakenBefore(payments, months, i, month)
    decreases i
  {
    hide NumberFor, Prefix;
    if i > 0 {
      RankIsRecordedPlusTaken(payments, months, i - 1, month);
      assert payments[..i][..i - 1] == payments[..i - 1];
      if months[i - 1].Some? {
        var m := months[i - 1].value;
        NumberDetermines(m, IssuedBefore(payments, i - 1, m) + 1, month, 0);
      }
    }
  }

  /** From empty tables, no payment is ever refused for its number. */
  lemma NumbersNeverCollide(run: seq<Event>, dto: PaymentDto, month: Month)
    requires ValidRun(run) && month.Valid()
    ensures Create(Exec(EMPTY, run), dto, month).result != Err(UniqueViolation)
    ensures NumbersDiffer(Exec(EMPTY, run).payments)
  {
    NumbersCountUp(EMPTY, [], run);
    StepKeepsNumbered(Exec(EMPTY, run), [] + MonthsOf(EMPTY, run), PaymentEvent(dto, month));
    StoredNumbersDiffer(EMPTY, run);
  }

  lemma {:induction false} StoredNumbersDiffer(t: Tables, run: seq<Event>)
    requires NumbersDiffer(t.payments) && ValidRun(run)
    ensures NumbersDiffer(Exec(t, run).payments)
    decreases |run|
  {
    if run != [] { StoredNumbersDiffer(Step(t, run[0]).tables, run[1..]); }
  }

  /* ── The services in their own form ─────────────────────────────────── */

  class PaymentService {
    var orders: map<nat, Order>
    var invoices: map<nat, nat>
    var payments: seq<Payment>
    var next: nat

    constructor ()
      ensures Valid() && State() == EMPTY
    {
      orders, invoices, payments, next := map[], map[], [], 0;
    }

    function State(): Tables
      reads this
    {
      Tables(orders, invoices, payments, next)
    }

    /** Every status is explained by the order's own payments or its checkout's. */
    ghost predicate Valid()
      reads this
    {
      Consistent(State())
    }

    /** `reduce` over the order's PAID payments. */
    method SumPaid(order: nat) returns (sum: int)
      ensures sum == TotalPaid(payments, order)
    {
      sum := 0;
      for i := 0 to |payments|
        invariant sum == TotalPaid(payments[..i], order)
      {
        if payments[i].order == Some(order) && payments[i].status == Paid {
          sum := sum + payments[i].amount;
        }
        assert payments[..i + 1][..i] == payments[..i];
      }
      assert payments[..|payments|] == payments;
    }

    method CreatePayment(dto: PaymentDto, month: Month) returns (result: Result<string>)
      requires Valid() && month.Valid()
      modifies this
      ensures Valid()
      ensures Reply(State(), result) == Create(old(State()), dto, month)
    {
      hide Consistent;
      PaymentKeepsConsistent(State(), dto, month);
      if dto.order !in orders {
        return Err(NotFound);
      }
      if dto.invoice.Some? && dto.invoice.value !in invoices {
        return Err(NotFound);
      }
      var order := orders[dto.order];
      var number := GenerateNumber(payments, month);
      if exists i :: 0 <= i < |payments| && payments[i].number == number {
        return Err(UniqueViolation);
      }
      payments := payments + [Payment(number, Some(dto.order), dto.invoice, dto.amount, dto.status)];
      var totalPaid := SumPaid(dto.order);
      orders := orders[dto.order := order.(status := ComputePaymentStatus(totalPaid, order.total))];
      result := Ok(number);
    }

    /** The payments of a checkout are collected with their numbers, then stored together. */
    method CheckoutOrder(total: int, amounts: seq<int>) returns (result: Result<string>)
      requires Valid()
      modifies this
      ensures Valid()
      ensures Reply(State(), result) == Checkout(old(State()), total, amounts)
    {
      hide Consistent, CheckoutNumber, NumbersDiffer;
      CheckoutKeepsConsistent(State(), total, amounts);
      var paidTotal, input := 0, [];
      for i := 0 to |amounts|
        invariant paidTotal == Sum(amounts[..i]) && input == Taken(CheckoutNumber(payments), next, amounts[..i])
        invariant forall k :: 0 <= k < i ==> amounts[k] >= 0
      {
        if amounts[i] < 0 {
          return Err(Unprocessable);
        }
        paidTotal := paidTotal + amounts[i];
        input := input + [Payment(CheckoutNumber(payments), None, Some(next), amounts[i], Paid)];
        assert amounts[..i + 1][..i] == amounts[..i];
      }
      assert amounts[..|amounts|] == amounts;
      var number := CheckoutNumber(payments);
      if !NumbersDiffer(payments + input) {
        return Err(UniqueViolation);
      }
      payments := payments + input;
      orders := orders[next := Order(total, CheckoutStatus(paidTotal, total))];
      invoices := invoices[next := next];
      next := next + 1;
      result := Ok(number);
    }
  }
}
