/**
 * `PaymentService`: recording payments with receipt numbers, and the revenue queries.
 * Amounts are exact integers in the smallest currency unit, as `decimal` sums are exact.
 */
module PaymentServices {
  import opened Wrappers
  import opened Entities
  import opened Store
  import opened Seqs
  import opened Text

  type Payment = Entity<PaymentAttrs>

  /** The receipt counter's value before the first payment is recorded. */
  const FirstReceiptCounter := 1000

  /** `RCP-{yyyyMMdd}-{counter}`. */
  function ReceiptNumber(stamp: string, counter: nat): (r: string)
    ensures |r| > 5 + |stamp| && r[..4] == "RCP-"
    ensures r[4..4 + |stamp|] == stamp && r[4 + |stamp|] == '-'
    ensures forall i :: 5 + |stamp| <= i < |r| ==> IsAsciiDigit(r[i])
  {
    SerialNumber("RCP", stamp, counter)
  }

  /** The payment as `RecordPaymentAsync` stores it: dated now, with its receipt number. */
  function Recorded(p: Payment, now: int, receipt: string): Payment
  {
    p.(attrs := p.attrs.(paymentDate := now, receiptNumber := receipt))
  }

  /** Receipts issued under different counter values differ, whatever day each was issued on. */
  lemma ReceiptNumbersDistinct(stamp1: string, stamp2: string, n1: nat, n2: nat)
    requires |stamp1| == |stamp2| && n1 != n2
    ensures ReceiptNumber(stamp1, n1) != ReceiptNumber(stamp2, n2)
  {
    if ReceiptNumber(stamp1, n1) == ReceiptNumber(stamp2, n2) {
      SerialNumberInjective("RCP", stamp1, stamp2, n1, n2);
    }
  }

  // ─────────────────────── queries ───────────────────────

  /** `GetPaymentsForStudentAsync`. */
  function PaymentsForStudent(all: seq<Payment>, studentId: int): (r: seq<Payment>)
    ensures forall i :: 0 <= i < |r| ==> r[i] in all && r[i].attrs.studentId == studentId
    ensures forall i :: 0 <= i < |all| && all[i].attrs.studentId == studentId ==> all[i] in r
  {
    Filter(all, (p: Payment) => p.attrs.studentId == studentId)
  }

  /** `GetPaymentsByMonthAsync`. */
  function PaymentsByMonth(all: seq<Payment>, month: int, year: int): (r: seq<Payment>)
    ensures forall i :: 0 <= i < |r| ==> r[i] in all && r[i].attrs.month == month && r[i].attrs.year == year
    ensures forall i :: 0 <= i < |all| && all[i].attrs.month == month && all[i].attrs.year == year ==> all[i] in r
  {
    Filter(all, (p: Payment) => p.attrs.month == month && p.attrs.year == year)
  }

  /** A payment still owed: pending or overdue (a late payment has been paid late, so it is not). */
  predicate IsOutstanding(p: Payment)
  {
    p.attrs.status == PaymentStatus.Pending || p.attrs.status == PaymentStatus.Overdue
  }

  /** `GetPendingPaymentsAsync`. */
  function PendingPayments(all: seq<Payment>): (r: seq<Payment>)
    ensures forall i :: 0 <= i < |r| ==> r[i] in all && IsOutstanding(r[i]) && r[i].attrs.status != PaymentStatus.Paid
    ensures forall i :: 0 <= i < |all| && IsOutstanding(all[i]) ==> all[i] in r
  {
    Filter(all, IsOutstanding)
  }

  /** `Where(p => p.Status == Paid [&& p.Month == month && p.Year == year]).Sum(p => p.Amount)`, over the paid payments `counted` selects. */
  function PaidSum(all: seq<Payment>, counted: Payment -> bool): (r: int)
    ensures Every(all, (p: Payment) => p.attrs.amount >= 0) ==> r >= 0
    ensures Every(all, (p: Payment) => !(counted(p) && p.attrs.status == PaymentStatus.Paid)) ==> r == 0
  {
    if |all| == 0 then 0
    else
      var p := all[|all| - 1];
      PaidSum(all[..|all| - 1], counted) + (if counted(p) && p.attrs.status == PaymentStatus.Paid then p.attrs.amount else 0)
  }

  /** `GetTotalRevenueAsync`: the sum of the paid amounts. */
  function TotalRevenue(all: seq<Payment>): (r: int)
    ensures Every(all, (p: Payment) => p.attrs.amount >= 0) ==> r >= 0
  {
    PaidSum(all, (p: Payment) => true)
  }

  /** `GetRevenueByMonthAsync`: the sum of the paid amounts for one month of one year. */
  function RevenueByMonth(all: seq<Payment>, month: int, year: int): (r: int)
    ensures Every(all, (p: Payment) => p.attrs.amount >= 0) ==> r >= 0
  {
    PaidSum(all, (p: Payment) => p.attrs.month == month && p.attrs.year == year)
  }

  /** Recording one more payment adds its amount to the revenue if and only if it is paid. */
  lemma RevenueOfRecorded(all: seq<Payment>, p: Payment)
    ensures TotalRevenue(all + [p]) == TotalRevenue(all) + (if p.attrs.status == PaymentStatus.Paid then p.attrs.amount else 0)
    ensures RevenueByMonth(all + [p], p.attrs.month, p.attrs.year) ==
              RevenueByMonth(all, p.attrs.month, p.attrs.year) + (if p.attrs.status == PaymentStatus.Paid then p.attrs.amount else 0)
  {
    assert (all + [p])[..|all|] == all;
  }

  /** With non-negative amounts, one month's revenue never exceeds the total revenue. */
  lemma {:induction false} MonthWithinTotal(all: seq<Payment>, month: int, year: int)
    requires forall i :: 0 <= i < |all| ==> all[i].attrs.amount >= 0
    ensures 0 <= RevenueByMonth(all, month, year) <= TotalRevenue(all)
  {
    if |all| > 0 {
      var init := all[..|all| - 1];
      assert forall i :: 0 <= i < |init| ==> init[i] == all[i];
      MonthWithinTotal(init, month, year);
    }
  }

  /**
   * Changing the status of one payment from paid to anything else lowers the revenue by
   * exactly its amount; the list and every other payment are as they were.
   */
  lemma {:induction false} RevenueWithoutPayment(all: seq<Payment>, k: int, status: PaymentStatus)
    requires 0 <= k < |all| && all[k].attrs.status == PaymentStatus.Paid && status != PaymentStatus.Paid
    ensures TotalRevenue(all[k := all[k].(attrs := all[k].attrs.(status := status))]) == TotalRevenue(all) - all[k].attrs.amount
  {
    var n := |all|;
    var changed := all[k].(attrs := all[k].attrs.(status := status));
    if k == n - 1 {
      assert all[k := changed][..n - 1] == all[..n - 1];
    } else {
      assert all[k := changed][..n - 1] == all[..n - 1][k := changed];
      RevenueWithoutPayment(all[..n - 1], k, status);
    }
  }

  /**
   * A paid payment of 8000 for 3/2026 makes that month's revenue 8000; a second paid payment
   * of 5000 for the same month makes it 13000, and the total too; a pending one adds nothing.
   */
  lemma RevenueExample(a: Payment, b: Payment, c: Payment)
    requires a.attrs.status == PaymentStatus.Paid && a.attrs.amount == 8000
    requires b.attrs.status == PaymentStatus.Paid && b.attrs.amount == 5000
    requires a.attrs.month == b.attrs.month == c.attrs.month == 3
    requires a.attrs.year == b.attrs.year == c.attrs.year == 2026
    requires c.attrs.status == PaymentStatus.Pending
    ensures RevenueByMonth([a], 3, 2026) == 8000
    ensures RevenueByMonth([a, b], 3, 2026) == 13000
    ensures RevenueByMonth([a, b, c], 3, 2026) == 13000 && TotalRevenue([a, b, c]) == 13000
  {
    var none: seq<Payment> := [];
    assert TotalRevenue(none) == 0 && RevenueByMonth(none, 3, 2026) == 0;
    assert none + [a] == [a];
    RevenueOfRecorded(none, a);
    assert TotalRevenue([a]) == 8000 && RevenueByMonth([a], 3, 2026) == 8000;
    assert [a] + [b] == [a, b];
    RevenueOfRecorded([a], b);
    assert TotalRevenue([a, b]) == 13000 && RevenueByMonth([a, b], 3, 2026) == 13000;
    assert [a, b] + [c] == [a, b, c];
    RevenueOfRecorded([a, b], c);
  }

  /** Of two paid payments and a pending one, only the pending one is listed as outstanding. */
  lemma PendingExample(a: Payment, b: Payment, c: Payment)
    requires a.attrs.status == PaymentStatus.Paid && b.attrs.status == PaymentStatus.Paid
    requires c.attrs.status == PaymentStatus.Pending
    ensures PendingPayments([a, b, c]) == [c]
  {
    var none: seq<Payment> := [];
    assert [a][..0] == none && [b][..0] == none && [c][..0] == none;
    assert [a] + [b] == [a, b] && [a, b] + [c] == [a, b, c];
    FilterAppend([a], [b], IsOutstanding);
    FilterAppend([a, b], [c], IsOutstanding);
  }

  // ─────────────────────── the service ───────────────────────

  class PaymentService {
    const payments: JsonFileRepository<PaymentAttrs>
    /** `_receiptCounter`. */
    var receiptCounter: nat

    constructor (payments: JsonFileRepository<PaymentAttrs>)
      ensures this.payments == payments && receiptCounter == FirstReceiptCounter
    {
      this.payments := payments;
      receiptCounter := FirstReceiptCounter;
    }

    /**
     * `RecordPaymentAsync`: pre-increments the counter, so the first receipt carries 1001;
     * `stamp` is the `yyyyMMdd` form of the current date.
     */
    method RecordPayment(payment: Payment, now: int, stamp: string) returns (stored: Payment)
      modifies this, payments
      ensures receiptCounter == old(receiptCounter) + 1
      ensures stored.attrs == payment.attrs.(paymentDate := now, receiptNumber := ReceiptNumber(stamp, receiptCounter))
      ensures payments.Snapshot() == WithAdded(old(payments.Snapshot()), Recorded(payment, now, ReceiptNumber(stamp, receiptCounter)))
      ensures payments.items[|payments.items| - 1] == stored
    {
      receiptCounter := receiptCounter + 1;
      stored := payments.Add(Recorded(payment, now, ReceiptNumber(stamp, receiptCounter)));
    }

    /** `GetPaymentsForStudentAsync`. */
    method GetPaymentsForStudent(studentId: int) returns (r: seq<Payment>)
      ensures r == PaymentsForStudent(payments.items, studentId)
    {
      var all := payments.GetAll();
      r := PaymentsForStudent(all, studentId);
    }

    /** `GetPaymentsByMonthAsync`. */
    method GetPaymentsByMonth(month: int, year: int) returns (r: seq<Payment>)
      ensures r == PaymentsByMonth(payments.items, month, year)
    {
      var all := payments.GetAll();
      r := PaymentsByMonth(all, month, year);
    }

    /** `GetPendingPaymentsAsync`. */
    method GetPendingPayments() returns (r: seq<Payment>)
      ensures r == PendingPayments(payments.items)
    {
      var all := payments.GetAll();
      r := PendingPayments(all);
    }

    /** `GetTotalRevenueAsync`. */
    method GetTotalRevenue() returns (total: int)
      ensures total == TotalRevenue(payments.items)
    {
      var all := payments.GetAll();
      total := TotalRevenue(all);
    }

    /** `GetRevenueByMonthAsync`. */
    method GetRevenueByMonth(month: int, year: int) returns (total: int)
      ensures total == RevenueByMonth(payments.items, month, year)
    {
      var all := payments.GetAll();
      total := RevenueByMonth(all, month, year);
    }
  }

  /**
   * Two payments recorded one after the other by the same service get different receipt
   * numbers, the second one's counter one above the first.
   */
  method RecordTwice(service: PaymentService, p: Payment, q: Payment, now: int, stamp: string)
    returns (first: Payment, second: Payment)
    modifies service, service.payments
    ensures first.attrs.receiptNumber == ReceiptNumber(stamp, old(service.receiptCounter) + 1)
    ensures second.attrs.receiptNumber == ReceiptNumber(stamp, old(service.receiptCounter) + 2)
    ensures first.attrs.receiptNumber != second.attrs.receiptNumber
  {
    first := service.RecordPayment(p, now, stamp);
    second := service.RecordPayment(q, now, stamp);
    ReceiptNumbersDistinct(stamp, stamp, old(service.receiptCounter) + 1, old(service.receiptCounter) + 2);
  }
}
