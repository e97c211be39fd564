/**
 * The tutor's earnings statistics, computed from the tutor's payments by
 * filters and sums. `time` reads a timestamp as an instant and the month and
 * year bounds are given by the caller.
 */
module Earnings {
  import opened Wrappers
  import opened Seqs
  import opened Schema

  /** The six numbers of the statistics cards. */
  datatype EarningsStats = EarningsStats(
    totalEarnings: real,
    thisMonthEarnings: real,
    thisYearEarnings: real,
    completedSessions: nat,
    pendingPayments: real,
    avgSessionRate: real)

  /** The inclusive bounds of the current month and year. */
  datatype Period = Period(monthStart: int, monthEnd: int, yearStart: int, yearEnd: int)

  function Amount(p: PaymentRow): real {
    p.amount
  }

  predicate IsCompleted(p: PaymentRow) {
    p.status == PaymentStatus.Completed
  }

  predicate IsPending(p: PaymentRow) {
    p.status == PaymentStatus.Pending
  }

  /** `p.processed_at || p.created_at`: the processing time when set and non-empty, else the creation time. */
  function PaymentDate(p: PaymentRow): (r: Timestamp)
    ensures p.processedAt == Some(r) || (r == p.createdAt && (p.processedAt.None? || p.processedAt.value == ""))
    ensures p.processedAt.Some? && p.processedAt.value != "" ==> r == p.processedAt.value
  {
    if p.processedAt.Some? && p.processedAt.value != "" then p.processedAt.value else p.createdAt
  }

  /** The payment's date lies within `[from, to]`. */
  function Within(time: Timestamp -> int, from: int, to: int): PaymentRow -> bool {
    (p: PaymentRow) => from <= time(PaymentDate(p)) <= to
  }

  /** `count > 0 ? total / count : 0`: the total shared evenly over the count. */
  function Average(total: real, count: nat): (r: real)
    ensures count == 0 ==> r == 0.0
    ensures count > 0 ==> r * count as real == total
  {
    if count > 0 then total / count as real else 0.0
  }

  /** The statistics `fetchEarningsData` sets from the fetched payments. */
  function ComputeEarnings(payments: seq<PaymentRow>, time: Timestamp -> int, period: Period): (r: EarningsStats)
    ensures r.completedSessions <= |payments|
    ensures r.completedSessions == 0 ==> r.avgSessionRate == 0.0 && r.totalEarnings == 0.0
    ensures r.avgSessionRate == Average(r.totalEarnings, r.completedSessions)
  {
    var completed := Filter(payments, IsCompleted);
    var pending := Filter(payments, IsPending);
    var total := SumBy(completed, Amount);
    var month := SumBy(Filter(completed, Within(time, period.monthStart, period.monthEnd)), Amount);
    var year := SumBy(Filter(completed, Within(time, period.yearStart, period.yearEnd)), Amount);
    EarningsStats(total, month, year, |completed|, SumBy(pending, Amount), Average(total, |completed|))
  }

  /**
   * A newly completed payment adds one completed session and its amount to the
   * total; it adds its amount to the month's and the year's earnings exactly
   * when its date falls in the month or the year, and leaves the pending total alone.
   */
  lemma CompletedPaymentCounts(payments: seq<PaymentRow>, p: PaymentRow, time: Timestamp -> int, period: Period)
    requires p.status == PaymentStatus.Completed
    ensures var before := ComputeEarnings(payments, time, period);
            var after := ComputeEarnings(payments + [p], time, period);
            var date := time(PaymentDate(p));
            after.completedSessions == before.completedSessions + 1 &&
            after.totalEarnings == before.totalEarnings + p.amount &&
            after.thisMonthEarnings ==
              before.thisMonthEarnings + (if period.monthStart <= date <= period.monthEnd then p.amount else 0.0) &&
            after.thisYearEarnings ==
              before.thisYearEarnings + (if period.yearStart <= date <= period.yearEnd then p.amount else 0.0) &&
            after.pendingPayments == before.pendingPayments
  {
    var completed := Filter(payments, IsCompleted);
    FilterSnoc(payments, p, IsCompleted);
    assert Filter(payments + [p], IsCompleted) == completed + [p];
    FilterSnoc(payments, p, IsPending);
    assert Filter(payments + [p], IsPending) == Filter(payments, IsPending);
    SumBySnoc(completed, p, Amount);
    var inMonth := Within(time, period.monthStart, period.monthEnd);
    var inYear := Within(time, period.yearStart, period.yearEnd);
    FilterSumSnoc(completed, p, inMonth, Amount);
    FilterSumSnoc(completed, p, inYear, Amount);
  }

  /** With no payments at all every figure is zero. */
  lemma NoPaymentsEarnNothing(time: Timestamp -> int, period: Period)
    ensures ComputeEarnings([], time, period) == EarningsStats(0.0, 0.0, 0.0, 0, 0.0, 0.0)
  {
  }

  /** A pending payment adds its amount to the pending total and nothing to the earnings. */
  lemma PendingPaymentCounts(payments: seq<PaymentRow>, p: PaymentRow, time: Timestamp -> int, period: Period)
    requires p.status == PaymentStatus.Pending
    ensures var before := ComputeEarnings(payments, time, period);
            var after := ComputeEarnings(payments + [p], time, period);
            after.pendingPayments == before.pendingPayments + p.amount &&
            after.completedSessions == before.completedSessions &&
            after.totalEarnings == before.totalEarnings &&
            after.thisMonthEarnings == before.thisMonthEarnings &&
            after.thisYearEarnings == before.thisYearEarnings
  {
    var pending := Filter(payments, IsPending);
    FilterSnoc(payments, p, IsCompleted);
    assert Filter(payments + [p], IsCompleted) == Filter(payments, IsCompleted);
    FilterSnoc(payments, p, IsPending);
    assert Filter(payments + [p], IsPending) == pending + [p];
    SumBySnoc(pending, p, Amount);
  }

  /** Failed and refunded payments count towards no figure: adding one anywhere changes nothing. */
  lemma FailedAndRefundedIgnored(a: seq<PaymentRow>, p: PaymentRow, b: seq<PaymentRow>, time: Timestamp -> int, period: Period)
    requires p.status == PaymentStatus.Failed || p.status == PaymentStatus.Refunded
    ensures ComputeEarnings(a + [p] + b, time, period) == ComputeEarnings(a + b, time, period)
  {
    FilterSkip(a, p, b, IsCompleted);
    FilterSkip(a, p, b, IsPending);
  }

  /**
   * With no negative amount, and the month inside the year, the month's
   * earnings are at most the year's, and the year's at most the total.
   */
  lemma MonthWithinYearWithinTotal(payments: seq<PaymentRow>, time: Timestamp -> int, period: Period)
    requires forall k :: 0 <= k < |payments| ==> payments[k].amount >= 0.0
    requires period.yearStart <= period.monthStart && period.monthEnd <= period.yearEnd
    ensures var r := ComputeEarnings(payments, time, period);
            0.0 <= r.thisMonthEarnings <= r.thisYearEarnings <= r.totalEarnings
  {
    var completed := Filter(payments, IsCompleted);
    var inMonth := Within(time, period.monthStart, period.monthEnd);
    var inYear := Within(time, period.yearStart, period.yearEnd);
    assert forall x :: x in completed ==> Amount(x) >= 0.0;
    FilterFiltered(completed, inYear, inMonth);
    SumByFilterAtMost(Filter(completed, inYear), inMonth, Amount);
    SumByFilterAtMost(completed, inYear, Amount);
    SumByNonNegative(Filter(completed, inMonth), Amount);
  }

  /** With no completed payment every earnings figure is zero. */
  lemma NothingCompletedEarnsNothing(payments: seq<PaymentRow>, time: Timestamp -> int, period: Period)
    requires forall k :: 0 <= k < |payments| ==> payments[k].status != PaymentStatus.Completed
    ensures var r := ComputeEarnings(payments, time, period);
            r.totalEarnings == 0.0 && r.thisMonthEarnings == 0.0 && r.thisYearEarnings == 0.0 &&
            r.completedSessions == 0 && r.avgSessionRate == 0.0
  {
    FilterNone(payments, IsCompleted);
  }
}
