/**
 * The administrator dashboard: the platform counts `fetchAdminStats` derives
 * from the fetched rows, and the guarded ratios the dashboard shows. Every
 * query result is a `Query`: an error, or the rows (a null data field is the
 * empty list, which every count and sum treats alike).
 */
module Admin {
  import opened Wrappers
  import opened Seqs
  import opened Schema

  /** The dashboard figures. */
  datatype AdminStats = AdminStats(
    totalUsers: nat,
    totalTutors: nat,
    pendingApplications: nat,
    approvedTutors: nat,
    totalSessions: nat,
    completedSessions: nat,
    totalRevenue: real,
    thisMonthRevenue: real)

  /** The figures shown before the first fetch completes. */
  const InitialStats: AdminStats := AdminStats(0, 0, 0, 0, 0, 0, 0.0, 0.0)

  predicate IsPendingTutor(t: TutorStatus) {
    t == TutorStatus.Pending
  }

  predicate IsApprovedTutor(t: TutorStatus) {
    t == TutorStatus.Approved
  }

  predicate IsCompletedSession(s: SessionStatus) {
    s == SessionStatus.Completed
  }

  predicate IsCompletedPayment(p: PaymentRow) {
    p.status == PaymentStatus.Completed
  }

  function Amount(p: PaymentRow): real {
    p.amount
  }

  /** `new Date(p.created_at) >= thisMonth`, with `time` reading a timestamp as an instant. */
  function CreatedSince(time: Timestamp -> int, cutoff: int): PaymentRow -> bool {
    (p: PaymentRow) => time(p.createdAt) >= cutoff
  }

  /** The payments query `.eq('status', 'completed')`: the store returns only completed rows, in table order. */
  function CompletedPayments(table: seq<PaymentRow>): (r: seq<PaymentRow>)
    ensures forall p :: p in r <==> p in table && p.status == PaymentStatus.Completed
  {
    FilterMembers(table, IsCompletedPayment);
    Filter(table, IsCompletedPayment)
  }

  /**
   * The figures computed from four successful queries (`userCount || 0` for a
   * null count); the revenue figures sum what the completed-payments query
   * returns from the payments table.
   */
  function Compute(userCount: Option<nat>, tutors: seq<TutorStatus>, sessions: seq<SessionStatus>,
                   table: seq<PaymentRow>, time: Timestamp -> int, cutoff: int): (r: AdminStats)
    ensures r.totalUsers == (if userCount.Some? then userCount.value else 0)
    ensures r.totalTutors == |tutors| && r.totalSessions == |sessions|
    ensures r.pendingApplications == multiset(tutors)[TutorStatus.Pending]
    ensures r.approvedTutors == multiset(tutors)[TutorStatus.Approved]
    ensures r.completedSessions == multiset(sessions)[SessionStatus.Completed]
    ensures r.pendingApplications + r.approvedTutors <= r.totalTutors
    ensures r.completedSessions <= r.totalSessions
  {
    FilterDisjoint(tutors, IsPendingTutor, IsApprovedTutor);
    FilterEqualCount(tutors, IsPendingTutor, TutorStatus.Pending);
    FilterEqualCount(tutors, IsApprovedTutor, TutorStatus.Approved);
    FilterEqualCount(sessions, IsCompletedSession, SessionStatus.Completed);
    var payments := CompletedPayments(table);
    AdminStats(
      userCount.GetOr(0),
      |tutors|,
      |Filter(tutors, IsPendingTutor)|,
      |Filter(tutors, IsApprovedTutor)|,
      |sessions|,
      |Filter(sessions, IsCompletedSession)|,
      SumBy(payments, Amount),
      SumBy(Filter(payments, CreatedSince(time, cutoff)), Amount))
  }

  /**
   * `fetchAdminStats`: without the admin role row, or when any query fails,
   * the figures stay as they were; otherwise they are recomputed from the
   * fetched rows. `table` is the payments table the completed-payments query
   * reads.
   */
  function FetchAdminStats(current: AdminStats, isAdmin: bool, userCount: Query<Option<nat>>,
                           tutors: Query<seq<TutorStatus>>, sessions: Query<seq<SessionStatus>>,
                           table: Query<seq<PaymentRow>>, time: Timestamp -> int, cutoff: int): (r: AdminStats)
    ensures !isAdmin ==> r == current
    ensures userCount.QueryError? || tutors.QueryError? || sessions.QueryError? || table.QueryError? ==> r == current
    ensures isAdmin && userCount.QueryOk? && tutors.QueryOk? && sessions.QueryOk? && table.QueryOk? ==>
              r == Compute(userCount.data, tutors.data, sessions.data, table.data, time, cutoff)
  {
    if !isAdmin then current
    else if userCount.QueryError? || tutors.QueryError? || sessions.QueryError? || table.QueryError? then current
    else Compute(userCount.data, tutors.data, sessions.data, table.data, time, cutoff)
  }

  /**
   * The figures agree with each other: the two tutor classes fit in the tutor
   * count, completed sessions in the session count, and the month's revenue
   * lies between zero and the total.
   */
  predicate Consistent(s: AdminStats) {
    s.pendingApplications + s.approvedTutors <= s.totalTutors &&
    s.completedSessions <= s.totalSessions &&
    0.0 <= s.thisMonthRevenue <= s.totalRevenue
  }

  /** No amount is negative. */
  predicate NonNegativeAmounts(payments: seq<PaymentRow>) {
    forall k :: 0 <= k < |payments| ==> payments[k].amount >= 0.0
  }

  lemma InitialStatsConsistent()
    ensures Consistent(InitialStats)
  {
  }

  /** The month's revenue never exceeds the total, and neither is negative, when no amount is. */
  lemma MonthRevenueWithinTotal(payments: seq<PaymentRow>, time: Timestamp -> int, cutoff: int)
    requires NonNegativeAmounts(payments)
    ensures 0.0 <= SumBy(Filter(payments, CreatedSince(time, cutoff)), Amount) <= SumBy(payments, Amount)
  {
    var month := Filter(payments, CreatedSince(time, cutoff));
    assert forall p :: p in payments ==> Amount(p) >= 0.0;
    SumByFilterAtMost(payments, CreatedSince(time, cutoff), Amount);
    SumByNonNegative(month, Amount);
  }

  /** A fetch keeps the figures consistent, whatever its outcome, as long as no amount is negative. */
  lemma FetchKeepsConsistent(current: AdminStats, isAdmin: bool, userCount: Query<Option<nat>>,
                             tutors: Query<seq<TutorStatus>>, sessions: Query<seq<SessionStatus>>,
                             table: Query<seq<PaymentRow>>, time: Timestamp -> int, cutoff: int)
    requires Consistent(current)
    requires table.QueryOk? ==> NonNegativeAmounts(table.data)
    ensures Consistent(FetchAdminStats(current, isAdmin, userCount, tutors, sessions, table, time, cutoff))
  {
    if table.QueryOk? {
      var payments := CompletedPayments(table.data);
      assert NonNegativeAmounts(payments) by {
        forall k | 0 <= k < |payments| ensures payments[k].amount >= 0.0 {
          assert payments[k] in table.data;
        }
      }
      MonthRevenueWithinTotal(payments, time, cutoff);
    }
  }

  /** Revenue counts completed payments only: a pending, failed or refunded row anywhere in the table changes nothing. */
  lemma RevenueIgnoresUncompleted(userCount: Option<nat>, tutors: seq<TutorStatus>, sessions: seq<SessionStatus>,
                                  a: seq<PaymentRow>, p: PaymentRow, b: seq<PaymentRow>, time: Timestamp -> int, cutoff: int)
    requires p.status != PaymentStatus.Completed
    ensures Compute(userCount, tutors, sessions, a + [p] + b, time, cutoff) == Compute(userCount, tutors, sessions, a + b, time, cutoff)
  {
    FilterSkip(a, p, b, IsCompletedPayment);
  }

  /** With an empty payments table both revenue figures are zero. */
  lemma NoPaymentsNoRevenue(userCount: Option<nat>, tutors: seq<TutorStatus>, sessions: seq<SessionStatus>,
                            time: Timestamp -> int, cutoff: int)
    ensures Compute(userCount, tutors, sessions, [], time, cutoff).totalRevenue == 0.0
    ensures Compute(userCount, tutors, sessions, [], time, cutoff).thisMonthRevenue == 0.0
  {
  }

  /**
   * A completed payment added to the table adds its amount to the total
   * revenue, and to the month's revenue exactly when it was created at or after
   * `cutoff` (day 1 of the current month at the current clock time, as
   * `setDate(1)` leaves it); the counts stay as they were.
   */
  lemma CompletedPaymentRevenue(userCount: Option<nat>, tutors: seq<TutorStatus>, sessions: seq<SessionStatus>,
                                table: seq<PaymentRow>, p: PaymentRow, time: Timestamp -> int, cutoff: int)
    requires p.status == PaymentStatus.Completed
    ensures var before := Compute(userCount, tutors, sessions, table, time, cutoff);
            var after := Compute(userCount, tutors, sessions, table + [p], time, cutoff);
            after.totalRevenue == before.totalRevenue + p.amount &&
            after.thisMonthRevenue == before.thisMonthRevenue + (if time(p.createdAt) >= cutoff then p.amount else 0.0) &&
            after.(totalRevenue := before.totalRevenue, thisMonthRevenue := before.thisMonthRevenue) == before
  {
    RevenueSnoc(table, p, time, cutoff);
  }

  /** The two revenue sums over a table extended by a completed payment. */
  lemma RevenueSnoc(table: seq<PaymentRow>, p: PaymentRow, time: Timestamp -> int, cutoff: int)
    requires p.status == PaymentStatus.Completed
    ensures SumBy(CompletedPayments(table + [p]), Amount) == SumBy(CompletedPayments(table), Amount) + p.amount
    ensures SumBy(Filter(CompletedPayments(table + [p]), CreatedSince(time, cutoff)), Amount) ==
            SumBy(Filter(CompletedPayments(table), CreatedSince(time, cutoff)), Amount) +
            (if time(p.createdAt) >= cutoff then p.amount else 0.0)
  {
    var payments := CompletedPayments(table);
    FilterSnoc(table, p, IsCompletedPayment);
    assert CompletedPayments(table + [p]) == payments + [p];
    SumBySnoc(payments, p, Amount);
    FilterSumSnoc(payments, p, CreatedSince(time, cutoff), Amount);
    assert CreatedSince(time, cutoff)(p) == (time(p.createdAt) >= cutoff);
  }

  /** `Math.max(total, 1)`. */
  function AtLeastOne(n: nat): (r: nat)
    ensures r >= 1 && r >= n
    ensures n >= 1 ==> r == n
  {
    if n > 1 then n else 1
  }

  /** The completion-rate line: a percentage when there are sessions, else "No sessions yet" (`None`). */
  function CompletionRate(s: AdminStats): (r: Option<real>)
    ensures r.Some? <==> s.totalSessions > 0
  {
    if s.totalSessions > 0 then Some(s.completedSessions as real / s.totalSessions as real * 100.0) else None
  }

  /** The revenue line: the average per completed session, else "No revenue yet" (`None`). */
  function AverageRevenue(s: AdminStats): (r: Option<real>)
    ensures r.Some? <==> s.completedSessions > 0
    ensures r.Some? ==> r.value * s.completedSessions as real == s.totalRevenue
  {
    if s.completedSessions > 0 then Some(s.totalRevenue / s.completedSessions as real) else None
  }

  /** The session success rate: completed over `max(total, 1)`, as a percentage. */
  function SuccessRate(s: AdminStats): (r: real)
    ensures s.totalSessions == 0 ==> r == s.completedSessions as real * 100.0
  {
    s.completedSessions as real / AtLeastOne(s.totalSessions) as real * 100.0
  }

  /** The student-to-tutor ratio: users per approved tutor, or 0 with no approved tutor. */
  function StudentTutorRatio(s: AdminStats): (r: real)
    ensures s.approvedTutors == 0 ==> r == 0.0
    ensures s.approvedTutors > 0 ==> r * s.approvedTutors as real == s.totalUsers as real
  {
    if s.approvedTutors > 0 then s.totalUsers as real / s.approvedTutors as real else 0.0
  }

  /**
   * `Platform Active` needs both users and approved tutors; otherwise the
   * dashboard says `Needs Tutors`. The platform shows as active exactly when the
   * unrounded student-to-tutor ratio is positive; the rounded ratio beside it
   * can read `0:1`.
   */
  function PlatformActive(s: AdminStats): (r: bool)
    ensures r <==> StudentTutorRatio(s) > 0.0
  {
    if s.approvedTutors > 0 then
      var q := StudentTutorRatio(s);
      assert q * s.approvedTutors as real == s.totalUsers as real;
      s.totalUsers > 0
    else
      false
  }

  /** On consistent figures both session percentages lie in [0, 100]. */
  lemma RatesArePercentages(s: AdminStats)
    requires Consistent(s)
    ensures CompletionRate(s).Some? ==> 0.0 <= CompletionRate(s).value <= 100.0
    ensures 0.0 <= SuccessRate(s) <= 100.0
  {
    PercentageBound(s.completedSessions, AtLeastOne(s.totalSessions));
  }

  /** A part of a positive whole is between 0% and 100% of it. */
  lemma PercentageBound(part: nat, whole: nat)
    requires part <= whole && whole > 0
    ensures 0.0 <= part as real / whole as real * 100.0 <= 100.0
  {
    var q := part as real / whole as real;
    assert q * whole as real == part as real;
  }

  /** With sessions to count, the success rate is the completion rate; with none, it is 0%. */
  lemma SuccessRateMatchesCompletionRate(s: AdminStats)
    requires Consistent(s)
    ensures s.totalSessions > 0 ==> CompletionRate(s) == Some(SuccessRate(s))
    ensures s.totalSessions == 0 ==> SuccessRate(s) == 0.0
  {
  }
}
