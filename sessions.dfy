/**
 * The learner's session list: joining each session with its tutor's profile,
 * normalising the embedded payment, the paid test and the pay-now guard, the
 * status tabs and the tutor's display name.
 */
module Sessions {
  import opened Wrappers
  import opened Strings
  import opened Seqs
  import opened Schema

  /** The payment columns the session query embeds. */
  datatype PaymentInfo = PaymentInfo(status: PaymentStatus, amount: real)

  /** A tutor profile as the profiles query returns it. */
  datatype TutorProfile = TutorProfile(userId: Uuid, firstName: Option<string>, lastName: Option<string>, avatarUrl: Option<string>)

  /** A session as the query returns it: the row, its tutor's user id and rate, and the embedded payments. */
  datatype FetchedSession = FetchedSession(row: SessionRow, tutorUserId: Uuid, hourlyRate: real, payment: Embedded<PaymentInfo>)

  /** A session as the page holds it: the tutor's profile joined on, the payment a single object or null. */
  datatype LearnerSession = LearnerSession(row: SessionRow, tutorUserId: Uuid, hourlyRate: real,
                                           profile: Option<TutorProfile>, payment: Option<PaymentInfo>)

  /** `Array.isArray(p) ? p[0] || null : p`: an array becomes its first element, or null when empty. */
  function NormalisePayment(e: Embedded<PaymentInfo>): (r: Option<PaymentInfo>)
    ensures e.Missing? ==> r.None?
    ensures e.Single? ==> r == Some(e.item)
    ensures e.Several? ==> (r.None? <==> e.items == []) && (r.Some? ==> r.value == e.items[0])
  {
    match e
    case Missing => None
    case Single(p) => Some(p)
    case Several(items) => if items == [] then None else Some(items[0])
  }

  function OfUser(userId: Uuid): TutorProfile -> bool {
    (p: TutorProfile) => p.userId == userId
  }

  /** `profiles.find(p => p.user_id === userId) || null`: the first profile of the user, or none. */
  function FirstWithUser(profiles: seq<TutorProfile>, userId: Uuid): (r: Option<TutorProfile>)
    ensures r.None? <==> forall p :: p in profiles ==> p.userId != userId
    ensures r.Some? ==> exists i :: 0 <= i < |profiles| && profiles[i] == r.value && r.value.userId == userId &&
                                    forall j :: 0 <= j < i ==> profiles[j].userId != userId
  {
    Find(profiles, OfUser(userId))
  }

  /** `data.map(s => s.tutor?.user_id).filter(Boolean)`: the non-empty tutor user ids, in order. */
  function TutorUserIds(data: seq<FetchedSession>): (r: seq<Uuid>)
    ensures forall k :: 0 <= k < |data| && data[k].tutorUserId != "" ==> data[k].tutorUserId in r
    ensures forall id :: id in r ==> id != "" && exists k :: 0 <= k < |data| && data[k].tutorUserId == id
  {
    if data == [] then []
    else
      var rest := TutorUserIds(data[1..]);
      assert forall k :: 1 <= k < |data| ==> data[k] == data[1..][k - 1];
      (if data[0].tutorUserId != "" then [data[0].tutorUserId] else []) + rest
  }

  function UserIn(ids: seq<Uuid>): TutorProfile -> bool {
    (p: TutorProfile) => p.userId in ids
  }

  /**
   * The profiles the page joins on: none when there are no tutor ids or the
   * profiles query fails; otherwise the table's profiles whose user id is one
   * of the ids (`.in('user_id', ids)`).
   */
  function ProfilesData(ids: seq<Uuid>, table: Query<seq<TutorProfile>>): (r: seq<TutorProfile>)
    ensures ids == [] || table.QueryError? ==> r == []
    ensures forall p :: p in r ==> p.userId in ids
    ensures ids != [] && table.QueryOk? ==> forall p :: p in r <==> p in table.data && p.userId in ids
  {
    if ids == [] || table.QueryError? then []
    else
      FilterMembers(table.data, UserIn(ids));
      Filter(table.data, UserIn(ids))
  }

  /** The profile lookup over the restricted query finds what a lookup over the whole table finds, for an id it was asked about. */
  lemma LookupThroughQuery(table: seq<TutorProfile>, ids: seq<Uuid>, userId: Uuid)
    requires userId in ids
    ensures FirstWithUser(Filter(table, UserIn(ids)), userId) == FirstWithUser(table, userId)
  {
    FindFiltered(table, UserIn(ids), OfUser(userId));
  }

  /** One session as `fetchSessions` stores it. */
  function Merge(s: FetchedSession, profiles: seq<TutorProfile>): (r: LearnerSession)
    ensures r.row == s.row && r.tutorUserId == s.tutorUserId && r.hourlyRate == s.hourlyRate
    ensures r.profile == FirstWithUser(profiles, s.tutorUserId)
    ensures r.payment == NormalisePayment(s.payment)
  {
    LearnerSession(s.row, s.tutorUserId, s.hourlyRate, FirstWithUser(profiles, s.tutorUserId), NormalisePayment(s.payment))
  }

  /**
   * `fetchSessions`: when the session query fails the list stays as it was;
   * otherwise every fetched session, in order, with its tutor's profile and
   * its payment normalised.
   */
  function FetchSessions(current: seq<LearnerSession>, fetched: Query<seq<FetchedSession>>,
                         profileTable: Query<seq<TutorProfile>>): (r: seq<LearnerSession>)
    ensures fetched.QueryError? ==> r == current
    ensures fetched.QueryOk? ==> |r| == |fetched.data|
    ensures fetched.QueryOk? ==> forall i :: 0 <= i < |r| ==>
              r[i] == Merge(fetched.data[i], ProfilesData(TutorUserIds(fetched.data), profileTable))
  {
    if fetched.QueryError? then current
    else
      var profiles := ProfilesData(TutorUserIds(fetched.data), profileTable);
      seq(|fetched.data|, i requires 0 <= i < |fetched.data| => Merge(fetched.data[i], profiles))
  }

  /**
   * A session whose tutor has a user id gets the first profile of that user in
   * the whole profiles table, whenever the profiles query succeeds.
   */
  lemma FetchedProfileIsTablesFirst(fetched: seq<FetchedSession>, table: seq<TutorProfile>, i: nat)
    requires i < |fetched| && fetched[i].tutorUserId != ""
    ensures FetchSessions([], QueryOk(fetched), QueryOk(table))[i].profile == FirstWithUser(table, fetched[i].tutorUserId)
  {
    var ids := TutorUserIds(fetched);
    assert fetched[i].tutorUserId in ids;
    LookupThroughQuery(table, ids, fetched[i].tutorUserId);
  }

  /** A failed profiles query leaves every tutor without a profile but keeps every session. */
  lemma FailedProfilesKeepSessions(fetched: seq<FetchedSession>, i: nat)
    requires i < |fetched|
    ensures FetchSessions([], QueryOk(fetched), QueryError)[i].profile.None?
    ensures FetchSessions([], QueryOk(fetched), QueryError)[i].row == fetched[i].row
  {
  }

  /** `isPaid`: a payment exists and its stored status is `completed`. */
  function IsPaid(s: LearnerSession): (r: bool)
    ensures r <==> s.payment.Some? && s.payment.value.status.Name() == "completed"
  {
    s.payment.Some? && s.payment.value.status == PaymentStatus.Completed
  }

  /** The `Pay Now` button and the `Payment Required` badge: a session whose stored status is `scheduled` and that is not paid. */
  function NeedsPayment(s: LearnerSession): (r: bool)
    ensures r <==> s.row.status.Name() == "scheduled" && !IsPaid(s)
  {
    s.row.status == SessionStatus.Scheduled && !IsPaid(s)
  }

  /**
   * Payment is asked for only on scheduled sessions, never on a paid one; a
   * scheduled session with no payment, or with only an uncompleted one, asks.
   */
  lemma PayNowGuard(s: LearnerSession)
    ensures NeedsPayment(s) ==> s.row.status == SessionStatus.Scheduled
    ensures IsPaid(s) ==> !NeedsPayment(s)
    ensures s.row.status == SessionStatus.Scheduled && (s.payment.None? || s.payment.value.status != PaymentStatus.Completed) ==> NeedsPayment(s)
  {
  }

  /** Only the first embedded payment decides: one completed payment after a failed one leaves the session unpaid. */
  lemma OnlyFirstPaymentCounts(f: FetchedSession, profiles: seq<TutorProfile>, first: PaymentInfo, later: PaymentInfo)
    requires first.status == PaymentStatus.Failed && later.status == PaymentStatus.Completed
    ensures !IsPaid(Merge(f.(payment := Several([first, later])), profiles))
  {
  }

  /** The status a tab key filters on; `in_progress` has no tab here and, like any unknown key, shows everything. */
  function TabStatus(key: string): (r: Option<SessionStatus>)
    ensures key == "upcoming" ==> r == Some(SessionStatus.Scheduled)
    ensures key == "completed" ==> r == Some(SessionStatus.Completed)
    ensures key == "cancelled" ==> r == Some(SessionStatus.Cancelled)
    ensures !(key in ["upcoming", "completed", "cancelled"]) ==> r.None?
  {
    if key == "upcoming" then Some(SessionStatus.Scheduled)
    else if key == "completed" then Some(SessionStatus.Completed)
    else if key == "cancelled" then Some(SessionStatus.Cancelled)
    else None
  }

  function HasStatus(status: SessionStatus): LearnerSession -> bool {
    (s: LearnerSession) => s.row.status == status
  }

  /** `filterSessions`: the sessions with the tab's status, in order, or all of them for any other key. */
  function FilterSessions(sessions: seq<LearnerSession>, key: string): (r: seq<LearnerSession>)
    ensures Subseq(r, sessions)
    ensures TabStatus(key).None? ==> r == sessions
    ensures TabStatus(key).Some? ==> forall s :: s in r <==> s in sessions && s.row.status == TabStatus(key).value
  {
    if TabStatus(key).None? then
      SubseqRefl(sessions);
      sessions
    else
      FilterMembers(sessions, HasStatus(TabStatus(key).value));
      FilterSubseq(sessions, HasStatus(TabStatus(key).value));
      Filter(sessions, HasStatus(TabStatus(key).value))
  }

  /** In-progress sessions appear under no status tab, only under `all`. */
  lemma InProgressOnlyUnderAll(sessions: seq<LearnerSession>, s: LearnerSession)
    requires s in sessions && s.row.status == SessionStatus.InProgress
    ensures s in FilterSessions(sessions, "all")
    ensures s !in FilterSessions(sessions, "upcoming") && s !in FilterSessions(sessions, "completed") &&
            s !in FilterSessions(sessions, "cancelled")
  {
  }

  /** `getTutorName`: the tutor's trimmed full name, or `Tutor`. */
  function TutorName(s: LearnerSession): (r: string)
    ensures r != []
    ensures s.profile.None? ==> r == "Tutor"
    ensures s.profile.Some? && !IsBlank(FullName(s.profile.value.firstName, s.profile.value.lastName)) ==> r == Trim(FullName(s.profile.value.firstName, s.profile.value.lastName))
    ensures s.profile.Some? && IsBlank(FullName(s.profile.value.firstName, s.profile.value.lastName)) ==> r == "Tutor"
  {
    DisplayNameMissing("Tutor");
    if s.profile.Some? then DisplayName(s.profile.value.firstName, s.profile.value.lastName, "Tutor")
    else DisplayName(None, None, "Tutor")
  }
}
