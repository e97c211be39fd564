/**
 * The administrator's review of tutor applications: loading them newest
 * first, the update an Approve or Reject button sends, the status tabs and
 * the applicant's display name.
 */
module AdminApplications {
  import opened Wrappers
  import opened Strings
  import opened Seqs
  import opened Schema

  /** The applicant's profile joined onto the application; the join may find none. */
  datatype ApplicantProfile = ApplicantProfile(firstName: Option<string>, lastName: Option<string>, email: Option<string>)

  /** An application as the page holds it: the `tutors` row and its profile. */
  datatype Application = Application(row: TutorRow, profile: Option<ApplicantProfile>)

  /** The `updates` object: the status, and the approval time and approver (`None` leaves a column out). */
  datatype TutorUpdate = TutorUpdate(status: TutorStatus, approvedAt: Option<Timestamp>, approvedBy: Option<Uuid>)

  /** The ordering key of `.order('created_at', { ascending: false })`: newer rows first. */
  function NewestFirst(time: Timestamp -> int): Application -> int {
    (a: Application) => -time(a.row.createdAt)
  }

  /**
   * `fetchApplications`: without the admin role row, or when the query fails,
   * the list stays as it was; otherwise it holds the fetched applications,
   * newest first.
   */
  function FetchApplications(current: seq<Application>, isAdmin: bool, fetched: Query<seq<Application>>,
                             time: Timestamp -> int): (r: seq<Application>)
    ensures !isAdmin || fetched.QueryError? ==> r == current
    ensures isAdmin && fetched.QueryOk? ==>
              multiset(r) == multiset(fetched.data) &&
              forall i, j :: 0 <= i < j < |r| ==> time(r[i].row.createdAt) >= time(r[j].row.createdAt)
  {
    if !isAdmin || fetched.QueryError? then current
    else
      var r := SortBy(fetched.data, NewestFirst(time));
      assert forall i, j :: 0 <= i < j < |r| ==> NewestFirst(time)(r[i]) <= NewestFirst(time)(r[j]);
      r
  }

  /**
   * `updateApplicationStatus`'s update: the status always; approving also
   * stamps the approval time and the acting admin. `now` is the current time.
   */
  method BuildUpdate(status: TutorStatus, now: Timestamp, adminId: Uuid) returns (u: TutorUpdate)
    ensures u.status == status
    ensures status == TutorStatus.Approved ==> u.approvedAt == Some(now) && u.approvedBy == Some(adminId)
    ensures status != TutorStatus.Approved ==> u.approvedAt.None? && u.approvedBy.None?
  {
    u := TutorUpdate(status, None, None);
    if status == TutorStatus.Approved {
      u := u.(approvedAt := Some(now), approvedBy := Some(adminId));
    }
  }

  /** The row after the store applies an update: the columns the update names change, no other. */
  function Apply(row: TutorRow, u: TutorUpdate): (r: TutorRow)
    ensures r.status == u.status
    ensures r.approvedAt == (if u.approvedAt.Some? then u.approvedAt else row.approvedAt)
    ensures r.approvedBy == (if u.approvedBy.Some? then u.approvedBy else row.approvedBy)
    ensures r.(status := row.status, approvedAt := row.approvedAt, approvedBy := row.approvedBy) == row
  {
    row.(status := u.status,
         approvedAt := if u.approvedAt.Some? then u.approvedAt else row.approvedAt,
         approvedBy := if u.approvedBy.Some? then u.approvedBy else row.approvedBy)
  }

  /** The statuses the Approve and Reject buttons offer: both for a pending application, none otherwise. */
  function OfferedStatuses(status: TutorStatus): (r: seq<TutorStatus>)
    ensures status == TutorStatus.Pending ==> r == [TutorStatus.Approved, TutorStatus.Rejected]
    ensures status != TutorStatus.Pending ==> r == []
  {
    if status == TutorStatus.Pending then [TutorStatus.Approved, TutorStatus.Rejected] else []
  }

  /**
   * Reviewing an application through one of its buttons: it must be pending;
   * approving records the approver and the time, rejecting changes only the
   * status, and every other column is kept.
   */
  method Review(row: TutorRow, status: TutorStatus, now: Timestamp, adminId: Uuid) returns (r: TutorRow)
    requires status in OfferedStatuses(row.status)
    ensures row.status == TutorStatus.Pending
    ensures r.status == status
    ensures status == TutorStatus.Approved ==>
              r == row.(status := TutorStatus.Approved, approvedAt := Some(now), approvedBy := Some(adminId))
    ensures status == TutorStatus.Rejected ==> r == row.(status := TutorStatus.Rejected)
    ensures r.userId == row.userId && r.id == row.id && r.createdAt == row.createdAt
  {
    var u := BuildUpdate(status, now, adminId);
    r := Apply(row, u);
  }

  /** No button moves an application that is not pending, and none leads back to pending. */
  lemma OnlyPendingIsReviewed(from: TutorStatus, to: TutorStatus)
    requires to in OfferedStatuses(from)
    ensures from == TutorStatus.Pending && to != TutorStatus.Pending
  {
  }

  function StatusNamed(key: string): Application -> bool {
    (a: Application) => a.row.status.Name() == key
  }

  /** `filterApplications`: everything for `all`, otherwise the applications whose status name is the key, in order. */
  function FilterApplications(apps: seq<Application>, key: string): (r: seq<Application>)
    ensures Subseq(r, apps)
    ensures key == "all" ==> r == apps
    ensures key != "all" ==> forall a :: a in r <==> a in apps && a.row.status.Name() == key
  {
    if key == "all" then
      SubseqRefl(apps);
      apps
    else
      FilterMembers(apps, StatusNamed(key));
      FilterSubseq(apps, StatusNamed(key));
      Filter(apps, StatusNamed(key))
  }

  /** An unknown status key shows nothing. */
  lemma UnknownKeyShowsNothing(apps: seq<Application>, key: string)
    requires key != "all" && !(key in TutorStatusValues)
    ensures FilterApplications(apps, key) == []
  {
    forall a | a in apps ensures !StatusNamed(key)(a) {
      assert a.row.status.Name() in TutorStatusValues;
    }
    FilterNone(apps, StatusNamed(key));
  }

  /** The pending, approved and rejected tabs together hold at most the `All` tab's count. */
  lemma {:induction false} TabCountsWithinAll(apps: seq<Application>)
    ensures |FilterApplications(apps, "pending")| + |FilterApplications(apps, "approved")| +
            |FilterApplications(apps, "rejected")| <= |FilterApplications(apps, "all")|
  {
    if apps != [] {
      TabCountsWithinAll(apps[1..]);
    }
  }

  /** `getTutorName`: the applicant's trimmed full name, or `Tutor`. */
  function TutorName(a: Application): (r: string)
    ensures r != []
    ensures a.profile.None? ==> r == "Tutor"
    ensures a.profile.Some? && !IsBlank(FullName(a.profile.value.firstName, a.profile.value.lastName)) ==> r == Trim(FullName(a.profile.value.firstName, a.profile.value.lastName))
    ensures a.profile.Some? && IsBlank(FullName(a.profile.value.firstName, a.profile.value.lastName)) ==> r == "Tutor"
  {
    DisplayNameMissing("Tutor");
    if a.profile.Some? then DisplayName(a.profile.value.firstName, a.profile.value.lastName, "Tutor")
    else DisplayName(None, None, "Tutor")
  }
}
