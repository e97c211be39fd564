/**
 * The tutor's session list: the status update a button sends, the buttons
 * that offer it, the status tabs and the learner's display name.
 */
module TeachingSessions {
  import opened Wrappers
  import opened Strings
  import opened Seqs
  import opened Schema

  /** The learner profile joined onto a session; the join may find none. */
  datatype LearnerProfile = LearnerProfile(firstName: Option<string>, lastName: Option<string>, avatarUrl: Option<string>)

  /** A session as the page holds it: the row and its learner's profile. */
  datatype TeachingSession = TeachingSession(row: SessionRow, learner: Option<LearnerProfile>)

  /**
   * The `updates` object sent to the store: the status, and the actual start or
   * end time when the update sets that column (`None` leaves it out).
   */
  datatype SessionUpdate = SessionUpdate(status: SessionStatus, actualStart: Option<Timestamp>, actualEnd: Option<Timestamp>)

  /**
   * `updateSessionStatus`'s update: the status always; moving to `in_progress`
   * also stamps the actual start, moving to `completed` the actual end, and no
   * update stamps both. `now` is the current time as an ISO string.
   */
  method BuildUpdate(status: SessionStatus, now: Timestamp) returns (u: SessionUpdate)
    ensures u.status == status
    ensures u.actualStart == (if status == SessionStatus.InProgress then Some(now) else None)
    ensures u.actualEnd == (if status == SessionStatus.Completed then Some(now) else None)
    ensures u.actualStart.None? || u.actualEnd.None?
  {
    u := SessionUpdate(status, None, None);
    if status == SessionStatus.InProgress {
      u := u.(actualStart := Some(now));
    } else if status == SessionStatus.Completed {
      u := u.(actualEnd := Some(now));
    }
  }

  /** The row after the store applies an update: the columns the update names change, no other. */
  function Apply(row: SessionRow, u: SessionUpdate): (r: SessionRow)
    ensures r.status == u.status
    ensures r.actualStart == (if u.actualStart.Some? then u.actualStart else row.actualStart)
    ensures r.actualEnd == (if u.actualEnd.Some? then u.actualEnd else row.actualEnd)
    ensures r.(status := row.status, actualStart := row.actualStart, actualEnd := row.actualEnd) == row
  {
    row.(status := u.status,
         actualStart := if u.actualStart.Some? then u.actualStart else row.actualStart,
         actualEnd := if u.actualEnd.Some? then u.actualEnd else row.actualEnd)
  }

  /** The status the card's button moves a session to: Start for scheduled, Complete for in-progress, none otherwise. */
  function OfferedStatus(status: SessionStatus): (r: Option<SessionStatus>)
    ensures r.Some? <==> status == SessionStatus.Scheduled || status == SessionStatus.InProgress
  {
    match status
    case Scheduled => Some(SessionStatus.InProgress)
    case InProgress => Some(SessionStatus.Completed)
    case _ => None
  }

  /** The transitions the buttons offer lead from scheduled to in progress to completed, and never back. */
  predicate Offered(from: SessionStatus, to: SessionStatus) {
    OfferedStatus(from) == Some(to)
  }

  lemma OfferedTransitions(from: SessionStatus, to: SessionStatus)
    ensures Offered(from, to) <==>
              (from == SessionStatus.Scheduled && to == SessionStatus.InProgress) ||
              (from == SessionStatus.InProgress && to == SessionStatus.Completed)
  {
  }

  /** Completed and cancelled sessions offer no action. */
  lemma FinishedSessionsAreFinal(to: SessionStatus)
    ensures !Offered(SessionStatus.Completed, to) && !Offered(SessionStatus.Cancelled, to)
  {
  }

  /**
   * Starting and then completing a scheduled session leaves it completed with
   * the start stamped by the first update and the end by the second, and every
   * other column as it was.
   */
  method StartThenComplete(row: SessionRow, started: Timestamp, ended: Timestamp) returns (r: SessionRow)
    requires row.status == SessionStatus.Scheduled
    ensures r.status == SessionStatus.Completed
    ensures r.actualStart == Some(started) && r.actualEnd == Some(ended)
    ensures r == row.(status := SessionStatus.Completed, actualStart := Some(started), actualEnd := Some(ended))
  {
    var next := OfferedStatus(row.status).value;
    var u := BuildUpdate(next, started);
    var mid := Apply(row, u);
    var last := OfferedStatus(mid.status).value;
    var v := BuildUpdate(last, ended);
    r := Apply(mid, v);
  }

  /** The status a tab key filters on: `upcoming` is scheduled; an unknown key filters on nothing. */
  function TabStatus(key: string): (r: Option<SessionStatus>)
    ensures key == "upcoming" ==> r == Some(SessionStatus.Scheduled)
    ensures key in ["in_progress", "completed", "cancelled"] ==> r.Some? && r.value.Name() == key
    ensures !(key in ["upcoming", "in_progress", "completed", "cancelled"]) ==> r.None?
  {
    if key == "upcoming" then Some(SessionStatus.Scheduled)
    else if key == "in_progress" then Some(SessionStatus.InProgress)
    else if key == "completed" then Some(SessionStatus.Completed)
    else if key == "cancelled" then Some(SessionStatus.Cancelled)
    else None
  }

  function HasStatus(status: SessionStatus): TeachingSession -> bool {
    (s: TeachingSession) => s.row.status == status
  }

  /**
   * `filterSessions`: the sessions with the tab's status, in their order, or
   * all of them for an unknown key.
   */
  function FilterSessions(sessions: seq<TeachingSession>, key: string): (r: seq<TeachingSession>)
    ensures Subseq(r, sessions)
    ensures TabStatus(key).None? ==> r == sessions
    ensures TabStatus(key).Some? ==> forall s :: s in r <==> s in sessions && s.row.status == TabStatus(key).value
  {
    if TabStatus(key).None? then
      SubseqRefl(sessions);
      sessions
    else
      FilterMembers(sessions, HasStatus(TabStatus(key).value));
      FilterSubseq(sessions, HasStatus(TabStatus(key).value));
      Filter(sessions, HasStatus(TabStatus(key).value))
  }

  /** Every session has exactly one of the four statuses, so the four status filters split the list. */
  lemma {:induction false} StatusCountsPartition(sessions: seq<TeachingSession>)
    ensures |Filter(sessions, HasStatus(SessionStatus.Scheduled))| + |Filter(sessions, HasStatus(SessionStatus.InProgress))| +
            |Filter(sessions, HasStatus(SessionStatus.Completed))| + |Filter(sessions, HasStatus(SessionStatus.Cancelled))| == |sessions|
  {
    if sessions != [] {
      StatusCountsPartition(sessions[1..]);
    }
  }

  /** The four tab counts add up to the number of sessions: every session sits in exactly one tab. */
  lemma TabCountsPartition(sessions: seq<TeachingSession>)
    ensures |FilterSessions(sessions, "upcoming")| + |FilterSessions(sessions, "in_progress")| +
            |FilterSessions(sessions, "completed")| + |FilterSessions(sessions, "cancelled")| == |sessions|
  {
    assert TabStatus("upcoming") == Some(SessionStatus.Scheduled);
    assert TabStatus("in_progress") == Some(SessionStatus.InProgress);
    assert TabStatus("completed") == Some(SessionStatus.Completed);
    assert TabStatus("cancelled") == Some(SessionStatus.Cancelled);
    StatusCountsPartition(sessions);
  }

  /** `getStudentName`: the learner's trimmed full name, or `Student`. */
  function StudentName(s: TeachingSession): (r: string)
    ensures r != []
    ensures s.learner.None? ==> r == "Student"
    ensures s.learner.Some? && !IsBlank(FullName(s.learner.value.firstName, s.learner.value.lastName)) ==> r == Trim(FullName(s.learner.value.firstName, s.learner.value.lastName))
    ensures s.learner.Some? && IsBlank(FullName(s.learner.value.firstName, s.learner.value.lastName)) ==> r == "Student"
  {
    DisplayNameMissing("Student");
    if s.learner.Some? then DisplayName(s.learner.value.firstName, s.learner.value.lastName, "Student")
    else DisplayName(None, None, "Student")
  }
}
