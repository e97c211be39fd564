/**
 * The calendar's session list: the sessions the user takes as a learner merged
 * with those the user teaches, de-duplicated by id; the sessions of one day;
 * and the name of the other participant. The session shape and the merge are
 * shared with the conversation list.
 */
module Calendar {
  import opened Wrappers
  import opened Strings
  import opened Seqs
  import opened Schema

  /** A joined profile's names; either may be missing. */
  datatype NameProfile = NameProfile(firstName: Option<string>, lastName: Option<string>)

  /**
   * A session as the learner and tutor queries return it: the row, the
   * learner's and the tutor's profile when that query joins them, and the
   * tutor's user id when the query joins the tutor.
   */
  datatype ParticipantSession = ParticipantSession(
    row: SessionRow,
    learnerProfile: Option<NameProfile>,
    tutorProfile: Option<NameProfile>,
    tutorUserId: Option<Uuid>)

  function SessionId(s: ParticipantSession): Uuid {
    s.row.id
  }

  /**
   * The sessions the user teaches: none unless the tutor lookup found the
   * user's tutor row, and none when that query fails.
   */
  function TutorSessions(tutorId: Option<Uuid>, taught: Query<seq<ParticipantSession>>): (r: seq<ParticipantSession>)
    ensures tutorId.None? || taught.QueryError? ==> r == []
    ensures tutorId.Some? && taught.QueryOk? ==> r == taught.data
  {
    if tutorId.Some? && taught.QueryOk? then taught.data else []
  }

  /**
   * `fetchSessions`: when the learner query fails the list stays as it was;
   * otherwise the learner sessions followed by the taught ones, each id kept
   * once, at its first occurrence. `tutorId` is the tutor lookup's result
   * (`None` when it fails or finds no row) and `taught` the query for that
   * tutor's sessions.
   */
  function MergeSessions(current: seq<ParticipantSession>, learnt: Query<seq<ParticipantSession>>,
                         tutorId: Option<Uuid>, taught: Query<seq<ParticipantSession>>): (r: seq<ParticipantSession>)
    ensures learnt.QueryError? ==> r == current
    ensures learnt.QueryOk? ==> r == Dedup(learnt.data + TutorSessions(tutorId, taught), SessionId)
  {
    if learnt.QueryError? then current
    else Dedup(learnt.data + TutorSessions(tutorId, taught), SessionId)
  }

  /**
   * After a successful learner query the ids are unique, every fetched id
   * appears, each shown session is the first fetched with its id, and the shown
   * sessions come in the order in which their ids are first fetched.
   */
  lemma MergedSessionsUnique(current: seq<ParticipantSession>, learnt: seq<ParticipantSession>,
                             tutorId: Option<Uuid>, taught: Query<seq<ParticipantSession>>)
    ensures var merged := learnt + TutorSessions(tutorId, taught);
            var r := MergeSessions(current, QueryOk(learnt), tutorId, taught);
            UniqueKeys(r, SessionId) &&
            (forall x :: x in merged ==> exists y :: y in r && y.row.id == x.row.id) &&
            (forall y :: y in r ==> 0 <= FindIndex(merged, SessionId, y.row.id) &&
                                    y == merged[FindIndex(merged, SessionId, y.row.id)]) &&
            InFirstSeenOrder(r, merged, SessionId)
  {
  }

  /** A session in both lists is shown as the learner query returned it. */
  lemma LearnerCopyWins(learnt: seq<ParticipantSession>, tutorId: Option<Uuid>, taught: Query<seq<ParticipantSession>>, i: nat)
    requires i < |learnt| && forall j :: 0 <= j < i ==> learnt[j].row.id != learnt[i].row.id
    ensures learnt[i] in MergeSessions([], QueryOk(learnt), tutorId, taught)
  {
    DedupPrefersFirst(learnt, TutorSessions(tutorId, taught), SessionId, i);
  }

  /** A user who is no tutor sees exactly the learner sessions, when their ids are already unique. */
  lemma NoTutorRowShowsLearnerSessions(current: seq<ParticipantSession>, learnt: seq<ParticipantSession>,
                                       taught: Query<seq<ParticipantSession>>)
    requires UniqueKeys(learnt, SessionId)
    ensures MergeSessions(current, QueryOk(learnt), None, taught) == learnt
  {
    assert learnt + [] == learnt;
    DedupUnique(learnt, SessionId);
  }

  function OnDay(sameDay: (Timestamp, int) -> bool, date: int): ParticipantSession -> bool {
    (s: ParticipantSession) => sameDay(s.row.scheduledStart, date)
  }

  /**
   * `getSessionsForDate`: the sessions scheduled to start on the given day, in
   * order. `sameDay` is the calendar's same-day test on a start time and a day.
   */
  function SessionsForDate(sessions: seq<ParticipantSession>, date: int, sameDay: (Timestamp, int) -> bool): (r: seq<ParticipantSession>)
    ensures Subseq(r, sessions)
    ensures forall s :: s in r <==> s in sessions && sameDay(s.row.scheduledStart, date)
  {
    FilterMembers(sessions, OnDay(sameDay, date));
    FilterSubseq(sessions, OnDay(sameDay, date));
    Filter(sessions, OnDay(sameDay, date))
  }

  /** A profile's trimmed full name, or the fallback when there is no profile or the name is blank. */
  function ProfileName(p: Option<NameProfile>, fallback: string): (r: string)
    ensures p.None? ==> r == fallback
    ensures p.Some? ==> r == DisplayName(p.value.firstName, p.value.lastName, fallback)
    ensures fallback != [] ==> r != []
  {
    if p.Some? then DisplayName(p.value.firstName, p.value.lastName, fallback) else fallback
  }

  /**
   * `getOtherParticipant`: a viewer who is the session's learner sees the
   * tutor's name, or `Tutor`; anyone else, a missing viewer included, sees the
   * learner's name, or `Student`.
   */
  function OtherParticipant(s: ParticipantSession, viewer: Option<Uuid>): (r: string)
    ensures viewer == Some(s.row.learnerId) ==> r == ProfileName(s.tutorProfile, "Tutor")
    ensures viewer != Some(s.row.learnerId) ==> r == ProfileName(s.learnerProfile, "Student")
    ensures r != []
  {
    if viewer == Some(s.row.learnerId) then ProfileName(s.tutorProfile, "Tutor") else ProfileName(s.learnerProfile, "Student")
  }

  /** A nameless participant is shown by role: a learner's viewer sees `Tutor`, a tutor's viewer `Student`. */
  lemma NamelessParticipants(s: ParticipantSession, viewer: Uuid)
    requires s.tutorProfile.None? && s.learnerProfile.None?
    ensures OtherParticipant(s, Some(s.row.learnerId)) == "Tutor"
    ensures viewer != s.row.learnerId ==> OtherParticipant(s, Some(viewer)) == "Student"
  {
  }
}
