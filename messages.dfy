/**
 * The conversation list: the merged session list (the calendar's merge), the
 * automatic selection of the first conversation, the search box and the
 * participants handed to the chat.
 */
module Messages {
  import opened Wrappers
  import opened Strings
  import opened Seqs
  import opened Schema
  import opened Calendar

  /** The page's list and its selected conversation. */
  datatype Conversations = Conversations(sessions: seq<ParticipantSession>, selected: Option<ParticipantSession>)

  /** The first conversation is selected when none is and the list is not empty; otherwise the selection stays. */
  function AutoSelect(selected: Option<ParticipantSession>, sessions: seq<ParticipantSession>): (r: Option<ParticipantSession>)
    ensures selected.Some? ==> r == selected
    ensures selected.None? && sessions != [] ==> r == Some(sessions[0])
    ensures selected.None? && sessions == [] ==> r.None?
  {
    if sessions != [] && selected.None? then Some(sessions[0]) else selected
  }

  /**
   * `fetchSessions`: when the learner query fails nothing changes; otherwise
   * the merged list replaces the old one and the first conversation is
   * selected if none was.
   */
  function FetchConversations(state: Conversations, learnt: Query<seq<ParticipantSession>>,
                              tutorId: Option<Uuid>, taught: Query<seq<ParticipantSession>>): (r: Conversations)
    ensures learnt.QueryError? ==> r == state
    ensures learnt.QueryOk? ==> r.sessions == MergeSessions(state.sessions, learnt, tutorId, taught)
    ensures learnt.QueryOk? ==> r.selected == AutoSelect(state.selected, r.sessions)
    ensures r.selected != state.selected ==> state.selected.None? && r.sessions != [] && r.selected == Some(r.sessions[0])
  {
    if learnt.QueryError? then state
    else
      var sessions := MergeSessions(state.sessions, learnt, tutorId, taught);
      Conversations(sessions, AutoSelect(state.selected, sessions))
  }

  /** A successful fetch with at least one session always leaves a conversation selected. */
  lemma FetchSelectsSomething(state: Conversations, learnt: seq<ParticipantSession>,
                              tutorId: Option<Uuid>, taught: Query<seq<ParticipantSession>>)
    requires learnt != []
    ensures FetchConversations(state, QueryOk(learnt), tutorId, taught).selected.Some?
  {
    var merged := learnt + TutorSessions(tutorId, taught);
    assert merged[0] in merged;
  }

  /** The search: the title, or any of the four joined names, contains the term ignoring case; a missing name never matches. */
  predicate Matches(s: ParticipantSession, term: string) {
    ContainsIgnoringCase(s.row.title, term) ||
    (s.learnerProfile.Some? && OptionalContains(s.learnerProfile.value.firstName, term)) ||
    (s.learnerProfile.Some? && OptionalContains(s.learnerProfile.value.lastName, term)) ||
    (s.tutorProfile.Some? && OptionalContains(s.tutorProfile.value.firstName, term)) ||
    (s.tutorProfile.Some? && OptionalContains(s.tutorProfile.value.lastName, term))
  }

  function Matching(term: string): ParticipantSession -> bool {
    (s: ParticipantSession) => Matches(s, term)
  }

  /** `filteredSessions`: the matching sessions, in order. */
  function FilteredSessions(sessions: seq<ParticipantSession>, term: string): (r: seq<ParticipantSession>)
    ensures Subseq(r, sessions)
    ensures forall s :: s in r <==> s in sessions && Matches(s, term)
  {
    FilterMembers(sessions, Matching(term));
    FilterSubseq(sessions, Matching(term));
    Filter(sessions, Matching(term))
  }

  /** The empty search shows every conversation. */
  lemma EmptySearchShowsAll(sessions: seq<ParticipantSession>)
    ensures FilteredSessions(sessions, "") == sessions
  {
    forall s | s in sessions ensures Matching("")(s) {
      ContainsEmpty(ToLower(s.row.title));
    }
    FilterAll(sessions, Matching(""));
  }

  /** A session without profiles is found only through its title. */
  lemma NamelessSessionMatchesByTitle(s: ParticipantSession, term: string)
    requires s.learnerProfile.None? && s.tutorProfile.None?
    ensures Matches(s, term) <==> ContainsIgnoringCase(s.row.title, term)
  {
  }

  /** `[learner_id, tutor?.user_id || '']`: the chat's participants; a session with no joined tutor gets an empty second id. */
  function Participants(s: ParticipantSession): (r: seq<Uuid>)
    ensures |r| == 2 && r[0] == s.row.learnerId
    ensures r[1] == (if s.tutorUserId.Some? && s.tutorUserId.value != "" then s.tutorUserId.value else "")
  {
    [s.row.learnerId, if s.tutorUserId.Some? then s.tutorUserId.value else ""]
  }
}
