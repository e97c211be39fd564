/**
 * The tutor's student list: one summary per learner, built from the tutor's
 * sessions by a pass that counts, sums and collects into a map keyed by
 * learner id, then a pass that sets each average rating; and the search filter.
 */
module Students {
  import opened Wrappers
  import opened Strings
  import opened Seqs
  import opened Schema

  /** The learner profile joined onto a session; its fields may be null. */
  datatype LearnerProfile = LearnerProfile(firstName: Option<string>, lastName: Option<string>, email: Option<string>, avatarUrl: Option<string>)

  /**
   * A fetched session with its joins: the subject's name (absent when the join
   * is null), the learner profile, and the `payments(amount)` join.
   */
  datatype TutorSession = TutorSession(
    learnerId: Uuid,
    status: SessionStatus,
    rating: Option<real>,
    scheduledStart: Timestamp,
    subject: Option<string>,
    profile: Option<LearnerProfile>,
    payment: Embedded<real>)

  /** The page's `Student` record. */
  datatype Student = Student(
    id: Uuid,
    firstName: string,
    lastName: string,
    email: string,
    avatarUrl: string,
    sessionCount: nat,
    completedSessions: nat,
    totalEarnings: real,
    avgRating: real,
    lastSession: Option<Timestamp>,
    subjects: seq<string>)

  /** `session.payment?.amount` read as a number to add: only a single joined payment has an amount. */
  function PaidAmount(s: TutorSession): real {
    if s.payment.Single? then s.payment.item else 0.0
  }

  /** `s.rating || 0`. */
  function RatingOf(s: TutorSession): real {
    if s.rating.Some? then s.rating.value else 0.0
  }

  /** The sessions of one learner. */
  function OfLearner(id: Uuid): TutorSession -> bool {
    (s: TutorSession) => s.learnerId == id
  }

  /** The completed sessions of one learner. */
  function CompletedOfLearner(id: Uuid): TutorSession -> bool {
    (s: TutorSession) => s.learnerId == id && s.status == SessionStatus.Completed
  }

  /** `s.learner_id === learnerId && s.rating`: the learner's sessions with a non-zero rating. */
  function RatedOfLearner(id: Uuid): TutorSession -> bool {
    (s: TutorSession) => s.learnerId == id && s.rating.Some? && s.rating.value != 0.0
  }

  /** The record created the first time a learner is seen: names from the profile or `''`, zero counters. */
  function Fresh(id: Uuid, profile: Option<LearnerProfile>): Student {
    if profile.Some? then
      Student(id, OrEmpty(profile.value.firstName), OrEmpty(profile.value.lastName), OrEmpty(profile.value.email),
              OrEmpty(profile.value.avatarUrl), 0, 0, 0.0, 0.0, None, [])
    else
      Student(id, "", "", "", "", 0, 0, 0.0, 0.0, None, [])
  }

  /** One session's effect on its learner's record in the first pass. */
  function Absorb(student: Student, s: TutorSession): Student {
    var counted := student.(sessionCount := student.sessionCount + 1);
    var completed :=
      if s.status == SessionStatus.Completed then
        var c := counted.(completedSessions := counted.completedSessions + 1);
        if s.payment.Single? && s.payment.item != 0.0 then c.(totalEarnings := c.totalEarnings + s.payment.item) else c
      else counted;
    var subjects :=
      if s.subject.Some? && s.subject.value != "" && s.subject.value !in completed.subjects then
        completed.(subjects := completed.subjects + [s.subject.value])
      else completed;
    if subjects.lastSession.None? || subjects.lastSession.value == "" || Less(subjects.lastSession.value, s.scheduledStart) then
      subjects.(lastSession := Some(s.scheduledStart))
    else subjects
  }

  /** The learner ids in the order the map first sees them. */
  function Learners(ss: seq<TutorSession>): (r: seq<Uuid>)
    decreases |ss|
  {
    if ss == [] then []
    else
      var init := Learners(ss[..|ss| - 1]);
      var id := ss[|ss| - 1].learnerId;
      if id in init then init else init + [id]
  }

  /** A learner's record after the first pass over `ss`. */
  function Tally(ss: seq<TutorSession>, id: Uuid): (r: Student)
    ensures r.id == id
    decreases |ss|
  {
    if ss == [] then Fresh(id, None)
    else
      var init := ss[..|ss| - 1];
      var s := ss[|ss| - 1];
      if s.learnerId != id then Tally(init, id)
      else Absorb(if id in Learners(init) then Tally(init, id) else Fresh(id, s.profile), s)
  }

  /** The average of the learner's non-zero ratings, or 0 when there is none. */
  function AverageRating(ss: seq<TutorSession>, id: Uuid): (r: real)
    ensures |Filter(ss, RatedOfLearner(id))| == 0 ==> r == 0.0
    ensures |Filter(ss, RatedOfLearner(id))| > 0 ==>
              r * |Filter(ss, RatedOfLearner(id))| as real == SumBy(Filter(ss, RatedOfLearner(id)), RatingOf)
  {
    var rated := Filter(ss, RatedOfLearner(id));
    if |rated| > 0 then SumBy(rated, RatingOf) / |rated| as real else 0.0
  }

  /** A learner's finished summary: the first pass's record, with the average the second pass sets in place of its 0. */
  function Summary(ss: seq<TutorSession>, id: Uuid): (r: Student)
    ensures r.id == id && r.avgRating == AverageRating(ss, id)
    ensures r.(avgRating := 0.0) == Tally(ss, id)
  {
    TallyAverageIsZero(ss, id);
    Tally(ss, id).(avgRating := AverageRating(ss, id))
  }

  /** `Array.from(studentMap.values())`: one summary per learner, in first-seen order. */
  function Summaries(ss: seq<TutorSession>): (r: seq<Student>)
    ensures |r| == |Learners(ss)|
  {
    var ids := Learners(ss);
    seq(|ids|, k requires 0 <= k < |ids| => Summary(ss, ids[k]))
  }

  /**
   * One session counted into its learner's record, field by field as the
   * `forEach` body updates the map entry.
   */
  method CountSession(student: Student, s: TutorSession) returns (r: Student)
    ensures r == Absorb(student, s)
  {
    r := student.(sessionCount := student.sessionCount + 1);
    if s.status == SessionStatus.Completed {
      r := r.(completedSessions := r.completedSessions + 1);
      if s.payment.Single? && s.payment.item != 0.0 {
        r := r.(totalEarnings := r.totalEarnings + s.payment.item);
      }
    }
    if s.subject.Some? && s.subject.value != "" && s.subject.value !in r.subjects {
      r := r.(subjects := r.subjects + [s.subject.value]);
    }
    if r.lastSession.None? || r.lastSession.value == "" || Less(r.lastSession.value, s.scheduledStart) {
      r := r.(lastSession := Some(s.scheduledStart));
    }
  }

  /**
   * The `forEach` over the sessions: the map's keys in insertion order and its
   * entries. Each learner is entered on first sight and every session is
   * counted into its learner's entry.
   */
  method FirstPass(sessions: seq<TutorSession>) returns (keys: seq<Uuid>, entries: map<Uuid, Student>)
    ensures keys == Learners(sessions)
    ensures forall id :: id in entries <==> id in keys
    ensures forall id :: id in entries ==> entries[id] == Tally(sessions, id)
  {
    keys := [];
    entries := map[];
    var i := 0;
    while i < |sessions|
      invariant 0 <= i <= |sessions|
      invariant keys == Learners(sessions[..i])
      invariant forall id :: id in entries <==> id in keys
      invariant forall id :: id in entries ==> entries[id] == Tally(sessions[..i], id)
    {
      var s := sessions[i];
      var learnerId := s.learnerId;
      ghost var seen := sessions[..i];
      assert sessions[..i + 1] == seen + [s];
      LearnersStep(seen, s);
      forall id
        ensures Tally(seen + [s], id) == if learnerId != id then Tally(seen, id) else Absorb(Start(seen, s), s)
      {
        TallyStep(seen, s, id);
      }
      if learnerId !in entries {
        keys := keys + [learnerId];
        entries := entries[learnerId := Fresh(learnerId, s.profile)];
      }
      var student := CountSession(entries[learnerId], s);
      entries := entries[learnerId := student];
      i := i + 1;
    }
    assert sessions[..i] == sessions;
  }

  /**
   * The two passes of `fetchStudents` over the fetched sessions: the map is
   * filled in one pass over the sessions, then each learner's average rating is
   * set, and the map's values are returned in insertion order.
   */
  method BuildSummaries(sessions: seq<TutorSession>) returns (students: seq<Student>)
    ensures students == Summaries(sessions)
  {
    var keys, entries := FirstPass(sessions);
    LearnersDistinct(sessions);
    var k := 0;
    while k < |keys|
      invariant 0 <= k <= |keys|
      invariant forall id :: id in entries <==> id in keys
      invariant forall j :: 0 <= j < k ==> entries[keys[j]] == Summary(sessions, keys[j])
      invariant forall j :: k <= j < |keys| ==> entries[keys[j]] == Tally(sessions, keys[j])
    {
      var learnerId := keys[k];
      var rated := Filter(sessions, RatedOfLearner(learnerId));
      TallyAverageIsZero(sessions, learnerId);
      ghost var done := entries;
      if |rated| > 0 {
        var total := SumBy(rated, RatingOf);
        entries := entries[learnerId := entries[learnerId].(avgRating := total / |rated| as real)];
      }
      assert entries[learnerId] == Summary(sessions, learnerId);
      assert forall j :: 0 <= j < |keys| && j != k ==> keys[j] != learnerId && entries[keys[j]] == done[keys[j]];
      k := k + 1;
    }
    students := seq(|keys|, j requires 0 <= j < |keys| => entries[keys[j]]);
  }

  /** The first pass never touches the average rating. */
  lemma {:induction false} TallyAverageIsZero(ss: seq<TutorSession>, id: Uuid)
    ensures Tally(ss, id).avgRating == 0.0
    decreases |ss|
  {
    if ss != [] {
      TallyAverageIsZero(ss[..|ss| - 1], id);
    }
  }

  /** No learner gets two summaries. */
  lemma {:induction false} LearnersDistinct(ss: seq<TutorSession>)
    ensures Distinct(Learners(ss))
    decreases |ss|
  {
    if ss != [] {
      LearnersDistinct(ss[..|ss| - 1]);
    }
  }

  /** Every learner with a session gets a summary, and only those. */
  lemma {:induction false} LearnersCover(ss: seq<TutorSession>, id: Uuid)
    ensures id in Learners(ss) <==> exists k :: 0 <= k < |ss| && ss[k].learnerId == id
    decreases |ss|
  {
    if ss != [] {
      var init := ss[..|ss| - 1];
      LearnersCover(init, id);
      if exists k :: 0 <= k < |init| && init[k].learnerId == id {
        var k :| 0 <= k < |init| && init[k].learnerId == id;
        assert ss[k] == init[k];
      }
      if exists k :: 0 <= k < |ss| && ss[k].learnerId == id {
        var k :| 0 <= k < |ss| && ss[k].learnerId == id;
        if k < |init| {
          assert init[k] == ss[k];
        }
      }
    }
  }

  /** The learner list after one more session. */
  lemma LearnersStep(ss: seq<TutorSession>, s: TutorSession)
    ensures Learners(ss + [s]) == if s.learnerId in Learners(ss) then Learners(ss) else Learners(ss) + [s.learnerId]
  {
    assert (ss + [s])[..|ss|] == ss;
  }

  /** The record a session is added to: the learner's record so far, or a fresh one from the session's profile. */
  function Start(ss: seq<TutorSession>, s: TutorSession): Student {
    if s.learnerId in Learners(ss) then Tally(ss, s.learnerId) else Fresh(s.learnerId, s.profile)
  }

  /** A record after one more session: only that session's learner changes. */
  lemma TallyStep(ss: seq<TutorSession>, s: TutorSession, id: Uuid)
    ensures Tally(ss + [s], id) == if s.learnerId != id then Tally(ss, id) else Absorb(Start(ss, s), s)
  {
    assert (ss + [s])[..|ss|] == ss;
  }

  /** What one session adds to the counters of its learner's record. */
  lemma AbsorbCounters(student: Student, s: TutorSession)
    ensures Absorb(student, s).sessionCount == student.sessionCount + 1
    ensures Absorb(student, s).completedSessions == student.completedSessions + (if s.status == SessionStatus.Completed then 1 else 0)
    ensures Absorb(student, s).totalEarnings == student.totalEarnings + (if s.status == SessionStatus.Completed then PaidAmount(s) else 0.0)
    ensures Absorb(student, s).avgRating == student.avgRating
  {
  }

  /** A learner's first session starts a record with every counter at zero. */
  lemma StartUnseen(ss: seq<TutorSession>, s: TutorSession)
    requires s.learnerId !in Learners(ss)
    ensures Start(ss, s).sessionCount == 0 && Start(ss, s).completedSessions == 0 && Start(ss, s).totalEarnings == 0.0
  {
    assert Start(ss, s) == Fresh(s.learnerId, s.profile);
  }

  /** A learner not yet seen has no sessions so far. */
  lemma UnseenHasNoSessions(ss: seq<TutorSession>, id: Uuid)
    requires id !in Learners(ss)
    ensures Filter(ss, OfLearner(id)) == [] && Filter(ss, CompletedOfLearner(id)) == []
  {
    LearnersCover(ss, id);
    FilterNone(ss, OfLearner(id));
    FilterNone(ss, CompletedOfLearner(id));
  }

  /** One more session keeps the record's `sessionCount` equal to its count over the sessions. */
  lemma CountStep(init: seq<TutorSession>, s: TutorSession, id: Uuid)
    requires Tally(init, id).sessionCount == |Filter(init, OfLearner(id))|
    ensures Tally(init + [s], id).sessionCount == |Filter(init + [s], OfLearner(id))|
  {
    var ss := init + [s];
    TallyStep(init, s, id);
    var p := OfLearner(id);
    var before := Filter(init, p);
    FilterSnoc(init, s, p);
    if s.learnerId == id {
      var st := Start(init, s);
      if id !in Learners(init) {
        UnseenHasNoSessions(init, id);
        StartUnseen(init, s);
      }
      assert st.sessionCount == |before|;
      AbsorbCounters(st, s);
      assert Tally(ss, id) == Absorb(st, s);
      assert p(s);
      assert Filter(ss, p) == before + [s];
    } else {
      assert Filter(ss, p) == before;
    }
  }

  /** A learner's record counts their sessions (the `sessionCount++` per session). */
  lemma {:induction false} TallyCount(ss: seq<TutorSession>, id: Uuid)
    ensures Tally(ss, id).sessionCount == |Filter(ss, OfLearner(id))|
    decreases |ss|
  {
    if ss != [] {
      SplitLast(ss);
      TallyCount(ss[..|ss| - 1], id);
      CountStep(ss[..|ss| - 1], ss[|ss| - 1], id);
    }
  }

  /** One more session keeps the record's `completedSessions` equal to its count over the sessions. */
  lemma CompletedStep(init: seq<TutorSession>, s: TutorSession, id: Uuid)
    requires Tally(init, id).completedSessions == |Filter(init, CompletedOfLearner(id))|
    ensures Tally(init + [s], id).completedSessions == |Filter(init + [s], CompletedOfLearner(id))|
  {
    var ss := init + [s];
    TallyStep(init, s, id);
    var p := CompletedOfLearner(id);
    var before := Filter(init, p);
    FilterSnoc(init, s, p);
    if s.learnerId == id {
      var st := Start(init, s);
      if id !in Learners(init) {
        UnseenHasNoSessions(init, id);
        StartUnseen(init, s);
      }
      assert st.completedSessions == |before|;
      AbsorbCounters(st, s);
      assert Tally(ss, id) == Absorb(st, s);
      if s.status == SessionStatus.Completed {
        assert p(s);
        assert Filter(ss, p) == before + [s];
      } else {
        assert Filter(ss, p) == before;
      }
    } else {
      assert Filter(ss, p) == before;
    }
  }

  /** A learner's record counts their completed sessions. */
  lemma {:induction false} TallyCompleted(ss: seq<TutorSession>, id: Uuid)
    ensures Tally(ss, id).completedSessions == |Filter(ss, CompletedOfLearner(id))|
    decreases |ss|
  {
    if ss != [] {
      SplitLast(ss);
      TallyCompleted(ss[..|ss| - 1], id);
      CompletedStep(ss[..|ss| - 1], ss[|ss| - 1], id);
    }
  }

  /** One more session keeps the record's `totalEarnings` equal to the paid amounts of the completed sessions. */
  lemma EarningsStep(init: seq<TutorSession>, s: TutorSession, id: Uuid)
    requires Tally(init, id).totalEarnings == SumBy(Filter(init, CompletedOfLearner(id)), PaidAmount)
    ensures Tally(init + [s], id).totalEarnings == SumBy(Filter(init + [s], CompletedOfLearner(id)), PaidAmount)
  {
    var ss := init + [s];
    TallyStep(init, s, id);
    var p := CompletedOfLearner(id);
    var before := Filter(init, p);
    FilterSnoc(init, s, p);
    if s.learnerId == id {
      var st := Start(init, s);
      if id !in Learners(init) {
        UnseenHasNoSessions(init, id);
        StartUnseen(init, s);
      }
      assert st.totalEarnings == SumBy(before, PaidAmount);
      AbsorbCounters(st, s);
      assert Tally(ss, id) == Absorb(st, s);
      if s.status == SessionStatus.Completed {
        assert p(s);
        assert Filter(ss, p) == before + [s];
        SumBySnoc(before, s, PaidAmount);
      } else {
        assert Filter(ss, p) == before;
      }
    } else {
      assert Filter(ss, p) == before;
    }
  }

  /** A learner's earnings are the payment amounts of their completed sessions. */
  lemma {:induction false} TallyEarnings(ss: seq<TutorSession>, id: Uuid)
    ensures Tally(ss, id).totalEarnings == SumBy(Filter(ss, CompletedOfLearner(id)), PaidAmount)
    decreases |ss|
  {
    if ss != [] {
      SplitLast(ss);
      TallyEarnings(ss[..|ss| - 1], id);
      EarningsStep(ss[..|ss| - 1], ss[|ss| - 1], id);
    }
  }

  /** A learner never has more completed sessions than sessions. */
  lemma CompletedAtMostSessions(ss: seq<TutorSession>, id: Uuid)
    ensures Summary(ss, id).completedSessions <= Summary(ss, id).sessionCount
  {
    TallyCount(ss, id);
    TallyCompleted(ss, id);
    FilterMonotone(ss, CompletedOfLearner(id), OfLearner(id));
  }

  /** Only completed sessions earn: with non-negative amounts the earnings are non-negative, and zero without a completed session. */
  lemma EarningsFromCompletedOnly(ss: seq<TutorSession>, id: Uuid)
    ensures Summary(ss, id).completedSessions == 0 ==> Summary(ss, id).totalEarnings == 0.0
    ensures (forall k :: 0 <= k < |ss| ==> PaidAmount(ss[k]) >= 0.0) ==> Summary(ss, id).totalEarnings >= 0.0
  {
    TallyCompleted(ss, id);
    TallyEarnings(ss, id);
    var done := Filter(ss, CompletedOfLearner(id));
    if forall k :: 0 <= k < |ss| ==> PaidAmount(ss[k]) >= 0.0 {
      assert forall x :: x in done ==> PaidAmount(x) >= 0.0;
      SumByNonNegative(done, PaidAmount);
    }
  }

  /** With no non-zero rating the average is 0; otherwise it is the mean of those ratings. */
  lemma AverageRatingSpec(ss: seq<TutorSession>, id: Uuid)
    ensures var rated := Filter(ss, RatedOfLearner(id));
            Summary(ss, id).avgRating == (if rated == [] then 0.0 else SumBy(rated, RatingOf) / |rated| as real)
    ensures (forall k :: 0 <= k < |ss| ==> ss[k].learnerId == id ==> ss[k].rating.None?) ==> Summary(ss, id).avgRating == 0.0
  {
    if forall k :: 0 <= k < |ss| ==> ss[k].learnerId == id ==> ss[k].rating.None? {
      FilterNone(ss, RatedOfLearner(id));
    }
  }

  /** What one session does to the subjects and the last session of its learner's record. */
  lemma AbsorbLists(student: Student, s: TutorSession)
    ensures Absorb(student, s).subjects ==
            student.subjects + (if s.subject.Some? && s.subject.value != "" && s.subject.value !in student.subjects then [s.subject.value] else [])
    ensures Absorb(student, s).lastSession ==
            if student.lastSession.None? || student.lastSession.value == "" || Less(student.lastSession.value, s.scheduledStart)
            then Some(s.scheduledStart) else student.lastSession
  {
  }

  /** Some session of the learner names the subject. */
  predicate HasSubject(ss: seq<TutorSession>, id: Uuid, name: string) {
    exists k :: 0 <= k < |ss| && ss[k].learnerId == id && ss[k].subject == Some(name)
  }

  lemma HasSubjectStep(ss: seq<TutorSession>, s: TutorSession, id: Uuid, name: string)
    ensures HasSubject(ss + [s], id, name) <==> HasSubject(ss, id, name) || (s.learnerId == id && s.subject == Some(name))
    ensures id !in Learners(ss) ==> !HasSubject(ss, id, name)
  {
    var t := ss + [s];
    if HasSubject(t, id, name) {
      var k :| 0 <= k < |t| && t[k].learnerId == id && t[k].subject == Some(name);
      if k < |ss| {
        assert ss[k] == t[k];
      }
    }
    if HasSubject(ss, id, name) {
      var k :| 0 <= k < |ss| && ss[k].learnerId == id && ss[k].subject == Some(name);
      assert t[k] == ss[k];
      LearnersCover(ss, id);
    }
    assert t[|ss|] == s;
  }

  /** A learner's subjects are listed once each. */
  lemma {:induction false} TallySubjectsDistinct(ss: seq<TutorSession>, id: Uuid)
    ensures Distinct(Tally(ss, id).subjects)
    decreases |ss|
  {
    if ss != [] {
      var init := ss[..|ss| - 1];
      var s := ss[|ss| - 1];
      assert ss == init + [s];
      TallySubjectsDistinct(init, id);
      TallyStep(init, s, id);
      AbsorbLists(Start(init, s), s);
    }
  }

  /** A learner's subjects are exactly the non-empty subject names of their sessions. */
  lemma {:induction false} TallySubjectsMembers(ss: seq<TutorSession>, id: Uuid, name: string)
    ensures name in Tally(ss, id).subjects <==> name != "" && HasSubject(ss, id, name)
    decreases |ss|
  {
    if ss != [] {
      var init := ss[..|ss| - 1];
      var s := ss[|ss| - 1];
      assert ss == init + [s];
      TallySubjectsMembers(init, id, name);
      TallyStep(init, s, id);
      AbsorbLists(Start(init, s), s);
      HasSubjectStep(init, s, id, name);
    }
  }

  /** Some session of the learner is scheduled to start at `start`. */
  predicate StartsAt(ss: seq<TutorSession>, id: Uuid, start: Timestamp) {
    exists k :: 0 <= k < |ss| && ss[k].learnerId == id && ss[k].scheduledStart == start
  }

  /** No session of the learner starts later than `start`. */
  predicate NoneLater(ss: seq<TutorSession>, id: Uuid, start: Timestamp) {
    forall k :: 0 <= k < |ss| && ss[k].learnerId == id ==> !Less(start, ss[k].scheduledStart)
  }

  lemma SessionsStep(ss: seq<TutorSession>, s: TutorSession, id: Uuid, start: Timestamp)
    ensures StartsAt(ss + [s], id, start) <==> StartsAt(ss, id, start) || (s.learnerId == id && s.scheduledStart == start)
    ensures NoneLater(ss + [s], id, start) <==> NoneLater(ss, id, start) && (s.learnerId == id ==> !Less(start, s.scheduledStart))
    ensures id !in Learners(ss) ==> !StartsAt(ss, id, start) && NoneLater(ss, id, start)
  {
    var t := ss + [s];
    assert forall k :: 0 <= k < |ss| ==> t[k] == ss[k];
    assert t[|ss|] == s;
    if StartsAt(t, id, start) {
      var k :| 0 <= k < |t| && t[k].learnerId == id && t[k].scheduledStart == start;
    }
    LearnersCover(ss, id);
  }

  /**
   * The last session is one of the learner's scheduled starts and no start of
   * theirs is later by string comparison; it is present exactly when the
   * learner has a session.
   */
  lemma {:induction false} TallyLastSession(ss: seq<TutorSession>, id: Uuid)
    ensures Tally(ss, id).lastSession.Some? <==> id in Learners(ss)
    ensures Tally(ss, id).lastSession.Some? ==>
              StartsAt(ss, id, Tally(ss, id).lastSession.value) && NoneLater(ss, id, Tally(ss, id).lastSession.value)
    decreases |ss|
  {
    if ss != [] {
      var init := ss[..|ss| - 1];
      var s := ss[|ss| - 1];
      assert ss == init + [s];
      TallyLastSession(init, id);
      TallyStep(init, s, id);
      LearnersStep(init, s);
      if s.learnerId == id {
        var start := Start(init, s);
        AbsorbLists(start, s);
        var last := Tally(ss, id).lastSession.value;
        SessionsStep(init, s, id, last);
        LessIrreflexive(s.scheduledStart);
        if id in Learners(init) && last == s.scheduledStart {
          var p := start.lastSession.value;
          SessionsStep(init, s, id, p);
          forall k | 0 <= k < |init| && init[k].learnerId == id
            ensures !Less(last, init[k].scheduledStart)
          {
            assert !Less(p, init[k].scheduledStart);
            if p != "" && Less(last, init[k].scheduledStart) {
              LessTransitive(p, last, init[k].scheduledStart);
            }
          }
        }
      } else if Tally(ss, id).lastSession.Some? {
        SessionsStep(init, s, id, Tally(ss, id).lastSession.value);
      }
    }
  }

  /** The sum of the summaries' session counts over a list of learners. */
  function CountSum(ss: seq<TutorSession>, ids: seq<Uuid>): nat {
    if ids == [] then 0 else CountSum(ss, ids[..|ids| - 1]) + Tally(ss, ids[|ids| - 1]).sessionCount
  }

  /** One more session adds one to its learner's session count and leaves the other learners' counts alone. */
  lemma SessionCountStep(ss: seq<TutorSession>, s: TutorSession, id: Uuid)
    ensures Tally(ss + [s], id).sessionCount == Tally(ss, id).sessionCount + (if s.learnerId == id then 1 else 0)
  {
    TallyStep(ss, s, id);
    if s.learnerId == id {
      AbsorbCounters(Start(ss, s), s);
      if id !in Learners(ss) {
        UnseenHasNoSessions(ss, id);
        StartUnseen(ss, s);
        TallyCount(ss, id);
      }
    }
  }

  /** One more session adds one to the sum over a distinct list holding its learner, and nothing otherwise. */
  lemma {:induction false} CountSumStep(ss: seq<TutorSession>, s: TutorSession, ids: seq<Uuid>)
    requires Distinct(ids)
    requires forall id :: id in ids ==> id in Learners(ss) || id == s.learnerId
    ensures CountSum(ss + [s], ids) == CountSum(ss, ids) + (if s.learnerId in ids then 1 else 0)
    decreases |ids|
  {
    assert (ss + [s])[..|ss|] == ss;
    if ids != [] {
      var init := ids[..|ids| - 1];
      var last := ids[|ids| - 1];
      assert Distinct(init) by {
        forall i, j | 0 <= i < j < |init| ensures init[i] != init[j] {
          assert init[i] == ids[i] && init[j] == ids[j];
        }
      }
      assert forall id :: id in init ==> id in ids;
      CountSumStep(ss, s, init);
      assert last !in init <==> true by {
        forall j | 0 <= j < |init| ensures init[j] != last {
          assert init[j] == ids[j];
        }
      }
      assert s.learnerId in ids <==> s.learnerId in init || s.learnerId == last;
      SessionCountStep(ss, s, last);
    }
  }

  /** The learners' session counts add up to the number of fetched sessions. */
  lemma {:induction false} SessionCountsSum(ss: seq<TutorSession>)
    ensures CountSum(ss, Learners(ss)) == |ss|
    decreases |ss|
  {
    if ss != [] {
      var init := ss[..|ss| - 1];
      var s := ss[|ss| - 1];
      assert ss == init + [s];
      SessionCountsSum(init);
      LearnersDistinct(ss);
      CountSumStep(init, s, Learners(ss));
      var ids := Learners(ss);
      if s.learnerId !in Learners(init) {
        assert ids[..|ids| - 1] == Learners(init);
        UnseenHasNoSessions(init, s.learnerId);
        TallyCount(init, s.learnerId);
        assert CountSum(init, ids) == CountSum(init, Learners(init)) + Tally(init, s.learnerId).sessionCount;
      }
    }
  }

  /**
   * `filteredStudents`: a student is kept when the lower-cased search term
   * occurs in the lower-cased first name, last name, email or one of the
   * subjects.
   */
  predicate Matches(student: Student, term: string) {
    ContainsIgnoringCase(student.firstName, term) ||
    ContainsIgnoringCase(student.lastName, term) ||
    ContainsIgnoringCase(student.email, term) ||
    exists k :: 0 <= k < |student.subjects| && ContainsIgnoringCase(student.subjects[k], term)
  }

  function Matching(term: string): Student -> bool {
    (s: Student) => Matches(s, term)
  }

  function FilteredStudents(students: seq<Student>, term: string): (r: seq<Student>)
    ensures Subseq(r, students)
    ensures forall s :: s in r <==> s in students && Matches(s, term)
  {
    FilterMembers(students, Matching(term));
    FilterSubseq(students, Matching(term));
    Filter(students, Matching(term))
  }

  /** An empty search keeps everyone. */
  lemma EmptySearchKeepsAll(students: seq<Student>)
    ensures FilteredStudents(students, "") == students
  {
    forall s | s in students ensures Matching("")(s) {
      ContainsEmpty(ToLower(s.firstName));
    }
    FilterAll(students, Matching(""));
  }
}
