/**
 * The administrator's user list: every profile joined with its roles, its
 * tutor row and its number of learner sessions; the search and role filter;
 * the display name and the role and tutor counts.
 */
module AdminUsers {
  import opened Wrappers
  import opened Strings
  import opened Seqs
  import opened Schema

  /** The `user_roles` columns the page reads. */
  datatype RoleEntry = RoleEntry(userId: Uuid, role: UserRole)

  /** The `tutors` columns the page reads. */
  datatype TutorInfo = TutorInfo(userId: Uuid, status: TutorStatus, hourlyRate: Option<real>, experienceYears: Option<int>)

  /** A profile as the page shows it, with its roles, tutor row and session count. */
  datatype ManagedUser = ManagedUser(profile: ProfileRow, roles: seq<RoleEntry>, tutor: Option<TutorInfo>, sessionCount: nat)

  function RoleIn(ids: seq<Uuid>): RoleEntry -> bool {
    (r: RoleEntry) => r.userId in ids
  }

  function TutorIn(ids: seq<Uuid>): TutorInfo -> bool {
    (t: TutorInfo) => t.userId in ids
  }

  function LearnerIn(ids: seq<Uuid>): Uuid -> bool {
    (l: Uuid) => l in ids
  }

  function RoleOf(userId: Uuid): RoleEntry -> bool {
    (r: RoleEntry) => r.userId == userId
  }

  function TutorOf(userId: Uuid): TutorInfo -> bool {
    (t: TutorInfo) => t.userId == userId
  }

  function LearnerIs(userId: Uuid): Uuid -> bool {
    (l: Uuid) => l == userId
  }

  /**
   * One secondary query (`.in(column, userIds)`): nothing when there are no
   * ids or the query fails, else the table's rows the predicate keeps.
   */
  function Secondary<T(==)>(ids: seq<Uuid>, table: Query<seq<T>>, among: T -> bool): (r: seq<T>)
    ensures ids == [] || table.QueryError? ==> r == []
    ensures ids != [] && table.QueryOk? ==> r == Filter(table.data, among)
  {
    if ids == [] || table.QueryError? then [] else Filter(table.data, among)
  }

  /** One processed user: its role rows, its first tutor row and the number of sessions it takes as learner. */
  function Process(p: ProfileRow, roles: seq<RoleEntry>, tutors: seq<TutorInfo>, learners: seq<Uuid>): (r: ManagedUser)
    ensures r.profile == p
    ensures forall e :: e in r.roles <==> e in roles && e.userId == p.userId
    ensures r.tutor.None? <==> forall t :: t in tutors ==> t.userId != p.userId
    ensures r.tutor.Some? ==> r.tutor.value in tutors && r.tutor.value.userId == p.userId
    ensures r.sessionCount == |Filter(learners, LearnerIs(p.userId))|
  {
    FilterMembers(roles, RoleOf(p.userId));
    var t := Find(tutors, TutorOf(p.userId));
    ManagedUser(p, Filter(roles, RoleOf(p.userId)), t, |Filter(learners, LearnerIs(p.userId))|)
  }

  function UserIds(profiles: seq<ProfileRow>): (r: seq<Uuid>)
    ensures |r| == |profiles| && forall i :: 0 <= i < |r| ==> r[i] == profiles[i].userId
  {
    seq(|profiles|, i requires 0 <= i < |profiles| => profiles[i].userId)
  }

  /**
   * `fetchUsers`: without the admin role row, or when the profiles query
   * fails, the list stays as it was. Otherwise every fetched profile, in
   * order, joined with what the three secondary queries return; a failing
   * secondary query contributes nothing.
   */
  function FetchUsers(current: seq<ManagedUser>, isAdmin: bool, profiles: Query<seq<ProfileRow>>,
                      roleTable: Query<seq<RoleEntry>>, tutorTable: Query<seq<TutorInfo>>,
                      sessionLearners: Query<seq<Uuid>>): (r: seq<ManagedUser>)
    ensures !isAdmin || profiles.QueryError? ==> r == current
    ensures isAdmin && profiles.QueryOk? ==> |r| == |profiles.data|
    ensures isAdmin && profiles.QueryOk? ==> forall i :: 0 <= i < |r| ==> r[i].profile == profiles.data[i]
  {
    if !isAdmin || profiles.QueryError? then current
    else
      var ids := UserIds(profiles.data);
      var roles := Secondary(ids, roleTable, RoleIn(ids));
      var tutors := Secondary(ids, tutorTable, TutorIn(ids));
      var learners := Secondary(ids, sessionLearners, LearnerIn(ids));
      seq(|profiles.data|, i requires 0 <= i < |profiles.data| => Process(profiles.data[i], roles, tutors, learners))
  }

  /**
   * With every query successful, each user's roles, tutor row and session
   * count are what the whole tables hold for that user: restricting the
   * queries to the listed ids loses nothing.
   */
  lemma JoinMatchesTables(profiles: seq<ProfileRow>, roleTable: seq<RoleEntry>, tutorTable: seq<TutorInfo>,
                          learners: seq<Uuid>, i: nat)
    requires i < |profiles|
    ensures var u := FetchUsers([], true, QueryOk(profiles), QueryOk(roleTable), QueryOk(tutorTable), QueryOk(learners))[i];
            var id := profiles[i].userId;
            u.roles == Filter(roleTable, RoleOf(id)) &&
            u.tutor == Find(tutorTable, TutorOf(id)) &&
            u.sessionCount == |Filter(learners, LearnerIs(id))|
  {
    var ids := UserIds(profiles);
    var id := profiles[i].userId;
    assert ids[i] == id && ids != [];
    var roles := Filter(roleTable, RoleIn(ids));
    var tutors := Filter(tutorTable, TutorIn(ids));
    var sessions := Filter(learners, LearnerIn(ids));
    assert FetchUsers([], true, QueryOk(profiles), QueryOk(roleTable), QueryOk(tutorTable), QueryOk(learners))[i] ==
           Process(profiles[i], roles, tutors, sessions);
    FilterFiltered(roleTable, RoleIn(ids), RoleOf(id));
    FindFiltered(tutorTable, TutorIn(ids), TutorOf(id));
    FilterFiltered(learners, LearnerIn(ids), LearnerIs(id));
  }

  /** When the secondary queries all fail, every user is still listed, with no roles, no tutor row and no sessions. */
  lemma FailedSecondaryQueries(profiles: seq<ProfileRow>, i: nat)
    requires i < |profiles|
    ensures var u := FetchUsers([], true, QueryOk(profiles), QueryError, QueryError, QueryError)[i];
            u.profile == profiles[i] && u.roles == [] && u.tutor.None? && u.sessionCount == 0
  {
    var none: seq<Uuid> := [];
    assert Filter(none, LearnerIs(profiles[i].userId)) == [];
  }

  /** `getUserName`: the trimmed full name, or `User`. */
  function UserName(u: ManagedUser): (r: string)
    ensures r != []
    ensures !IsBlank(FullName(u.profile.firstName, u.profile.lastName)) ==> r == Trim(FullName(u.profile.firstName, u.profile.lastName))
    ensures IsBlank(FullName(u.profile.firstName, u.profile.lastName)) ==> r == "User"
  {
    DisplayName(u.profile.firstName, u.profile.lastName, "User")
  }

  /** The role names the user holds, in the order of its role rows. */
  function RoleNames(u: ManagedUser): (r: seq<string>)
    ensures |r| == |u.roles| && forall i :: 0 <= i < |r| ==> r[i] == u.roles[i].role.Name()
  {
    seq(|u.roles|, i requires 0 <= i < |u.roles| => u.roles[i].role.Name())
  }

  /** The search and role test of `filteredUsers`. */
  predicate Matches(u: ManagedUser, term: string, roleFilter: string) {
    (ContainsIgnoringCase(u.profile.email, term) || ContainsIgnoringCase(UserName(u), term)) &&
    (roleFilter == "all" || roleFilter in RoleNames(u))
  }

  function Matching(term: string, roleFilter: string): ManagedUser -> bool {
    (u: ManagedUser) => Matches(u, term, roleFilter)
  }

  /**
   * `filteredUsers`: the users whose email or name contains the term ignoring
   * case and who hold the filtered role, in order.
   */
  function FilteredUsers(users: seq<ManagedUser>, term: string, roleFilter: string): (r: seq<ManagedUser>)
    ensures Subseq(r, users)
    ensures forall u :: u in r <==>
              (u in users &&
               (ContainsIgnoringCase(u.profile.email, term) || ContainsIgnoringCase(UserName(u), term)) &&
               (roleFilter == "all" || exists k :: 0 <= k < |u.roles| && u.roles[k].role.Name() == roleFilter))
  {
    FilterMembers(users, Matching(term, roleFilter));
    FilterSubseq(users, Matching(term, roleFilter));
    Filter(users, Matching(term, roleFilter))
  }

  /** The empty search with the `all` filter lists everyone. */
  lemma NoFilterListsAll(users: seq<ManagedUser>)
    ensures FilteredUsers(users, "", "all") == users
  {
    forall u | u in users ensures Matching("", "all")(u) {
      ContainsEmpty(ToLower(u.profile.email));
    }
    FilterAll(users, Matching("", "all"));
  }

  function HoldsRole(role: UserRole): ManagedUser -> bool {
    (u: ManagedUser) => exists k :: 0 <= k < |u.roles| && u.roles[k].role == role
  }

  function TutorStatusIs(status: TutorStatus): ManagedUser -> bool {
    (u: ManagedUser) => u.tutor.Some? && u.tutor.value.status == status
  }

  /**
   * The tutor-role count never exceeds the user count, and the approved and
   * pending tutor counts together do not either: a user has one tutor row
   * status at most.
   */
  lemma CountsWithinUsers(users: seq<ManagedUser>)
    ensures |Filter(users, HoldsRole(UserRole.Tutor))| <= |users|
    ensures |Filter(users, TutorStatusIs(TutorStatus.Approved))| + |Filter(users, TutorStatusIs(TutorStatus.Pending))| <= |users|
  {
    FilterDisjoint(users, TutorStatusIs(TutorStatus.Approved), TutorStatusIs(TutorStatus.Pending));
  }
}
