/**
 * The tutor directory: the approved tutors and the subject catalogue, the
 * search, subject and category filters, the category list, the subject
 * choices under a category, clearing the filters and the tutor's name.
 */
module FindTutors {
  import opened Wrappers
  import opened Strings
  import opened Seqs
  import opened Schema

  /** The profile columns the directory joins; each may be missing. */
  datatype TutorProfile = TutorProfile(firstName: Option<string>, lastName: Option<string>, bio: Option<string>)

  /** One of the tutor's subjects with its proficiency. */
  datatype TaughtSubject = TaughtSubject(subject: SubjectRow, proficiencyLevel: Option<string>)

  /** A tutor as the directory holds it. */
  datatype Tutor = Tutor(row: TutorRow, profile: Option<TutorProfile>, subjects: seq<TaughtSubject>)

  /** The three filter inputs; the empty string means no filter. */
  datatype Filters = Filters(searchTerm: string, selectedSubject: Uuid, selectedCategory: string)

  /** The page's data: the listed tutors and the subject catalogue. */
  datatype Directory = Directory(tutors: seq<Tutor>, subjects: seq<SubjectRow>)

  function IsApproved(t: Tutor): bool {
    t.row.status == TutorStatus.Approved
  }

  /**
   * `fetchData`: the approved tutors (`.eq('status', 'approved')`) and the
   * catalogue replace the old data when both queries succeed; if either
   * fails nothing changes.
   */
  function FetchData(current: Directory, tutorTable: Query<seq<Tutor>>, subjects: Query<seq<SubjectRow>>): (r: Directory)
    ensures tutorTable.QueryError? || subjects.QueryError? ==> r == current
    ensures tutorTable.QueryOk? && subjects.QueryOk? ==>
              r.subjects == subjects.data && Subseq(r.tutors, tutorTable.data) &&
              forall t :: t in r.tutors <==> t in tutorTable.data && t.row.status == TutorStatus.Approved
  {
    if tutorTable.QueryError? || subjects.QueryError? then current
    else
      FilterMembers(tutorTable.data, IsApproved);
      FilterSubseq(tutorTable.data, IsApproved);
      Directory(Filter(tutorTable.data, IsApproved), subjects.data)
  }

  /** `tutor.profile?.<field>?.toLowerCase().includes(term)`: an absent profile or field never matches. */
  predicate ProfileContains(p: Option<TutorProfile>, field: TutorProfile -> Option<string>, term: string) {
    p.Some? && OptionalContains(field(p.value), term)
  }

  function FirstName(p: TutorProfile): Option<string> { p.firstName }
  function LastName(p: TutorProfile): Option<string> { p.lastName }
  function Bio(p: TutorProfile): Option<string> { p.bio }

  /** The search: first name, last name, bio or one of the subject names contains the term, ignoring case. */
  predicate MatchesSearch(t: Tutor, term: string) {
    ProfileContains(t.profile, FirstName, term) ||
    ProfileContains(t.profile, LastName, term) ||
    ProfileContains(t.profile, Bio, term) ||
    exists k :: 0 <= k < |t.subjects| && ContainsIgnoringCase(t.subjects[k].subject.name, term)
  }

  /** No subject selected, or the tutor teaches the selected one. */
  predicate MatchesSubject(t: Tutor, subjectId: Uuid) {
    subjectId == "" || exists k :: 0 <= k < |t.subjects| && t.subjects[k].subject.id == subjectId
  }

  /** No category selected, or one of the tutor's subjects is in it. */
  predicate MatchesCategory(t: Tutor, category: string) {
    category == "" || exists k :: 0 <= k < |t.subjects| && t.subjects[k].subject.category == Some(category)
  }

  predicate Listed(t: Tutor, f: Filters) {
    MatchesSearch(t, f.searchTerm) && MatchesSubject(t, f.selectedSubject) && MatchesCategory(t, f.selectedCategory)
  }

  function ListedBy(f: Filters): Tutor -> bool {
    (t: Tutor) => Listed(t, f)
  }

  /** `filteredTutors`: the tutors passing all three filters, in order. */
  function FilteredTutors(tutors: seq<Tutor>, f: Filters): (r: seq<Tutor>)
    ensures Subseq(r, tutors)
    ensures forall t :: t in r <==>
              (t in tutors && MatchesSearch(t, f.searchTerm) && MatchesSubject(t, f.selectedSubject) &&
               MatchesCategory(t, f.selectedCategory))
  {
    FilterMembers(tutors, ListedBy(f));
    FilterSubseq(tutors, ListedBy(f));
    Filter(tutors, ListedBy(f))
  }

  /** An empty subject or category filter accepts every tutor, so only the other filters decide. */
  lemma EmptyFiltersAcceptAll(t: Tutor, term: string)
    ensures MatchesSubject(t, "") && MatchesCategory(t, "")
    ensures Listed(t, Filters(term, "", "")) <==> MatchesSearch(t, term)
  {
  }

  /** "Clear Filters": the search term, subject and category all become empty. */
  function ClearFilters(f: Filters): (r: Filters)
    ensures r.searchTerm == "" && r.selectedSubject == "" && r.selectedCategory == ""
  {
    Filters("", "", "")
  }

  /**
   * After clearing, a tutor is listed exactly when it has something the empty
   * search can match: a first name, last name or bio, or at least one subject.
   */
  lemma ClearedFiltersListSearchableTutors(tutors: seq<Tutor>, f: Filters, t: Tutor)
    requires t in tutors
    ensures t in FilteredTutors(tutors, ClearFilters(f)) <==>
              (t.profile.Some? && (t.profile.value.firstName.Some? || t.profile.value.lastName.Some? || t.profile.value.bio.Some?)) ||
              t.subjects != []
  {
    var term := "";
    if t.profile.Some? && t.profile.value.firstName.Some? {
      ContainsEmpty(ToLower(t.profile.value.firstName.value));
    }
    if t.profile.Some? && t.profile.value.lastName.Some? {
      ContainsEmpty(ToLower(t.profile.value.lastName.value));
    }
    if t.profile.Some? && t.profile.value.bio.Some? {
      ContainsEmpty(ToLower(t.profile.value.bio.value));
    }
    if t.subjects != [] {
      ContainsEmpty(ToLower(t.subjects[0].subject.name));
      assert ContainsIgnoringCase(t.subjects[0].subject.name, term);
    }
  }

  /** A tutor with no profile and no subjects is never listed, whatever the filters. */
  lemma NamelessTutorNeverListed(tutors: seq<Tutor>, f: Filters, t: Tutor)
    requires t.profile.None? && t.subjects == []
    ensures t !in FilteredTutors(tutors, f)
  {
  }

  /** The non-empty categories of the catalogue, in catalogue order, repeats included. */
  function PresentCategories(subjects: seq<SubjectRow>): (r: seq<string>)
    ensures forall c :: c in r <==> c != "" && exists k :: 0 <= k < |subjects| && subjects[k].category == Some(c)
  {
    if subjects == [] then []
    else
      var rest := PresentCategories(subjects[1..]);
      assert forall k :: 1 <= k < |subjects| ==> subjects[k] == subjects[1..][k - 1];
      (if Truthy(subjects[0].category) then [subjects[0].category.value] else []) + rest
  }

  function SameName(c: string): string {
    c
  }

  /**
   * `[...new Set(subjects.map(s => s.category))].filter(Boolean)`: the
   * catalogue's non-empty categories, each once, in first-seen order.
   */
  function Categories(subjects: seq<SubjectRow>): (r: seq<string>)
    ensures Distinct(r)
    ensures Subseq(r, PresentCategories(subjects))
    ensures InFirstSeenOrder(r, PresentCategories(subjects), SameName)
    ensures forall c :: c in r <==> c != "" && exists k :: 0 <= k < |subjects| && subjects[k].category == Some(c)
  {
    var present := PresentCategories(subjects);
    var r := Dedup(present, SameName);
    SubseqMembers(r, present);
    r
  }

  function InCategory(category: string): SubjectRow -> bool {
    (s: SubjectRow) => s.category == Some(category)
  }

  /** The subject choices: the whole catalogue, or only the selected category's subjects, in catalogue order. */
  function SubjectChoices(subjects: seq<SubjectRow>, category: string): (r: seq<SubjectRow>)
    ensures category == "" ==> r == subjects
    ensures category != "" ==> Subseq(r, subjects) && forall s :: s in r <==> s in subjects && s.category == Some(category)
  {
    if category == "" then subjects
    else
      FilterMembers(subjects, InCategory(category));
      FilterSubseq(subjects, InCategory(category));
      Filter(subjects, InCategory(category))
  }

  /** `getTutorName`: the trimmed full name, or `Tutor`. */
  function TutorName(t: Tutor): (r: string)
    ensures r != []
    ensures t.profile.None? ==> r == "Tutor"
    ensures t.profile.Some? && !IsBlank(FullName(t.profile.value.firstName, t.profile.value.lastName)) ==> r == Trim(FullName(t.profile.value.firstName, t.profile.value.lastName))
    ensures t.profile.Some? && IsBlank(FullName(t.profile.value.firstName, t.profile.value.lastName)) ==> r == "Tutor"
  {
    DisplayNameMissing("Tutor");
    if t.profile.Some? then DisplayName(t.profile.value.firstName, t.profile.value.lastName, "Tutor")
    else DisplayName(None, None, "Tutor")
  }
}
