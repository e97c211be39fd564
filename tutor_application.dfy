/**
 * The tutor-application form: the list editors for languages, certifications
 * and subjects, and what a submission writes. Each editor maps the form state
 * before a click to the state after it; the store calls of the submission are
 * replaced by the rows they would send.
 */
module TutorApplication {
  import opened Wrappers
  import opened Strings
  import opened Seqs
  import opened Schema

  /** A subject picked for the application, with its proficiency. */
  datatype SelectedSubject = SelectedSubject(subjectId: Uuid, subjectName: string, proficiencyLevel: string)

  /** The form fields that go into the `tutors` row. */
  datatype Form = Form(
    education: string,
    experienceYears: int,
    hourlyRate: real,
    languages: seq<string>,
    certifications: seq<string>)

  /** The page state the editors act on: the form, the picked subjects and the two draft inputs. */
  datatype Editor = Editor(form: Form, selected: seq<SelectedSubject>, newLanguage: string, newCertification: string)

  /** The form a new application starts from. */
  const InitialForm: Form := Form("", 0, 25.0, ["English"], [""])

  /** The proficiency a newly picked subject gets. */
  const DefaultProficiency: string := "intermediate"

  /** A list entry JavaScript keeps in `filter(c => c.trim())`: non-empty once trimmed. */
  predicate Filled(s: string) {
    Trim(s) != ""
  }

  /**
   * `filter(l => l.trim())`: the filled entries of a list, in their order and
   * each as often as in the list.
   */
  function FilledEntries(s: seq<string>): (r: seq<string>)
    ensures Subseq(r, s)
    ensures forall x :: x in r <==> x in s && Filled(x)
    ensures forall x :: multiset(r)[x] == if Filled(x) then multiset(s)[x] else 0
  {
    FilterMembers(s, Filled);
    FilterSubseq(s, Filled);
    FilterCount(s, Filled);
    Filter(s, Filled)
  }

  function SubjectKey(s: SelectedSubject): Uuid {
    s.subjectId
  }

  function CatalogueKey(s: SubjectRow): Uuid {
    s.id
  }

  /**
   * `addLanguage`: the trimmed draft is appended when it is non-empty and not
   * yet listed, and the draft is cleared; otherwise nothing changes. The
   * languages afterwards are the ones before plus, possibly, the draft, with
   * the old list kept as a prefix.
   */
  function AddLanguage(e: Editor): (r: Editor)
    ensures r.(form := e.form, newLanguage := e.newLanguage) == e
    ensures r.form.(languages := e.form.languages) == e.form
    ensures e.form.languages <= r.form.languages
    ensures forall x :: x in r.form.languages <==> x in e.form.languages || (x == Trim(e.newLanguage) && Filled(e.newLanguage))
    ensures Filled(e.newLanguage) && Trim(e.newLanguage) !in e.form.languages ==>
              |r.form.languages| == |e.form.languages| + 1 && r.newLanguage == ""
    ensures !Filled(e.newLanguage) || Trim(e.newLanguage) in e.form.languages ==> r == e
  {
    var t := Trim(e.newLanguage);
    if t != "" && t !in e.form.languages then
      e.(form := e.form.(languages := e.form.languages + [t]), newLanguage := "")
    else
      e
  }

  /** A duplicate-free languages list stays duplicate-free. */
  lemma AddLanguageKeepsDistinct(e: Editor)
    requires Distinct(e.form.languages)
    ensures Distinct(AddLanguage(e).form.languages)
  {
  }

  /** Clicking "add" twice adds once: the first click clears the draft. */
  lemma AddLanguageIdempotent(e: Editor)
    ensures AddLanguage(AddLanguage(e)) == AddLanguage(e)
  {
  }

  /**
   * `removeLanguage(x)`: every entry equal to `x` goes, every other entry stays
   * as often as before and in the same order.
   */
  function RemoveLanguage(e: Editor, language: string): (r: Editor)
    ensures r.(form := e.form) == e
    ensures r.form.(languages := e.form.languages) == e.form
    ensures language !in r.form.languages
    ensures forall x :: x != language ==> (x in r.form.languages <==> x in e.form.languages)
    ensures forall x :: x != language ==> multiset(r.form.languages)[x] == multiset(e.form.languages)[x]
    ensures Subseq(r.form.languages, e.form.languages)
  {
    var other := (l: string) => l != language;
    FilterMembers(e.form.languages, other);
    FilterMultiset(e.form.languages, other);
    FilterSubseq(e.form.languages, other);
    e.(form := e.form.(languages := Filter(e.form.languages, other)))
  }

  /** Removing a language that was just added restores the list before the addition. */
  lemma RemoveUndoesAddLanguage(e: Editor)
    requires Filled(e.newLanguage) && Trim(e.newLanguage) !in e.form.languages
    ensures RemoveLanguage(AddLanguage(e), Trim(e.newLanguage)).form.languages == e.form.languages
  {
    var t := Trim(e.newLanguage);
    var p := (l: string) => l != t;
    FilterAppend(e.form.languages, [t], p);
    FilterAll(e.form.languages, p);
    assert Filter([t], p) == [];
    assert RemoveLanguage(AddLanguage(e), t).form.languages == Filter(e.form.languages + [t], p);
  }

  /**
   * `addCertification`: with a non-blank draft the list becomes its filled
   * entries, in order, followed by the trimmed draft, and the draft is
   * cleared; a blank draft changes nothing.
   */
  function AddCertification(e: Editor): (r: Editor)
    ensures r.(form := e.form, newCertification := e.newCertification) == e
    ensures r.form.(certifications := e.form.certifications) == e.form
    ensures !Filled(e.newCertification) ==> r == e
  {
    var t := Trim(e.newCertification);
    if t != "" then
      e.(form := e.form.(certifications := FilledEntries(e.form.certifications) + [t]), newCertification := "")
    else
      e
  }

  /**
   * With a non-blank draft the new list is the old list's filled entries, in
   * order, followed by the trimmed draft, and the draft is cleared.
   */
  lemma AddCertificationSpec(e: Editor)
    requires Filled(e.newCertification)
    ensures var r := AddCertification(e);
            var certs := r.form.certifications;
            certs != [] && certs[|certs| - 1] == Trim(e.newCertification) &&
            Subseq(certs[..|certs| - 1], e.form.certifications) &&
            (forall c :: c in certs[..|certs| - 1] <==> c in e.form.certifications && Filled(c)) &&
            (forall c :: multiset(certs[..|certs| - 1])[c] == if Filled(c) then multiset(e.form.certifications)[c] else 0) &&
            r.newCertification == ""
  {
    var kept := FilledEntries(e.form.certifications);
    assert (kept + [Trim(e.newCertification)])[..|kept|] == kept;
  }

  /** After a certification is added, no entry of the list is blank. */
  lemma AddCertificationAllFilled(e: Editor)
    requires Filled(e.newCertification)
    ensures forall c :: c in AddCertification(e).form.certifications ==> Filled(c)
  {
    TrimIdempotent(e.newCertification);
    AddCertificationSpec(e);
    var certs := AddCertification(e).form.certifications;
    forall c | c in certs
      ensures Filled(c)
    {
      if c != certs[|certs| - 1] {
        assert c in certs[..|certs| - 1];
      }
    }
  }

  /** `removeCertification(i)`: exactly position `i` goes (nothing when `i` is out of range). */
  function RemoveCertification(e: Editor, index: int): (r: Editor)
    ensures r.(form := e.form) == e
    ensures r.form.(certifications := e.form.certifications) == e.form
    ensures 0 <= index < |e.form.certifications| ==>
              r.form.certifications == e.form.certifications[..index] + e.form.certifications[index + 1..]
    ensures !(0 <= index < |e.form.certifications|) ==> r == e
  {
    e.(form := e.form.(certifications := RemoveIndex(e.form.certifications, index)))
  }

  /** The removed certification is the only one missing: the others keep their multiplicities. */
  lemma RemoveCertificationMultiset(e: Editor, index: int)
    requires 0 <= index < |e.form.certifications|
    ensures multiset(RemoveCertification(e, index).form.certifications) + multiset{e.form.certifications[index]} ==
            multiset(e.form.certifications)
  {
    var c := e.form.certifications;
    assert c == c[..index] + [c[index]] + c[index + 1..];
  }

  /**
   * `addSubject(id)`: a subject of the catalogue that is not yet picked is
   * appended with the catalogue's name and the default proficiency; an unknown
   * or already picked id changes nothing.
   */
  function AddSubject(e: Editor, catalogue: seq<SubjectRow>, subjectId: Uuid): (r: Editor)
    ensures r.(selected := e.selected) == e
    ensures e.selected <= r.selected && |r.selected| <= |e.selected| + 1
    ensures |r.selected| == |e.selected| + 1 <==>
              (exists i :: 0 <= i < |catalogue| && catalogue[i].id == subjectId) &&
              (forall s :: s in e.selected ==> s.subjectId != subjectId)
    ensures |r.selected| == |e.selected| + 1 ==>
              var added := r.selected[|e.selected|];
              added.subjectId == subjectId && added.proficiencyLevel == DefaultProficiency &&
              exists i :: 0 <= i < |catalogue| && catalogue[i].id == subjectId && catalogue[i].name == added.subjectName
  {
    var found := FindIndex(catalogue, CatalogueKey, subjectId);
    var picked := FindIndex(e.selected, SubjectKey, subjectId);
    if found >= 0 && picked < 0 then
      e.(selected := e.selected + [SelectedSubject(subjectId, catalogue[found].name, DefaultProficiency)])
    else
      assert picked >= 0 ==> e.selected[picked] in e.selected;
      e
  }

  /** Picked subject ids stay unique. */
  lemma AddSubjectKeepsUnique(e: Editor, catalogue: seq<SubjectRow>, subjectId: Uuid)
    requires UniqueKeys(e.selected, SubjectKey)
    ensures UniqueKeys(AddSubject(e, catalogue, subjectId).selected, SubjectKey)
  {
    var r := AddSubject(e, catalogue, subjectId).selected;
    if |r| == |e.selected| + 1 {
      forall a, b | 0 <= a < b < |r| ensures SubjectKey(r[a]) != SubjectKey(r[b]) {
        if b == |e.selected| {
          assert r[a] == e.selected[a] && r[a] in e.selected;
        } else {
          assert r[a] == e.selected[a] && r[b] == e.selected[b];
        }
      }
    }
  }

  /** `removeSubject(id)`: exactly the entries with that id go; the rest keep their order. */
  function RemoveSubject(e: Editor, subjectId: Uuid): (r: Editor)
    ensures r.(selected := e.selected) == e
    ensures forall s :: s in r.selected ==> s.subjectId != subjectId
    ensures forall s :: s in e.selected && s.subjectId != subjectId ==> s in r.selected
    ensures Subseq(r.selected, e.selected)
    ensures forall x :: multiset(r.selected)[x] == if x.subjectId != subjectId then multiset(e.selected)[x] else 0
  {
    var other := (s: SelectedSubject) => s.subjectId != subjectId;
    FilterMembers(e.selected, other);
    FilterSubseq(e.selected, other);
    FilterCount(e.selected, other);
    e.(selected := Filter(e.selected, other))
  }

  /** Picked subject ids stay unique. */
  lemma RemoveSubjectKeepsUnique(e: Editor, subjectId: Uuid)
    requires UniqueKeys(e.selected, SubjectKey)
    ensures UniqueKeys(RemoveSubject(e, subjectId).selected, SubjectKey)
  {
    FilterUniqueKeys(e.selected, SubjectKey, (s: SelectedSubject) => s.subjectId != subjectId);
  }

  /**
   * `updateSubjectProficiency(id, p)`: the entries with that id get proficiency
   * `p`; the length, every id and every name, and the other entries' proficiency,
   * stay as they were.
   */
  function UpdateSubjectProficiency(e: Editor, subjectId: Uuid, proficiency: string): (r: Editor)
    ensures r.(selected := e.selected) == e
    ensures |r.selected| == |e.selected|
    ensures forall k :: 0 <= k < |r.selected| ==>
              r.selected[k].subjectId == e.selected[k].subjectId &&
              r.selected[k].subjectName == e.selected[k].subjectName &&
              r.selected[k].proficiencyLevel == (if e.selected[k].subjectId == subjectId then proficiency else e.selected[k].proficiencyLevel)
  {
    e.(selected := seq(|e.selected|, k requires 0 <= k < |e.selected| =>
         if e.selected[k].subjectId == subjectId then e.selected[k].(proficiencyLevel := proficiency) else e.selected[k]))
  }

  /** Picked subject ids stay unique, and the last proficiency chosen for a subject wins. */
  lemma UpdateSubjectProficiencyLastWins(e: Editor, subjectId: Uuid, p: string, q: string)
    ensures UniqueKeys(e.selected, SubjectKey) ==> UniqueKeys(UpdateSubjectProficiency(e, subjectId, p).selected, SubjectKey)
    ensures UpdateSubjectProficiency(UpdateSubjectProficiency(e, subjectId, p), subjectId, q) == UpdateSubjectProficiency(e, subjectId, q)
  {
  }

  /** The `tutors` upsert of a submission. */
  datatype TutorUpsert = TutorUpsert(
    userId: Uuid,
    education: string,
    experienceYears: int,
    hourlyRate: real,
    languages: seq<string>,
    certifications: seq<string>,
    status: TutorStatus)

  /** What a submission writes: the application row and one `tutor_subjects` row per picked subject. */
  datatype Submission = Submission(tutor: TutorUpsert, subjects: seq<TutorSubjectInsert>)

  /** The `tutor_subjects` rows of a submission: the application's id with each picked subject and its level, in order. */
  function SubjectRows(tutorId: Uuid, selected: seq<SelectedSubject>): (r: seq<TutorSubjectInsert>)
    ensures |r| == |selected|
    ensures forall k :: 0 <= k < |selected| ==>
              r[k] == TutorSubjectInsert(tutorId, selected[k].subjectId, Some(selected[k].proficiencyLevel))
  {
    seq(|selected|, k requires 0 <= k < |selected| =>
      TutorSubjectInsert(tutorId, selected[k].subjectId, Some(selected[k].proficiencyLevel)))
  }

  /**
   * `handleSubmit`: with no subject picked nothing is written. Otherwise the
   * row carries the filled languages and certifications in their order, the
   * existing application's status or `pending` for a new one, and the subject
   * rows pair the stored application's id with each picked subject in order.
   */
  function HandleSubmit(e: Editor, userId: Uuid, existing: Option<TutorStatus>, tutorId: Uuid): (r: Option<Submission>)
    ensures r.None? <==> e.selected == []
    ensures r.Some? ==>
              var t := r.value.tutor;
              t.userId == userId && t.education == e.form.education &&
              t.experienceYears == e.form.experienceYears && t.hourlyRate == e.form.hourlyRate &&
              t.status == (if existing.Some? then existing.value else TutorStatus.Pending)
    ensures r.Some? ==>
              Subseq(r.value.tutor.languages, e.form.languages) &&
              (forall l :: l in r.value.tutor.languages <==> l in e.form.languages && Filled(l)) &&
              Subseq(r.value.tutor.certifications, e.form.certifications) &&
              (forall c :: c in r.value.tutor.certifications <==> c in e.form.certifications && Filled(c))
    ensures r.Some? ==>
              (forall l :: multiset(r.value.tutor.languages)[l] == if Filled(l) then multiset(e.form.languages)[l] else 0) &&
              (forall c :: multiset(r.value.tutor.certifications)[c] == if Filled(c) then multiset(e.form.certifications)[c] else 0)
    ensures r.Some? ==>
              |r.value.subjects| == |e.selected| &&
              forall k :: 0 <= k < |e.selected| ==>
                r.value.subjects[k] == TutorSubjectInsert(tutorId, e.selected[k].subjectId, Some(e.selected[k].proficiencyLevel))
  {
    if e.selected == [] then
      None
    else
      var status := if existing.Some? then existing.value else TutorStatus.Pending;
      var tutor := TutorUpsert(userId, e.form.education, e.form.experienceYears, e.form.hourlyRate,
                               FilledEntries(e.form.languages), FilledEntries(e.form.certifications), status);
      Some(Submission(tutor, SubjectRows(tutorId, e.selected)))
  }

  /** With unique picked subjects, a submission never writes the same subject twice for the application. */
  lemma HandleSubmitSubjectsUnique(e: Editor, userId: Uuid, existing: Option<TutorStatus>, tutorId: Uuid)
    requires UniqueKeys(e.selected, SubjectKey)
    requires HandleSubmit(e, userId, existing, tutorId).Some?
    ensures Distinct(HandleSubmit(e, userId, existing, tutorId).value.subjects)
  {
    var rows := HandleSubmit(e, userId, existing, tutorId).value.subjects;
    forall i, j | 0 <= i < j < |rows| ensures rows[i] != rows[j] {
      assert rows[i].subjectId == SubjectKey(e.selected[i]);
      assert rows[j].subjectId == SubjectKey(e.selected[j]);
    }
  }

  /** A new application from the initial form drops the initial blank certification. */
  lemma InitialFormSubmission(selected: seq<SelectedSubject>, userId: Uuid, tutorId: Uuid)
    requires selected != []
    ensures var r := HandleSubmit(Editor(InitialForm, selected, "", ""), userId, None, tutorId);
            r.Some? && r.value.tutor.languages == ["English"] && r.value.tutor.certifications == [] &&
            r.value.tutor.status == TutorStatus.Pending
  {
    var r := HandleSubmit(Editor(InitialForm, selected, "", ""), userId, None, tutorId);
    InitialListsFiltered();
    assert r.value.tutor.languages == Filter(["English"], Filled);
    assert r.value.tutor.certifications == Filter([""], Filled);
  }

  /** The initial language is kept and the initial blank certification dropped. */
  lemma InitialListsFiltered()
    ensures Filter(InitialForm.languages, Filled) == InitialForm.languages
    ensures Filter(InitialForm.certifications, Filled) == []
  {
    assert Filled("English") by {
      assert !IsBlank("English") by { assert !IsSpace("English"[0]); }
    }
    assert !Filled("") by { assert IsBlank(""); }
    FilterSingleton("English", Filled);
    FilterSingleton("", Filled);
  }
}
