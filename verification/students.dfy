/** `pages/Students.tsx`: saving (edit or create), deleting and searching students. */
module Students {
  import opened Wrappers
  import opened Domain
  import Seqs
  import Text

  /** The form (`Partial<Student>`): each field may be missing. */
  datatype StudentForm = StudentForm(
    firstName: Option<string>, lastName: Option<string>,
    email: Option<string>, phone: Option<string>, notes: Option<string>)

  /** The save button does anything only with both names filled in. */
  predicate Complete(f: StudentForm) { Filled(f.firstName) && Filled(f.lastName) }

  /** `s` with the form's fields written over it; id is kept. */
  function Apply(s: Student, f: StudentForm): Student
    requires Complete(f)
  {
    s.(firstName := f.firstName.value, lastName := f.lastName.value,
       email := OrEmpty(f.email), phone := OrEmpty(f.phone), notes := OrEmpty(f.notes))
  }

  /** `handleSave`. `editing` is the student whose edit form is open, `freshId` the value
      `crypto.randomUUID()` would return. */
  function Save(students: seq<Student>, editing: Option<Student>, f: StudentForm, freshId: string)
    : (r: seq<Student>)
    ensures !Complete(f) ==> r == students
    ensures Complete(f) && editing.Some? ==>
      && |r| == |students|
      && forall i :: 0 <= i < |students| ==>
           && r[i].id == students[i].id
           && (students[i].id == editing.value.id ==>
                 r[i].firstName == f.firstName.value && r[i].lastName == f.lastName.value
                 && r[i].email == OrEmpty(f.email) && r[i].phone == OrEmpty(f.phone)
                 && r[i].notes == OrEmpty(f.notes))
           && (students[i].id != editing.value.id ==> r[i] == students[i])
    ensures Complete(f) && editing.None? ==>
      && |r| == |students| + 1 && r[..|students|] == students
      && r[|students|] == Student(freshId, f.firstName.value, f.lastName.value,
                                  OrEmpty(f.email), OrEmpty(f.phone), OrEmpty(f.notes))
  {
    if !Complete(f) then students
    else if editing.Some? then
      seq(|students|, i requires 0 <= i < |students| =>
        if students[i].id == editing.value.id then Apply(students[i], f) else students[i])
    else
      var created := Student(freshId, f.firstName.value, f.lastName.value,
                             OrEmpty(f.email), OrEmpty(f.phone), OrEmpty(f.notes));
      students + [created]
  }

  /** `handleDelete`: when the user accepts the prompt, every student with `id` goes and the
      others stay in order; when they decline nothing changes. */
  function Delete(students: seq<Student>, id: string, accepted: bool): (r: seq<Student>)
    ensures !accepted ==> r == students
    ensures accepted ==> forall i :: 0 <= i < |r| ==> r[i].id != id
    ensures accepted ==> forall i :: 0 <= i < |students| && students[i].id != id ==> students[i] in r
    ensures Seqs.IsSubsequence(r, students)
  {
    if accepted then
      Seqs.FilterIsSubsequence(students, (s: Student) => s.id != id);
      Seqs.Filter(students, (s: Student) => s.id != id)
    else
      SubsequenceOfItself(students);
      students
  }

  lemma {:induction false} SubsequenceOfItself(xs: seq<Student>)
    ensures Seqs.IsSubsequence(xs, xs)
  {
    if |xs| > 0 { SubsequenceOfItself(xs[1..]); }
  }

  /** A student matches the search when either name holds the term, ignoring case. */
  predicate Matches(s: Student, term: string) {
    || Text.Contains(Text.Lower(s.lastName), Text.Lower(term))
    || Text.Contains(Text.Lower(s.firstName), Text.Lower(term))
  }

  /** `filteredStudents`: the matching students, in list order. */
  function Search(students: seq<Student>, term: string): (r: seq<Student>)
    ensures forall i :: 0 <= i < |r| ==> Matches(r[i], term)
    ensures forall i :: 0 <= i < |students| && Matches(students[i], term) ==> students[i] in r
    ensures Seqs.IsSubsequence(r, students)
  {
    Seqs.FilterIsSubsequence(students, (s: Student) => Matches(s, term));
    Seqs.Filter(students, (s: Student) => Matches(s, term))
  }

  /** An empty search term lists every student. */
  lemma SearchEmptyKeepsAll(students: seq<Student>)
    ensures Search(students, "") == students
  {
    forall i | 0 <= i < |students| ensures Matches(students[i], "") {
      Text.ContainsEmpty(Text.Lower(students[i].lastName));
    }
    Seqs.FilterAll(students, (s: Student) => Matches(s, ""));
  }

  /** Deleting the student just created (under an id no one had) gives the list back. */
  lemma DeleteUndoesCreate(students: seq<Student>, f: StudentForm, freshId: string)
    requires Complete(f)
    requires forall i :: 0 <= i < |students| ==> students[i].id != freshId
    ensures Delete(Save(students, None, f, freshId), freshId, true) == students
  {
    var p := (s: Student) => s.id != freshId;
    var created := Save(students, None, f, freshId)[|students|];
    assert Save(students, None, f, freshId) == students + [created];
    Seqs.FilterAppend(students, [created], p);
    Seqs.FilterAll(students, p);
    assert Seqs.Filter([created], p) == [];
  }

  /** Saving the same edit twice is saving it once. */
  lemma EditIdempotent(students: seq<Student>, editing: Student, f: StudentForm, freshId: string)
    ensures Save(Save(students, Some(editing), f, freshId), Some(editing), f, freshId)
         == Save(students, Some(editing), f, freshId)
  {
  }

  /** Editing never changes the set of ids, so it cannot orphan a lesson. */
  lemma EditKeepsIds(students: seq<Student>, editing: Student, f: StudentForm, freshId: string, id: string)
    ensures FindStudent(Save(students, Some(editing), f, freshId), id).Some?
        <==> FindStudent(students, id).Some?
  {
    var r := Save(students, Some(editing), f, freshId);
    if !Complete(f) {
    } else {
      assert forall i :: 0 <= i < |students| ==> r[i].id == students[i].id;
    }
  }
}
