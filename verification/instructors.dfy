/** `pages/Instructors.tsx`: adding and deleting instructors, and the palette colour
    every instructor carries. */
module Instructors {
  import opened Wrappers
  import opened Domain
  import Seqs
  import Storage

  /** The form (`Partial<Instructor>`). */
  datatype InstructorForm = InstructorForm(
    firstName: Option<string>, lastName: Option<string>,
    email: Option<string>, phone: Option<string>, color: Option<string>)

  /** The form as it is opened and as it is reset after a save: only the first colour. */
  const InitialForm := InstructorForm(None, None, None, None, Some(Colors[0]))

  predicate Complete(f: InstructorForm) { Filled(f.firstName) && Filled(f.lastName) }

  /** The form's colour is unset or one of the palette swatches. */
  predicate ColorFromPalette(f: InstructorForm) { !Filled(f.color) || f.color.value in Colors }

  /** Every instructor's colour is a palette colour. */
  predicate AllFromPalette(instructors: seq<Instructor>) {
    forall i :: 0 <= i < |instructors| ==> instructors[i].color in Colors
  }

  /** Clicking a swatch. */
  function PickColor(f: InstructorForm, c: string): (r: InstructorForm)
    requires c in Colors
    ensures ColorFromPalette(r) && r.firstName == f.firstName && r.lastName == f.lastName
  {
    f.(color := Some(c))
  }

  /** The four text inputs of the form. */
  datatype TextField = FirstName | LastName | Email | Phone

  /** What the form holds for a text input. */
  function FieldText(f: InstructorForm, field: TextField): Option<string> {
    match field
    case FirstName => f.firstName
    case LastName => f.lastName
    case Email => f.email
    case Phone => f.phone
  }

  /** Typing into a text input (`setFormData({...formData, field: value})`): that input holds
      the typed text, the other inputs and the colour are kept. */
  function EditText(f: InstructorForm, field: TextField, value: string): (r: InstructorForm)
    ensures FieldText(r, field) == Some(value)
    ensures forall g :: g != field ==> FieldText(r, g) == FieldText(f, g)
    ensures r.color == f.color
  {
    match field
    case FirstName => f.(firstName := Some(value))
    case LastName => f.(lastName := Some(value))
    case Email => f.(email := Some(value))
    case Phone => f.(phone := Some(value))
  }

  /** `handleSave`: appends the new instructor under `freshId` (the `crypto.randomUUID()`
      value); a form without both names changes nothing. */
  function Save(instructors: seq<Instructor>, f: InstructorForm, freshId: string): (r: seq<Instructor>)
    ensures !Complete(f) ==> r == instructors
    ensures Complete(f) ==>
      && |r| == |instructors| + 1 && r[..|instructors|] == instructors
      && r[|instructors|].id == freshId
      && r[|instructors|].firstName == f.firstName.value
      && r[|instructors|].lastName == f.lastName.value
      && r[|instructors|].email == OrEmpty(f.email)
      && r[|instructors|].phone == OrEmpty(f.phone)
      && r[|instructors|].color == (if Filled(f.color) then f.color.value else Colors[0])
  {
    if !Complete(f) then instructors
    else
      var color := if Filled(f.color) then f.color.value else Colors[0];
      instructors + [Instructor(freshId, f.firstName.value, f.lastName.value,
                                OrEmpty(f.email), OrEmpty(f.phone), color)]
  }

  /** `handleDelete`, `accepted` being the answer to the confirmation prompt. */
  function Delete(instructors: seq<Instructor>, id: string, accepted: bool): (r: seq<Instructor>)
    ensures !accepted ==> r == instructors
    ensures accepted ==> forall i :: 0 <= i < |r| ==> r[i].id != id
    ensures accepted ==> forall i :: 0 <= i < |instructors| && instructors[i].id != id ==> instructors[i] in r
    ensures accepted ==> Seqs.IsSubsequence(r, instructors)
  {
    if accepted then
      Seqs.FilterIsSubsequence(instructors, (s: Instructor) => s.id != id);
      Seqs.Filter(instructors, (s: Instructor) => s.id != id)
    else instructors
  }

  /** The form only ever gets its colour from the palette, so saving keeps every
      instructor's colour in the palette. */
  lemma SaveKeepsPalette(instructors: seq<Instructor>, f: InstructorForm, freshId: string)
    requires AllFromPalette(instructors) && ColorFromPalette(f)
    ensures AllFromPalette(Save(instructors, f, freshId))
  {
    var r := Save(instructors, f, freshId);
    if Complete(f) {
      forall i | 0 <= i < |r| ensures r[i].color in Colors {
        if i < |instructors| { assert r[i] == instructors[i]; }
      }
    }
  }

  /** Deleting keeps every remaining colour in the palette. */
  lemma DeleteKeepsPalette(instructors: seq<Instructor>, id: string, accepted: bool)
    requires AllFromPalette(instructors)
    ensures AllFromPalette(Delete(instructors, id, accepted))
  {
    var r := Delete(instructors, id, accepted);
    forall i | 0 <= i < |r| ensures r[i].color in Colors {
      assert r[i] in instructors;
    }
  }


  /** Deleting the instructor just added (under an id no one had) gives the list back. */
  lemma DeleteUndoesSave(instructors: seq<Instructor>, f: InstructorForm, freshId: string)
    requires forall i :: 0 <= i < |instructors| ==> instructors[i].id != freshId
    ensures Delete(Save(instructors, f, freshId), freshId, true) == instructors
  {
    var p := (s: Instructor) => s.id != freshId;
    if Complete(f) {
      var r := Save(instructors, f, freshId);
      assert r == instructors + [r[|instructors|]];
      Seqs.FilterAppend(instructors, [r[|instructors|]], p);
      assert Seqs.Filter([r[|instructors|]], p) == [];
    }
    Seqs.FilterAll(instructors, p);
  }
}
