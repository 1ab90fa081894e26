/** The application's records (`types.ts`) and the id lookups every page performs. */
module Domain {
  import opened Wrappers
  import Seqs

  datatype Student = Student(
    id: string, firstName: string, lastName: string,
    email: string, phone: string, notes: string)

  datatype Instructor = Instructor(
    id: string, firstName: string, lastName: string,
    email: string, phone: string, color: string)

  /** A booking. `start` and `end` hold the text written by `toISOString`. */
  datatype Lesson = Lesson(
    id: string, studentId: string, instructorId: string,
    start: string, end: string, confirmed: bool)

  datatype NotificationMethod = Sms | WhatsApp

  datatype AppSettings = AppSettings(
    twilioAccountSid: string, twilioAuthToken: string, twilioPhoneNumber: string,
    notificationMethod: NotificationMethod)

  /** The instructor palette. */
  const Colors: seq<string> := [
    "#3b82f6", "#ef4444", "#10b981", "#f59e0b",
    "#8b5cf6", "#ec4899", "#06b6d4", "#84cc16"]

  const DefaultSettings := AppSettings("", "", "", Sms)

  /** `students.find(s => s.id === id)`. */
  function FindStudent(students: seq<Student>, id: string): (r: Option<Student>)
    ensures r.None? <==> forall i :: 0 <= i < |students| ==> students[i].id != id
    ensures r.Some? ==> r.value in students && r.value.id == id
    ensures r.Some? ==> exists i :: 0 <= i < |students| && students[i] == r.value
                                   && forall j :: 0 <= j < i ==> students[j].id != id
  {
    Seqs.FindFirst(students, (s: Student) => s.id == id)
  }

  /** `instructors.find(i => i.id === id)`. */
  function FindInstructor(instructors: seq<Instructor>, id: string): (r: Option<Instructor>)
    ensures r.None? <==> forall i :: 0 <= i < |instructors| ==> instructors[i].id != id
    ensures r.Some? ==> r.value in instructors && r.value.id == id
    ensures r.Some? ==> exists i :: 0 <= i < |instructors| && instructors[i] == r.value
                                   && forall j :: 0 <= j < i ==> instructors[j].id != id
  {
    Seqs.FindFirst(instructors, (s: Instructor) => s.id == id)
  }

  /** A form field holds a value JavaScript treats as true: present and not empty. */
  predicate Filled(field: Option<string>) { field.Some? && field.value != "" }

  /** `field || ''`. */
  function OrEmpty(field: Option<string>): (r: string)
    ensures Filled(field) ==> r == field.value
    ensures !Filled(field) ==> r == ""
  {
    field.GetOr("")
  }

  /** `${firstName} ${lastName}`. */
  function StudentName(s: Student): string { s.firstName + " " + s.lastName }

  function InstructorName(i: Instructor): string { i.firstName + " " + i.lastName }
}
