/** `services/storage.ts`: the four localStorage entries and the seeding run at load time.
    JSON (de)serialisation is the identity here, so each entry holds the value itself;
    `None` is an absent key. */
module Storage {
  import opened Wrappers
  import opened Domain

  /** The keys `autoplanning_instructors`, `autoplanning_students`, `autoplanning_lessons`
      and `autoplanning_settings`, one field each. */
  datatype Store = Store(
    instructors: Option<seq<Instructor>>,
    students: Option<seq<Student>>,
    lessons: Option<seq<Lesson>>,
    settings: Option<AppSettings>)

  const EmptyStore := Store(None, None, None, None)

  /** The two instructors written on first load. */
  const SeedInstructors: seq<Instructor> := [
    Instructor("1", "Jean", "Dupont", "jean@ecole.fr", "0600000001", Colors[0]),
    Instructor("2", "Marie", "Curie", "marie@ecole.fr", "0600000002", Colors[5])]

  /** `seedData`: writes the instructors and the default settings where they are absent. */
  function Seed(st: Store): (r: Store)
    ensures st.instructors.None? ==> r.instructors == Some(SeedInstructors)
    ensures st.instructors.Some? ==> r.instructors == st.instructors
    ensures st.settings.None? ==> r.settings == Some(DefaultSettings)
    ensures st.settings.Some? ==> r.settings == st.settings
    ensures r.students == st.students && r.lessons == st.lessons
  {
    var withInstructors := if st.instructors.None? then st.(instructors := Some(SeedInstructors)) else st;
    if withInstructors.settings.None? then withInstructors.(settings := Some(DefaultSettings))
    else withInstructors
  }

  /** Seeding twice is seeding once. */
  lemma SeedIdempotent(st: Store)
    ensures Seed(Seed(st)) == Seed(st)
  {
  }

  function GetInstructors(st: Store): (r: seq<Instructor>)
    ensures st.instructors.None? ==> r == []
    ensures st.instructors.Some? ==> r == st.instructors.value
  {
    st.instructors.GetOr([])
  }

  function SaveInstructors(st: Store, data: seq<Instructor>): (r: Store)
    ensures GetInstructors(r) == data
    ensures r.students == st.students && r.lessons == st.lessons && r.settings == st.settings
  {
    st.(instructors := Some(data))
  }

  function GetStudents(st: Store): (r: seq<Student>)
    ensures st.students.None? ==> r == []
    ensures st.students.Some? ==> r == st.students.value
  {
    st.students.GetOr([])
  }

  function SaveStudents(st: Store, data: seq<Student>): (r: Store)
    ensures GetStudents(r) == data
    ensures r.instructors == st.instructors && r.lessons == st.lessons && r.settings == st.settings
  {
    st.(students := Some(data))
  }

  function GetLessons(st: Store): (r: seq<Lesson>)
    ensures st.lessons.None? ==> r == []
    ensures st.lessons.Some? ==> r == st.lessons.value
  {
    st.lessons.GetOr([])
  }

  function SaveLessons(st: Store, data: seq<Lesson>): (r: Store)
    ensures GetLessons(r) == data
    ensures r.instructors == st.instructors && r.students == st.students && r.settings == st.settings
  {
    st.(lessons := Some(data))
  }

  function GetSettings(st: Store): (r: AppSettings)
    ensures st.settings.None? ==> r == DefaultSettings
    ensures st.settings.Some? ==> r == st.settings.value
  {
    st.settings.GetOr(DefaultSettings)
  }

  function SaveSettings(st: Store, data: AppSettings): (r: Store)
    ensures GetSettings(r) == data
    ensures r.instructors == st.instructors && r.students == st.students && r.lessons == st.lessons
  {
    st.(settings := Some(data))
  }

  /** A fresh installation reads no students or lessons, the two seeded instructors and
      the default settings. */
  lemma FreshInstallation()
    ensures GetStudents(Seed(EmptyStore)) == [] && GetLessons(Seed(EmptyStore)) == []
    ensures GetInstructors(Seed(EmptyStore)) == SeedInstructors
    ensures GetSettings(Seed(EmptyStore)) == DefaultSettings
  {
  }

  /** A later save of an entry replaces an earlier one: last write wins. */
  lemma SaveLessonsLastWriteWins(st: Store, a: seq<Lesson>, b: seq<Lesson>)
    ensures SaveLessons(SaveLessons(st, a), b) == SaveLessons(st, b)
  {
  }
}
