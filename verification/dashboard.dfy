/** `pages/Dashboard.tsx`: the counters and the next five lessons of the week, read from
    the calendar. */
module Dashboard {
  import opened Wrappers
  import opened Domain
  import opened Calendar
  import opened Instant
  import Seqs
  import CalendarClient
  import EventsApi

  // ----- Events read back as lessons -----

  /** `event.start?.dateTime || event.start?.date || ''`. */
  function TimeText(t: Option<EventTime>): (r: string)
    ensures t.Some? && Filled(t.value.dateTime) ==> r == t.value.dateTime.value
    ensures t.Some? && !Filled(t.value.dateTime) ==> r == OrEmpty(t.value.date)
    ensures t.None? ==> r == ""
  {
    match t
    case None => ""
    case Some(et) => if Filled(et.dateTime) then et.dateTime.value else OrEmpty(et.date)
  }

  /** `event.extendedProperties?.private || {}`. */
  function PrivateProps(e: Event): map<string, string> {
    match e.extendedProperties
    case Some(ExtendedProperties(Some(props))) => props
    case _ => map[]
  }

  /** `props[key] || ''`. */
  function Prop(props: map<string, string>, key: string): (r: string)
    ensures key in props ==> r == props[key]
    ensures key !in props ==> r == ""
  {
    if key in props then props[key] else ""
  }

  /** The lesson an event stands for; `confirmed` holds exactly when the private property
      is the text `"true"`. */
  function Normalize(e: Event): (l: Lesson)
    ensures l.id == OrEmpty(e.id)
    ensures l.studentId == Prop(PrivateProps(e), StudentIdKey)
    ensures l.instructorId == Prop(PrivateProps(e), InstructorIdKey)
    ensures l.start == TimeText(e.start) && l.end == TimeText(e.end)
    ensures l.confirmed <==> ConfirmedKey in PrivateProps(e) && PrivateProps(e)[ConfirmedKey] == "true"
  {
    var props := PrivateProps(e);
    Lesson(OrEmpty(e.id), Prop(props, StudentIdKey), Prop(props, InstructorIdKey),
           TimeText(e.start), TimeText(e.end), Prop(props, ConfirmedKey) == "true")
  }

  /** A lesson sent by the client, inserted by the events endpoint, and listed back with
      the id the provider gave it reads as the same lesson under that id: the calendar
      is a faithful store for lessons whose start and end are set. */
  lemma CalendarRoundTrip(l: Lesson, summary: string, description: string, newId: string)
    requires l.start != "" && l.end != ""
    ensures Normalize(EventsApi.InsertBody(CalendarClient.CreatePayload(l, summary, description))
                        .(id := Some(newId)))
            == l.(id := newId)
  {
    var e := EventsApi.InsertBody(CalendarClient.CreatePayload(l, summary, description)).(id := Some(newId));
    var n := Normalize(e);
    assert n.confirmed == l.confirmed;
  }

  // ----- The week window -----

  /** The range the dashboard asks for: from Monday midnight of this week, seven days. */
  function QueryRange(now: int): (r: (int, int))
    ensures r.0 <= now < r.1 && r.1 - r.0 == MinutesPerWeek
    ensures Weekday(r.0) == 1 && HourOf(r.0) == 0 && MinuteOf(r.0) == 0
  {
    (StartOfWeek(now), StartOfWeek(now) + MinutesPerWeek)
  }

  /** `d >= now && d <= end`: from now to the end of the week, bounds included; an
      unreadable start is never in the window. */
  predicate InWeek(l: Lesson, now: int) {
    match Parse(l.start)
    case None => false
    case Some(t) => now <= t <= QueryRange(now).1
  }

  /** The lessons of the rest of the week, in their listed order. */
  function ThisWeek(lessons: seq<Lesson>, now: int): (r: seq<Lesson>)
    ensures Seqs.IsSubsequence(r, lessons)
    ensures forall i :: 0 <= i < |r| ==> InWeek(r[i], now)
    ensures forall i :: 0 <= i < |lessons| && InWeek(lessons[i], now) ==> lessons[i] in r
    ensures forall i :: 0 <= i < |r| ==> r[i] in lessons
  {
    Seqs.FilterIsSubsequence(lessons, l => InWeek(l, now));
    Seqs.Filter(lessons, l => InWeek(l, now))
  }

  // ----- Ordering by start -----

  /** `new Date(l.start).getTime()`; only lessons with a readable start are ever compared. */
  function StartKey(l: Lesson): int { Parse(l.start).GetOr(0) }

  predicate SortedByStart(xs: seq<Lesson>) {
    forall i, j :: 0 <= i < j < |xs| ==> StartKey(xs[i]) <= StartKey(xs[j])
  }

  /** Places `x` before the first element that does not start earlier, so that `x` stays
      ahead of lessons with the same start. */
  function Insert(x: Lesson, xs: seq<Lesson>): seq<Lesson> {
    if |xs| == 0 then [x]
    else if StartKey(x) <= StartKey(xs[0]) then [x] + xs
    else [xs[0]] + Insert(x, xs[1..])
  }

  /** Inserting into a sorted list keeps it sorted; the result starts with `x` or with the
      list's first element. */
  lemma {:induction false} InsertKeepsOrder(x: Lesson, xs: seq<Lesson>)
    requires SortedByStart(xs)
    ensures SortedByStart(Insert(x, xs))
    ensures |Insert(x, xs)| == |xs| + 1 && (Insert(x, xs)[0] == x || Insert(x, xs)[0] == xs[0])
  {
    if |xs| > 0 && StartKey(x) > StartKey(xs[0]) {
      var rest := Insert(x, xs[1..]);
      InsertKeepsOrder(x, xs[1..]);
      assert StartKey(xs[0]) <= StartKey(rest[0]);
      assert forall k :: 0 <= k < |rest| ==> StartKey(xs[0]) <= StartKey(rest[k]);
    }
  }

  /** Inserting adds exactly `x`. */
  lemma {:induction false} InsertAddsOne(x: Lesson, xs: seq<Lesson>)
    ensures multiset(Insert(x, xs)) == multiset(xs) + multiset{x}
  {
    if |xs| > 0 && StartKey(x) > StartKey(xs[0]) {
      InsertAddsOne(x, xs[1..]);
      assert xs == [xs[0]] + xs[1..];
    }
  }

  /** `sort((a, b) => start(a) - start(b))`: a stable sort by start, giving a permutation
      of its input sorted by start. */
  function SortByStart(xs: seq<Lesson>): (r: seq<Lesson>)
    ensures SortedByStart(r)
    ensures multiset(r) == multiset(xs)
  {
    if |xs| == 0 then []
    else
      var rest := SortByStart(xs[1..]);
      InsertKeepsOrder(xs[0], rest);
      InsertAddsOne(xs[0], rest);
      assert xs == [xs[0]] + xs[1..];
      Insert(xs[0], rest)
  }

  function Min(a: int, b: int): int { if a <= b then a else b }

  /** `.slice(0, 5)` of the sorted lessons of the week. */
  function Upcoming(lessons: seq<Lesson>, now: int): (r: seq<Lesson>)
    ensures |r| == Min(5, |ThisWeek(lessons, now)|)
    ensures SortedByStart(r)
    ensures r == SortByStart(ThisWeek(lessons, now))[..|r|]
    ensures forall i :: 0 <= i < |r| ==> InWeek(r[i], now) && r[i] in lessons
  {
    var week := ThisWeek(lessons, now);
    var sorted := SortByStart(week);
    var r := sorted[..Min(5, |sorted|)];
    assert SortedByStart(r) && forall i :: 0 <= i < |r| ==> InWeek(r[i], now) && r[i] in lessons by {
      forall i | 0 <= i < |r| ensures InWeek(r[i], now) && r[i] in lessons {
        assert r[i] == sorted[i];
        assert sorted[i] in multiset(week);
        var j :| 0 <= j < |week| && week[j] == sorted[i];
      }
    }
    r
  }

  /** A lesson of the week left out of the five shown starts no earlier than any shown one. */
  lemma UpcomingAreEarliest(lessons: seq<Lesson>, now: int, l: Lesson)
    requires l in ThisWeek(lessons, now) && l !in Upcoming(lessons, now)
    ensures forall k :: 0 <= k < |Upcoming(lessons, now)| ==>
              StartKey(Upcoming(lessons, now)[k]) <= StartKey(l)
  {
    var sorted := SortByStart(ThisWeek(lessons, now));
    var r := Upcoming(lessons, now);
    assert l in multiset(sorted);
    var j :| 0 <= j < |sorted| && sorted[j] == l;
    assert forall i :: 0 <= i < |r| ==> r[i] == sorted[i];
    assert |r| <= j;
    forall k | 0 <= k < |r| ensures StartKey(r[k]) <= StartKey(l) {
      assert r[k] == sorted[k];
    }
  }

  // ----- The view -----

  /** A lesson with the names and the colour shown beside it. */
  datatype Entry = Entry(lesson: Lesson, studentName: string, instructorName: string, color: string)

  const Unknown := "Inconnu"
  const NoColor := "#ccc"

  /** Looks up the student and instructor of a lesson; a dangling id shows as `Inconnu`
      and an unknown instructor in grey. */
  function Enrich(l: Lesson, students: seq<Student>, instructors: seq<Instructor>): (e: Entry)
    ensures e.lesson == l
    ensures FindStudent(students, l.studentId).Some? ==>
              e.studentName == StudentName(FindStudent(students, l.studentId).value)
    ensures FindStudent(students, l.studentId).None? ==> e.studentName == Unknown
    ensures FindInstructor(instructors, l.instructorId).Some? ==>
              && e.instructorName == InstructorName(FindInstructor(instructors, l.instructorId).value)
              && e.color == FindInstructor(instructors, l.instructorId).value.color
    ensures FindInstructor(instructors, l.instructorId).None? ==> e.instructorName == Unknown && e.color == NoColor
  {
    var s := FindStudent(students, l.studentId);
    var i := FindInstructor(instructors, l.instructorId);
    Entry(l,
          if s.Some? then StudentName(s.value) else Unknown,
          if i.Some? then InstructorName(i.value) else Unknown,
          if i.Some? then i.value.color else NoColor)
  }

  datatype Stats = Stats(students: int, instructors: int, lessonsThisWeek: int)

  datatype View = View(stats: Stats, next: seq<Entry>)

  /** `loadDashboardData`: the counters and the enriched next lessons from the events the
      calendar yielded; when that step throws, the week count is 0 and no lesson is shown. */
  function Load(students: seq<Student>, instructors: seq<Instructor>, now: int,
                events: Outcome<seq<Event>>): (v: View)
    ensures v.stats.students == |students| && v.stats.instructors == |instructors|
    ensures events.Threw? ==> v.stats.lessonsThisWeek == 0 && v.next == []
    ensures events.Returned? ==>
              var lessons := seq(|events.value|, k requires 0 <= k < |events.value| => Normalize(events.value[k]));
              && v.stats.lessonsThisWeek == |ThisWeek(lessons, now)|
              && |v.next| == |Upcoming(lessons, now)|
              && forall k :: 0 <= k < |v.next| ==>
                   v.next[k] == Enrich(Upcoming(lessons, now)[k], students, instructors)
  {
    match events
    case Threw => View(Stats(|students|, |instructors|, 0), [])
    case Returned(es) =>
      var lessons := seq(|es|, k requires 0 <= k < |es| => Normalize(es[k]));
      var next := Upcoming(lessons, now);
      View(Stats(|students|, |instructors|, |ThisWeek(lessons, now)|),
           seq(|next|, k requires 0 <= k < |next| => Enrich(next[k], students, instructors)))
  }

  /** The dashboard never shows more lessons than it counts for the week, and at most five. */
  lemma ShownWithinCount(students: seq<Student>, instructors: seq<Instructor>, now: int,
                         events: Outcome<seq<Event>>)
    ensures |Load(students, instructors, now, events).next| <= 5
    ensures |Load(students, instructors, now, events).next|
            <= Load(students, instructors, now, events).stats.lessonsThisWeek
  {
  }
}
