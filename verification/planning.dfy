/** `pages/Planning.tsx`: the week and team calendars, booking a lesson in a grid cell,
    confirming it (with a notification) and deleting it. The page state is a value and
    each handler a function from state to state. */
module Planning {
  import opened Wrappers
  import opened Domain
  import opened Instant
  import opened Storage
  import Seqs
  import Notification

  datatype ViewMode = Week | Team

  /** `selectedSlot`: its bounds as instants, `None` standing for an Invalid Date. */
  datatype Slot = Slot(start: Option<int>, end: Option<int>)

  /** The page's state; `store` is the browser storage the page writes through. */
  datatype Planner = Planner(
    currentDate: int, mode: ViewMode,
    lessons: seq<Lesson>, instructors: seq<Instructor>, students: seq<Student>,
    modalOpen: bool, slot: Option<Slot>,
    studentId: string, instructorId: string, preselected: Option<string>,
    selected: Option<Lesson>,
    store: Store)

  /** The state after mounting: today in week view, the three lists read from storage. */
  function Init(store: Store, now: int): (p: Planner)
    ensures p.lessons == GetLessons(store) && p.instructors == GetInstructors(store)
    ensures p.students == GetStudents(store)
    ensures p.currentDate == now && p.mode == Week && !p.modalOpen
    ensures p.slot.None? && p.selected.None?
  {
    Planner(now, Week, GetLessons(store), GetInstructors(store), GetStudents(store),
            false, None, "", "", None, None, store)
  }

  // ----- Navigation -----

  /** How far one press of the arrows moves: a week in week view, a day in team view. */
  function Step(mode: ViewMode): (d: int)
    ensures mode == Week ==> d == 7 * MinutesPerDay
    ensures mode == Team ==> d == MinutesPerDay
  {
    if mode == Week then MinutesPerWeek else MinutesPerDay
  }

  /** `handleNext`: the displayed date moves forward by one step, a whole number of days
      (seven in week view), and nothing else changes. */
  function Next(p: Planner): (r: Planner)
    ensures Day(r.currentDate) == Day(p.currentDate) + (if p.mode == Week then 7 else 1)
    ensures HourOf(r.currentDate) == HourOf(p.currentDate) && MinuteOf(r.currentDate) == MinuteOf(p.currentDate)
    ensures r.(currentDate := p.currentDate) == p
  {
    ShiftByDays(p.currentDate, if p.mode == Week then 7 else 1);
    p.(currentDate := p.currentDate + Step(p.mode))
  }

  /** `handlePrev`: the displayed date moves back by one step and nothing else changes. */
  function Prev(p: Planner): (r: Planner)
    ensures Day(r.currentDate) == Day(p.currentDate) - (if p.mode == Week then 7 else 1)
    ensures HourOf(r.currentDate) == HourOf(p.currentDate) && MinuteOf(r.currentDate) == MinuteOf(p.currentDate)
    ensures r.(currentDate := p.currentDate) == p
  {
    ShiftByDays(p.currentDate, if p.mode == Week then -7 else -1);
    p.(currentDate := p.currentDate - Step(p.mode))
  }

  /** Moving an instant by whole days moves its day and keeps its time of day. */
  lemma ShiftByDays(t: int, k: int)
    ensures Day(t + k * MinutesPerDay) == Day(t) + k
    ensures HourOf(t + k * MinutesPerDay) == HourOf(t) && MinuteOf(t + k * MinutesPerDay) == MinuteOf(t)
  {
    var u := t + k * MinutesPerDay;
    DivModDay(u, t / 1440 + k, t % 1440);
    DivModHour(u, t / 60 + 24 * k, t % 60);
  }

  /** Division by the minutes of a day, from a quotient and remainder. */
  lemma DivModDay(u: int, q: int, r: int)
    requires u == q * 1440 + r && 0 <= r < 1440
    ensures u / 1440 == q && u % 1440 == r
  {
  }

  /** Division by the minutes of an hour, from a quotient and remainder. */
  lemma DivModHour(u: int, q: int, r: int)
    requires u == q * 60 + r && 0 <= r < 60
    ensures u % 60 == r
  {
  }

  /** The arrows undo each other. */
  lemma PrevAfterNext(p: Planner)
    ensures Prev(Next(p)) == p && Next(Prev(p)) == p
  {
  }

  /** In week view the arrow shows the following week: Monday moves by seven days. */
  lemma NextShowsFollowingWeek(p: Planner)
    requires p.mode == Week
    ensures StartOfWeek(Next(p).currentDate) == StartOfWeek(p.currentDate) + MinutesPerWeek
  {
    var t := p.currentDate;
    assert (t + MinutesPerWeek) / MinutesPerDay == t / MinutesPerDay + 7;
    assert (Day(t) + 7 + 3) % 7 == (Day(t) + 3) % 7;
  }

  /** In team view the arrow shows the following day. */
  lemma NextShowsFollowingDay(p: Planner)
    requires p.mode == Team
    ensures Day(Next(p).currentDate) == Day(p.currentDate) + 1
  {
    assert (p.currentDate + MinutesPerDay) / MinutesPerDay == p.currentDate / MinutesPerDay + 1;
  }

  /** "Aujourd'hui": shows the day of `now`, in the same view, and nothing else changes. */
  function GoToday(p: Planner, now: int): (r: Planner)
    ensures r.currentDate == now
    ensures r.(currentDate := p.currentDate) == p
  {
    p.(currentDate := now)
  }

  /** The view toggle: the displayed date is kept, so team view shows the day that was
      current in week view, and the arrows now move by that view's step. */
  function SetMode(p: Planner, mode: ViewMode): (r: Planner)
    ensures r.mode == mode && Step(r.mode) == (if mode == Week then 7 else 1) * MinutesPerDay
    ensures r.(mode := p.mode) == p
  {
    p.(mode := mode)
  }

  // ----- Opening the modal -----

  /** `handleSlotClick`: a one-hour slot at `hour` o'clock on `date`, no student chosen, the
      column's instructor (if any) pre-selected, no lesson selected, the modal open. */
  function SlotClick(p: Planner, date: int, hour: int, instructorId: Option<string>): (r: Planner)
    ensures r.slot.Some? && r.slot.value.start.Some? && r.slot.value.end.Some?
    ensures 0 <= hour < 24 ==>
              var s := r.slot.value.start.value;
              SameDay(s, date) && HourOf(s) == hour && MinuteOf(s) == 0
    ensures r.slot.value.end.value == r.slot.value.start.value + MinutesPerHour
    ensures r.studentId == "" && r.selected.None? && r.modalOpen
    ensures r.instructorId == OrEmpty(instructorId)
    ensures r.preselected.Some? <==> Filled(instructorId)
    ensures r.preselected.Some? ==> r.preselected.value == instructorId.value
    ensures r.lessons == p.lessons && r.store == p.store && r.currentDate == p.currentDate
    ensures r == p.(slot := r.slot, studentId := r.studentId, preselected := r.preselected,
                    instructorId := r.instructorId, selected := r.selected, modalOpen := r.modalOpen)
  {
    var start := AtHour(date, hour);
    p.(slot := Some(Slot(Some(start), Some(start + MinutesPerHour))),
       studentId := "",
       preselected := if Filled(instructorId) then Some(instructorId.value) else None,
       instructorId := OrEmpty(instructorId),
       selected := None,
       modalOpen := true)
  }

  /** `handleLessonClick`: shows the lesson's details. Nothing else changes, so the student
      and instructor chosen before stay chosen. */
  function LessonClick(p: Planner, l: Lesson): (r: Planner)
    ensures r.selected == Some(l) && r.modalOpen
    ensures r.slot == Some(Slot(Parse(l.start), Parse(l.end)))
    ensures r.lessons == p.lessons && r.store == p.store
    ensures r == p.(selected := r.selected, slot := r.slot, modalOpen := r.modalOpen)
  {
    p.(selected := Some(l), slot := Some(Slot(Parse(l.start), Parse(l.end))), modalOpen := true)
  }

  /** The student selector: only the chosen student id changes. */
  function ChooseStudent(p: Planner, id: string): (r: Planner)
    ensures r.studentId == id
    ensures r.(studentId := p.studentId) == p
  {
    p.(studentId := id)
  }

  /** The instructor selector: only the chosen instructor id changes; the pre-selection
      made by a team-view click is kept. */
  function ChooseInstructor(p: Planner, id: string): (r: Planner)
    ensures r.instructorId == id && r.preselected == p.preselected
    ensures r.(instructorId := p.instructorId) == p
  {
    p.(instructorId := id)
  }

  // ----- Creating -----

  /** What `handleCreateLesson` needs before it does anything: a slot, a chosen student and
      instructor, and a student that exists; the instructor is not looked up. A slot bound
      that is an Invalid Date makes `toISOString` throw before anything changes. */
  predicate CanCreate(p: Planner) {
    && p.slot.Some? && p.slot.value.start.Some? && p.slot.value.end.Some?
    && p.studentId != "" && p.instructorId != ""
    && FindStudent(p.students, p.studentId).Some?
  }

  /** The lesson a successful create appends. */
  function NewLesson(p: Planner, freshId: string): (l: Lesson)
    requires CanCreate(p)
    ensures l.id == freshId && l.studentId == p.studentId && l.instructorId == p.instructorId
    ensures Parse(l.start) == p.slot.value.start && Parse(l.end) == p.slot.value.end
    ensures !l.confirmed
  {
    ParseFormat(p.slot.value.start.value);
    ParseFormat(p.slot.value.end.value);
    Lesson(freshId, FindStudent(p.students, p.studentId).value.id, p.instructorId,
           Format(p.slot.value.start.value), Format(p.slot.value.end.value), false)
  }

  /** `handleCreateLesson`: appends exactly one unconfirmed lesson for the slot and the chosen
      ids, stores the new list and selects the new lesson; otherwise nothing changes.
      `freshId` stands for `crypto.randomUUID()`. */
  function Create(p: Planner, freshId: string): (r: Planner)
    ensures !CanCreate(p) ==> r == p
    ensures CanCreate(p) ==>
              && |r.lessons| == |p.lessons| + 1
              && r.lessons[..|p.lessons|] == p.lessons
              && r.lessons[|p.lessons|] == NewLesson(p, freshId)
              && r.store == SaveLessons(p.store, r.lessons)
              && r.selected == Some(NewLesson(p, freshId))
              && r == p.(lessons := r.lessons, store := r.store, selected := r.selected)
  {
    if !CanCreate(p) then p
    else
      var l := NewLesson(p, freshId);
      var updated := p.lessons + [l];
      assert updated[..|p.lessons|] == p.lessons;
      p.(lessons := updated, store := SaveLessons(p.store, updated), selected := Some(l))
  }

  // ----- Confirming -----

  /** `lessons.map(l => l.id === id ? { ...l, confirmed: true } : l)`. */
  function MarkConfirmed(lessons: seq<Lesson>, id: string): (r: seq<Lesson>)
    ensures |r| == |lessons|
    ensures forall i :: 0 <= i < |lessons| ==>
              r[i] == if lessons[i].id == id then lessons[i].(confirmed := true) else lessons[i]
  {
    seq(|lessons|, i requires 0 <= i < |lessons| =>
          if lessons[i].id == id then lessons[i].(confirmed := true) else lessons[i])
  }

  /** Confirming twice is confirming once, and confirming keeps every id. */
  lemma MarkConfirmedIdempotent(lessons: seq<Lesson>, id: string)
    ensures MarkConfirmed(MarkConfirmed(lessons, id), id) == MarkConfirmed(lessons, id)
    ensures forall i :: 0 <= i < |lessons| ==> MarkConfirmed(lessons, id)[i].id == lessons[i].id
  {
  }

  /** What the client-side notification needs besides the page state. */
  datatype Notifier = Notifier(
    env: Notification.ClientEnv,
    localeDate: string -> string, localeTime: string -> string,
    post: Notification.SendRequest -> Outcome<bool>)

  /** `handleConfirmLesson`: when both the student and the instructor of the selected lesson
      are known, the confirmation is sent (the second component is what `sendConfirmation`
      resolved to, `None` when it was not called); then, whatever the outcome, every lesson
      with the selected id is marked confirmed, stored, and the modal closed. */
  function Confirm(p: Planner, n: Notifier): (r: (Planner, Option<bool>))
    ensures p.selected.None? ==> r == (p, None)
    ensures p.selected.Some? ==>
              var sel := p.selected.value;
              var student := FindStudent(p.students, sel.studentId);
              var instructor := FindInstructor(p.instructors, sel.instructorId);
              && (r.1.Some? <==> student.Some? && instructor.Some?)
              && (student.Some? && instructor.Some? ==>
                    r.1 == Some(Notification.SendConfirmation(sel, student.value, instructor.value,
                                  GetSettings(p.store), n.env, n.localeDate, n.localeTime, n.post)))
              && r.0.lessons == MarkConfirmed(p.lessons, sel.id)
              && r.0.store == SaveLessons(p.store, r.0.lessons)
              && !r.0.modalOpen
              && r.0 == p.(lessons := r.0.lessons, store := r.0.store, modalOpen := false)
  {
    match p.selected
    case None => (p, None)
    case Some(sel) =>
      var student := FindStudent(p.students, sel.studentId);
      var instructor := FindInstructor(p.instructors, sel.instructorId);
      var delivered :=
        if student.Some? && instructor.Some? then
          Some(Notification.SendConfirmation(sel, student.value, instructor.value, GetSettings(p.store),
                                             n.env, n.localeDate, n.localeTime, n.post))
        else None;
      var updated := MarkConfirmed(p.lessons, sel.id);
      (p.(lessons := updated, store := SaveLessons(p.store, updated), modalOpen := false), delivered)
  }

  /** The page state after confirming does not depend on whether the message went out. */
  lemma ConfirmIgnoresDelivery(p: Planner, n: Notifier, m: Notifier)
    ensures Confirm(p, n).0 == Confirm(p, m).0
  {
  }

  // ----- Deleting -----

  /** `handleDeleteLesson`: when the user accepts the prompt, every lesson with the selected
      id is removed, the rest kept in order and stored, and the modal closed; otherwise
      nothing changes. */
  function Delete(p: Planner, accepted: bool): (r: Planner)
    ensures p.selected.None? || !accepted ==> r == p
    ensures p.selected.Some? && accepted ==>
              && Seqs.IsSubsequence(r.lessons, p.lessons)
              && (forall i :: 0 <= i < |r.lessons| ==> r.lessons[i].id != p.selected.value.id)
              && (forall i :: 0 <= i < |p.lessons| && p.lessons[i].id != p.selected.value.id ==>
                    p.lessons[i] in r.lessons)
              && r.store == SaveLessons(p.store, r.lessons) && !r.modalOpen
              && r == p.(lessons := r.lessons, store := r.store, modalOpen := false)
  {
    match p.selected
    case None => p
    case Some(sel) =>
      if !accepted then p
      else
        var updated := Seqs.Filter(p.lessons, (l: Lesson) => l.id != sel.id);
        Seqs.FilterIsSubsequence(p.lessons, (l: Lesson) => l.id != sel.id);
        p.(lessons := updated, store := SaveLessons(p.store, updated), modalOpen := false)
  }

  predicate FreshId(lessons: seq<Lesson>, id: string) {
    forall i :: 0 <= i < |lessons| ==> lessons[i].id != id
  }

  /** Deleting the lesson just created, under a fresh id, gives back the lessons as they were. */
  lemma DeleteUndoesCreate(p: Planner, freshId: string)
    requires CanCreate(p) && FreshId(p.lessons, freshId)
    ensures Delete(Create(p, freshId), true).lessons == p.lessons
  {
    var l := NewLesson(p, freshId);
    var keep := (x: Lesson) => x.id != freshId;
    assert Create(p, freshId).lessons == p.lessons + [l];
    Seqs.FilterAppend(p.lessons, [l], keep);
    Seqs.FilterAll(p.lessons, keep);
    assert Seqs.Filter([l], keep) == [];
  }

  /** Confirming the lesson just created marks it, and only it, as confirmed. */
  lemma ConfirmAfterCreate(p: Planner, freshId: string, n: Notifier)
    requires CanCreate(p) && FreshId(p.lessons, freshId)
    ensures var after := Confirm(Create(p, freshId), n).0.lessons;
      && after[..|p.lessons|] == p.lessons
      && after[|p.lessons|] == NewLesson(p, freshId).(confirmed := true)
  {
    var c := Create(p, freshId);
    var after := Confirm(c, n).0.lessons;
    assert c.lessons == p.lessons + [NewLesson(p, freshId)];
    forall i | 0 <= i < |p.lessons| ensures after[i] == p.lessons[i] {
      assert c.lessons[i] == p.lessons[i];
    }
  }

  // ----- Columns -----

  /** The seven days shown in week view, Monday first. */
  function WeekDays(currentDate: int): (days: seq<int>)
    ensures |days| == 7
    ensures forall i :: 0 <= i < 7 ==> days[i] == StartOfWeek(currentDate) + i * MinutesPerDay
  {
    seq(7, i => StartOfWeek(currentDate) + i * MinutesPerDay)
  }

  /** `isSameDay(new Date(l.start), day)`; an unreadable start is on no day. */
  predicate StartsOn(l: Lesson, day: int) {
    match Parse(l.start)
    case None => false
    case Some(t) => SameDay(t, day)
  }

  /** A week-view column: the lessons starting on that day, in stored order. */
  function WeekColumn(lessons: seq<Lesson>, day: int): (r: seq<Lesson>)
    ensures forall i :: 0 <= i < |r| ==> StartsOn(r[i], day) && r[i] in lessons
    ensures forall i :: 0 <= i < |lessons| && StartsOn(lessons[i], day) ==> lessons[i] in r
  {
    Seqs.Filter(lessons, (l: Lesson) => StartsOn(l, day))
  }

  /** A team-view column: the lessons of the current day with that instructor. */
  function TeamColumn(lessons: seq<Lesson>, currentDate: int, instructorId: string): (r: seq<Lesson>)
    ensures forall i :: 0 <= i < |r| ==> StartsOn(r[i], currentDate) && r[i].instructorId == instructorId
    ensures forall i :: (0 <= i < |lessons| && StartsOn(lessons[i], currentDate) &&
                         lessons[i].instructorId == instructorId) ==> lessons[i] in r
  {
    Seqs.Filter(lessons, (l: Lesson) => StartsOn(l, currentDate) && l.instructorId == instructorId)
  }

  /** In team view a lesson of the current day sits in its own instructor's column and in
      no other. */
  lemma TeamColumnsPartitionTheDay(lessons: seq<Lesson>, currentDate: int, l: Lesson, other: string)
    requires l in lessons && StartsOn(l, currentDate)
    ensures l in TeamColumn(lessons, currentDate, l.instructorId)
    ensures other != l.instructorId ==> l !in TeamColumn(lessons, currentDate, other)
  {
    var j :| 0 <= j < |lessons| && lessons[j] == l;
    assert StartsOn(lessons[j], currentDate) && lessons[j].instructorId == l.instructorId;
  }

  /** Midnight plus whole days stays on whole days. */
  lemma DayOfShiftedMidnight(m: int, i: int)
    requires m % MinutesPerDay == 0
    ensures Day(m + i * MinutesPerDay) == Day(m) + i
  {
    assert m == Day(m) * MinutesPerDay;
    assert m + i * MinutesPerDay == (Day(m) + i) * MinutesPerDay;
  }

  /** A lesson of the lessons shown that starts in the displayed week lies in exactly one
      week-view column: the one of its start day. */
  lemma WeekColumnsPartitionTheWeek(lessons: seq<Lesson>, currentDate: int, l: Lesson, t: int)
    requires l in lessons && Parse(l.start) == Some(t)
    requires StartOfWeek(currentDate) <= t < StartOfWeek(currentDate) + MinutesPerWeek
    ensures var k := (t - StartOfWeek(currentDate)) / MinutesPerDay;
      && 0 <= k < 7
      && l in WeekColumn(lessons, WeekDays(currentDate)[k])
      && forall i :: 0 <= i < 7 && i != k ==> l !in WeekColumn(lessons, WeekDays(currentDate)[i])
  {
    var m := StartOfWeek(currentDate);
    var k := (t - m) / MinutesPerDay;
    assert m % MinutesPerDay == 0 by {
      assert m == (Day(currentDate) - (Day(currentDate) + 3) % 7) * MinutesPerDay;
    }
    DayOfShiftedMidnight(m, k);
    assert Day(t) == Day(m) + k by {
      assert t == m + k * MinutesPerDay + (t - m) % MinutesPerDay;
      assert m == Day(m) * MinutesPerDay;
    }
    var j :| 0 <= j < |lessons| && lessons[j] == l;
    assert StartsOn(lessons[j], WeekDays(currentDate)[k]);
    forall i | 0 <= i < 7 && i != k ensures l !in WeekColumn(lessons, WeekDays(currentDate)[i]) {
      DayOfShiftedMidnight(m, i);
      assert !StartsOn(l, WeekDays(currentDate)[i]);
    }
  }

  // ----- Geometry -----

  const StartHour := 8
  const EndHour := 20
  const CellHeight: real := 64.0

  /** A lesson block's position in its column, in pixels; `None` stands for the `NaN` the
      JavaScript computes from an Invalid Date. */
  datatype Block = Block(top: Option<real>, height: Option<real>)

  /** `((getHours(start) - START_HOUR) * CELL_HEIGHT) + ((start.getMinutes() / 60) * CELL_HEIGHT)`. */
  function Top(s: int): real {
    ((HourOf(s) - StartHour) as real) * CellHeight + ((MinuteOf(s) as real) / 60.0) * CellHeight
  }

  /** `renderLesson`'s `top` and `height`. The top depends on the start alone; the height is
      the duration, `NaN` when either bound is an Invalid Date. Lessons are placed
      independently of one another: there is no overlap detection or side-by-side layout. */
  function Geometry(l: Lesson): (r: Block)
    ensures r.top.Some? <==> Parse(l.start).Some?
    ensures r.top.Some? ==> r.top.value == Top(Parse(l.start).value)
    ensures r.height.Some? <==> Parse(l.start).Some? && Parse(l.end).Some?
    ensures r.height.Some? ==>
              r.height.value == ((Parse(l.end).value - Parse(l.start).value) as real / 60.0) * CellHeight
  {
    var start, end := Parse(l.start), Parse(l.end);
    Block(if start.Some? then Some(Top(start.value)) else None,
          if start.Some? && end.Some? then Some(((end.value - start.value) as real / 60.0) * CellHeight)
          else None)
  }

  /** The top is the number of minutes after 8 o'clock, scaled by 64/60 pixels per minute. */
  lemma TopIsScaledMinutes(s: int)
    ensures Top(s) == ((s - StartOfDay(s) - StartHour * MinutesPerHour) as real) * (CellHeight / 60.0)
  {
    MinuteOfDay(s);
    var h := HourOf(s) as real;
    var m := MinuteOf(s) as real;
    assert (s - StartOfDay(s) - StartHour * MinutesPerHour) as real == (h - 8.0) * 60.0 + m;
  }

  /** Later in the day is lower on the grid. */
  lemma TopMonotone(a: int, b: int)
    requires SameDay(a, b) && a <= b
    ensures Top(a) <= Top(b)
  {
    TopIsScaledMinutes(a);
    TopIsScaledMinutes(b);
    assert StartOfDay(a) == StartOfDay(b);
  }

  /** The modal after clicking grid row `i` (hour `8 + i`) and choosing a student and an
      instructor. */
  function BookingFromRow(p: Planner, date: int, i: int, column: Option<string>,
                          studentId: string, instructorId: string): (q: Planner)
    ensures q.slot == SlotClick(p, date, StartHour + i, column).slot
    ensures q.studentId == studentId && q.instructorId == instructorId
  {
    ChooseInstructor(ChooseStudent(SlotClick(p, date, StartHour + i, column), studentId), instructorId)
  }

  /** A lesson booked from grid row `i` is drawn over that row: top `64 i`, one cell high. */
  lemma BookedRowGeometry(p: Planner, date: int, i: int, column: Option<string>,
                          studentId: string, instructorId: string, freshId: string)
    requires 0 <= i < EndHour - StartHour
    requires CanCreate(BookingFromRow(p, date, i, column, studentId, instructorId))
    ensures var l := NewLesson(BookingFromRow(p, date, i, column, studentId, instructorId), freshId);
      Geometry(l) == Block(Some((i as real) * CellHeight), Some(CellHeight))
  {
    var q := BookingFromRow(p, date, i, column, studentId, instructorId);
    var s := q.slot.value.start.value;
    assert HourOf(s) == StartHour + i && MinuteOf(s) == 0;
  }

  /** Lessons whose times overlap on one day are drawn over each other: the later block
      starts inside the earlier one. */
  lemma OverlappingLessonsOverlapOnScreen(a: Lesson, b: Lesson)
    requires Parse(a.start).Some? && Parse(a.end).Some? && Parse(b.start).Some?
    requires SameDay(Parse(a.start).value, Parse(b.start).value)
    requires Parse(a.start).value <= Parse(b.start).value < Parse(a.end).value
    ensures Geometry(a).top.value <= Geometry(b).top.value
    ensures Geometry(b).top.value < Geometry(a).top.value + Geometry(a).height.value
  {
    var sa, sb, ea := Parse(a.start).value, Parse(b.start).value, Parse(a.end).value;
    TopIsScaledMinutes(sa);
    TopIsScaledMinutes(sb);
    assert StartOfDay(sa) == StartOfDay(sb);
    assert Top(sb) - Top(sa) == ((sb - sa) as real) * (CellHeight / 60.0);
  }
}
