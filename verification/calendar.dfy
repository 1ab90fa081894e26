/** The shapes of Google Calendar events as the application exchanges them. */
module Calendar {
  import opened Wrappers

  /** An event's `start` or `end`: a timed `dateTime` or an all-day `date`. */
  datatype EventTime = EventTime(dateTime: Option<string>, date: Option<string>)

  /** `extendedProperties`, of which only the `private` map is used. */
  datatype ExtendedProperties = ExtendedProperties(privateProps: Option<map<string, string>>)

  /** An event as the provider returns it (and as the insert request body describes it). */
  datatype Event = Event(
    id: Option<string>, summary: Option<string>, description: Option<string>,
    start: Option<EventTime>, end: Option<EventTime>,
    extendedProperties: Option<ExtendedProperties>)

  /** The JSON body of `POST /api/google/events`. */
  datatype CreateBody = CreateBody(
    summary: Option<string>, description: Option<string>,
    start: Option<string>, end: Option<string>,
    extendedProperties: Option<ExtendedProperties>)

  /** The private property keys a lesson is stored under. */
  const StudentIdKey := "studentId"
  const InstructorIdKey := "instructorId"
  const ConfirmedKey := "confirmed"
}
