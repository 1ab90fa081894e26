/** `services/googleCalendar.ts`: the browser-side client of the calendar endpoints. */
module CalendarClient {
  import opened Wrappers
  import opened Domain
  import opened Calendar
  import UriComponent

  const LocalBackend := "http://localhost:4000/api"
  const RelativeEventsUrl := "/api/google/events"

  /** `getBackendUrl`: `VITE_BACKEND_URL` when set, else the local Express server when the
      page is served from `localhost`, else the empty string. `hostname` is `None` when there
      is no `window`. */
  function BackendUrl(viteBackendUrl: string, hostname: Option<string>): (r: string)
    ensures viteBackendUrl != "" ==> r == viteBackendUrl
    ensures viteBackendUrl == "" && hostname == Some("localhost") ==> r == LocalBackend
    ensures viteBackendUrl == "" && hostname != Some("localhost") ==> r == ""
  {
    if viteBackendUrl != "" then viteBackendUrl
    else if hostname == Some("localhost") then LocalBackend
    else ""
  }

  /** `GOOGLE_EVENTS_URL`. */
  function EventsUrl(backend: string): (r: string)
    ensures backend != "" ==> r == backend + "/google/events"
    ensures backend == "" ==> r == RelativeEventsUrl
    ensures |r| > 0
  {
    if backend != "" then backend + "/google/events" else RelativeEventsUrl
  }

  /** The URL `listRange` fetches. */
  function ListUrl(eventsUrl: string, timeMin: string, timeMax: string): string {
    eventsUrl + "?timeMin=" + UriComponent.Encode(timeMin) + "&timeMax=" + UriComponent.Encode(timeMax)
  }

  /** `listRange`'s query: each bound is one encoded value that holds no `&` or `=`, so the
      two parameters stay apart, and (for ASCII text such as ISO-8601 instants) it decodes
      back to the bound given. */
  lemma ListUrlParameters(eventsUrl: string, timeMin: string, timeMax: string)
    requires UriComponent.IsAscii(timeMin) && UriComponent.IsAscii(timeMax)
    ensures exists a, b ::
      && ListUrl(eventsUrl, timeMin, timeMax) == eventsUrl + "?timeMin=" + a + "&timeMax=" + b
      && '&' !in a && '=' !in a && '&' !in b && '=' !in b
      && UriComponent.Decode(a) == Some(timeMin) && UriComponent.Decode(b) == Some(timeMax)
  {
    var a, b := UriComponent.Encode(timeMin), UriComponent.Encode(timeMax);
    UriComponent.DecodeEncode(timeMin);
    UriComponent.DecodeEncode(timeMax);
    UriComponent.EncodedHasNoDelimiters(timeMin);
    UriComponent.EncodedHasNoDelimiters(timeMax);
    assert '&' !in a && '&' !in b;
  }

  /** `${GOOGLE_EVENTS_URL}/${id}`, the id inserted as it is. */
  function ItemUrl(eventsUrl: string, id: string): (r: string)
    ensures |r| == |eventsUrl| + 1 + |id|
    ensures r[..|eventsUrl|] == eventsUrl && r[|eventsUrl|] == '/' && r[|eventsUrl| + 1..] == id
  {
    eventsUrl + "/" + id
  }

  /** Distinct ids address distinct events. */
  lemma ItemUrlInjective(eventsUrl: string, a: string, b: string)
    requires ItemUrl(eventsUrl, a) == ItemUrl(eventsUrl, b)
    ensures a == b
  {
    assert a == ItemUrl(eventsUrl, a)[|eventsUrl| + 1..];
  }

  /** `confirmed` as a private property value. */
  function ConfirmedText(confirmed: bool): string {
    if confirmed then "true" else "false"
  }

  /** The body `createEventFromLesson` sends: start and end verbatim, the ids and the flag as
      private properties. */
  function CreatePayload(l: Lesson, summary: string, description: string): (b: CreateBody)
    ensures b.start == Some(l.start) && b.end == Some(l.end)
    ensures b.summary == Some(summary) && b.description == Some(description)
    ensures b.extendedProperties.Some? && b.extendedProperties.value.privateProps.Some?
    ensures var props := b.extendedProperties.value.privateProps.value;
      && props.Keys == {StudentIdKey, InstructorIdKey, ConfirmedKey}
      && props[StudentIdKey] == l.studentId && props[InstructorIdKey] == l.instructorId
      && (props[ConfirmedKey] == "true" <==> l.confirmed)
  {
    var props := map[StudentIdKey := l.studentId, InstructorIdKey := l.instructorId,
                     ConfirmedKey := ConfirmedText(l.confirmed)];
    CreateBody(Some(summary), Some(description), Some(l.start), Some(l.end),
               Some(ExtendedProperties(Some(props))))
  }

  /** The fields `updateEvent` may send. */
  datatype EventPatch = EventPatch(
    summary: Option<string>, description: Option<string>,
    start: Option<string>, end: Option<string>, confirmed: Option<bool>)

  /** The three requests the client makes besides listing. */
  datatype Request =
    | Post(url: string, body: CreateBody)
    | Patch(url: string, patch: EventPatch)
    | Delete(url: string)

  /** `createEventFromLesson`: posts to the collection URL. */
  function CreateRequest(eventsUrl: string, l: Lesson, summary: string, description: string): (r: Request)
    ensures r.Post? && r.url == eventsUrl
    ensures r.body.summary == Some(summary) && r.body.description == Some(description)
    ensures r.body.start == Some(l.start) && r.body.end == Some(l.end)
    ensures r.body.extendedProperties.Some? && r.body.extendedProperties.value.privateProps.Some?
    ensures var props := r.body.extendedProperties.value.privateProps.value;
      && props.Keys == {StudentIdKey, InstructorIdKey, ConfirmedKey}
      && props[StudentIdKey] == l.studentId && props[InstructorIdKey] == l.instructorId
      && (props[ConfirmedKey] == "true" <==> l.confirmed)
  {
    Post(eventsUrl, CreatePayload(l, summary, description))
  }

  /** `updateEvent`: patches the per-id URL with the fields given. */
  function UpdateRequest(eventsUrl: string, id: string, patch: EventPatch): (r: Request)
    ensures r.Patch? && r.patch == patch
    ensures |r.url| == |eventsUrl| + 1 + |id|
    ensures r.url[..|eventsUrl| + 1] == eventsUrl + "/" && r.url[|eventsUrl| + 1..] == id
  {
    Patch(ItemUrl(eventsUrl, id), patch)
  }

  /** `deleteEvent`: deletes the per-id URL. */
  function DeleteRequest(eventsUrl: string, id: string): (r: Request)
    ensures r.Delete?
    ensures |r.url| == |eventsUrl| + 1 + |id|
    ensures r.url[..|eventsUrl| + 1] == eventsUrl + "/" && r.url[|eventsUrl| + 1..] == id
  {
    Delete(ItemUrl(eventsUrl, id))
  }

  /** An update and a delete address one event each: different ids never touch the same
      event, and the two requests for one id target the same event. */
  lemma RequestsAddressOneEvent(eventsUrl: string, a: string, b: string, patch: EventPatch)
    ensures DeleteRequest(eventsUrl, a).url == DeleteRequest(eventsUrl, b).url <==> a == b
    ensures UpdateRequest(eventsUrl, a, patch).url == DeleteRequest(eventsUrl, b).url <==> a == b
  {
    if DeleteRequest(eventsUrl, a).url == DeleteRequest(eventsUrl, b).url {
      ItemUrlInjective(eventsUrl, a, b);
    }
  }

  /** What `fetch` resolved to: the status and what `res.json()` gave. */
  datatype Response = Response(ok: bool, status: int, json: Outcome<seq<Event>>)

  /** `listRange`: the parsed body of an OK response, and `[]` on a non-OK status, a failed
      fetch or an unreadable body; it never throws. */
  function ListRange(fetched: Outcome<Response>): (r: seq<Event>)
    ensures fetched.Threw? ==> r == []
    ensures fetched.Returned? && !fetched.value.ok ==> r == []
    ensures fetched.Returned? && fetched.value.ok && fetched.value.json.Threw? ==> r == []
    ensures fetched.Returned? && fetched.value.ok && fetched.value.json.Returned? ==>
              r == fetched.value.json.value
    ensures r != [] ==> fetched.Returned? && fetched.value.ok
  {
    match fetched
    case Threw => []
    case Returned(res) =>
      if !res.ok then []
      else match res.json
        case Threw => []
        case Returned(items) => items
  }
}
