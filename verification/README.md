# AutoPlanning in Dafny

A model of AutoPlanning, a driving-school planner. In the browser it keeps students,
instructors and lessons in local storage. From there it books lessons on a week or team
calendar, confirms them by SMS or WhatsApp, and lists the week's lessons from Google
Calendar on a dashboard. Three serverless handlers stand behind those pages:

- `/api/google/events` lists and creates calendar events for the signed-in user.
- `/api/twilio/send-message` relays a message to Twilio.
- `/api/health` reports which services are configured.

Every page handler is a pure function from one page state to the next. Every server
handler is a function from a request and the environment to a status and a body. What
lies outside is passed in as a parameter:

- the clock: `now`, in minutes;
- fresh ids: `freshId` stands for `crypto.randomUUID()`;
- the user's answer to a `confirm()` prompt;
- JSON parsing of a token text (`isJson`);
- the calendar provider and Twilio: functions returning `Threw` or `Returned(...)`;
- the browser's `fetch`.

Modules follow the program:

| Module | Models |
|---|---|
| `Wrappers` | `Option` and `Outcome` |
| `Seqs` | `find`, `filter` and the subsequence relation |
| `Text` | `trim`, `split`, `join`, `includes`, `toLowerCase` |
| `Instant` | dates as minutes, the date-fns projections, `toISOString`/`new Date` as `Format`/`Parse` |
| `UriComponent` | `encodeURIComponent`/`decodeURIComponent` |
| `Domain` | the records of `types.ts` and the id lookups |
| `Storage` | local storage |
| `Students`, `Instructors`, `Planning`, `Dashboard` | the pages |
| `CalendarClient`, `Notification` | the browser services |
| `Http`, `GoogleAuth`, `Calendar`, `EventsApi`, `TwilioApi`, `HealthApi` | the server side |

Instants are whole minutes on the local wall clock. `Format` writes an instant as signed
decimal text and `Parse` reads it back; text it cannot read is `None` (JavaScript's
Invalid Date). The empty text is one such case. So `Parse(Format(t)) == Some(t)` is the
`new Date(d.toISOString())` round trip that lesson storage relies on.

Three behaviours a reader might expect are absent from the code, and the model follows the code:

- Confirming a lesson marks it confirmed whatever happened to the notification, even
  when none was sent.
- Lessons that overlap are drawn on top of each other. No stacking layout exists, and
  no availability check exists anywhere.
- After a create, the planning page does not re-read the calendar. It reads local
  storage only, and only when it mounts.

## Model

| member | source | states |
|---|---|---|
| Text.Trim | lib/googleAuth.js:27 | `trim` removes exactly the leading and trailing ECMAScript whitespace: the result is a middle slice of the input, everything cut off is whitespace, and the result starts and ends with non-whitespace |
| Text.TrimLeadingWhitespace | lib/googleAuth.js:27 | the space after `; ` in a Cookie header is removed by `trim`, leaving the pair itself |
| Text.SplitPiecesLackSeparator | lib/googleAuth.js:26-27 | no piece of a `split` on one character holds the separator |
| Text.JoinSplit | lib/googleAuth.js:26-27 | joining the pieces of a split with the same separator gives the text back |
| Text.SplitAround | lib/googleAuth.js:26 | a separator splits a text into the pieces before it followed by the pieces after it |
| Text.Contains | pages/Students.tsx:66-69 | `includes` holds exactly when the needle occurs at some position |
| Text.Lower | pages/Students.tsx:67-68 | `toLowerCase` keeps the length and maps every character through the ASCII lower-casing |
| Seqs.FindFirst | pages/Planning.tsx:82 | `find` gives nothing exactly when no element satisfies the predicate; otherwise it gives the first element that does |
| Seqs.Filter | pages/Planning.tsx:127 | `filter` keeps every element satisfying the predicate and only such elements, and never adds one |
| Seqs.FilterCounts | pages/Planning.tsx:127 | `filter` keeps each passing element as many times as it occurs and drops every failing one, so no duplicate is lost |
| Seqs.FilterIsSubsequence | pages/Planning.tsx:127 | `filter` keeps the survivors in their original order |
| Instant.StartOfWeek | pages/Planning.tsx:42 | `startOfWeek(t, {weekStartsOn: 1})` is a Monday midnight at or before `t`, less than a week before it |
| Instant.AtHour | pages/Planning.tsx:61 | `setMinutes(setHours(date, h), 0)` is on the same day, at hour `h`, minute 0 |
| Instant.ParseFormat | types.ts:23-24 | reading back the text written for an instant gives the instant |
| Instant.FormatInjective | types.ts:23-24 | distinct instants are written as distinct texts |
| UriComponent.Encode | lib/googleAuth.js:50 | `encodeURIComponent` output is empty only for empty input and uses only unreserved characters and `%` |
| UriComponent.EncodedHasNoDelimiters | lib/googleAuth.js:50 | an encoded value holds no `;`, `=`, `,` or whitespace, so it survives the Cookie header parser |
| UriComponent.DecodeEncode | lib/googleAuth.js:29 | `decodeURIComponent(encodeURIComponent(s)) == s` for ASCII text |
| Domain.FindStudent | pages/Planning.tsx:82 | `students.find(s => s.id === id)`: nothing exactly when no student has the id; otherwise the first listed student with that id |
| Domain.FindInstructor | pages/Planning.tsx:109 | `instructors.find(...)`: nothing exactly when no instructor has the id; otherwise the first listed instructor with that id |
| Domain.OrEmpty | pages/Students.tsx:31-33 | `field \|\| ''` is the field when it is present and non-empty, and `''` otherwise |
| Storage.Seed | services/storage.ts:18-29 | seeding writes the two instructors and the default settings only where they are absent, and touches nothing else |
| Storage.SeedIdempotent | services/storage.ts:18-31 | seeding again changes nothing |
| Storage.FreshInstallation | services/storage.ts:10-29 | a fresh installation reads no students or lessons, the two seeded instructors and the default settings |
| Storage.GetInstructors | services/storage.ts:34 | an absent entry reads as `[]` |
| Storage.SaveInstructors | services/storage.ts:35 | a save is read back and leaves the other entries unchanged |
| Storage.SaveStudents | services/storage.ts:38 | a save is read back and leaves the other entries unchanged |
| Storage.SaveLessons | services/storage.ts:41 | a save is read back and leaves the other entries unchanged |
| Storage.GetSettings | services/storage.ts:43 | absent settings read as the defaults |
| Storage.SaveSettings | services/storage.ts:44 | a save is read back and leaves the other entries unchanged |
| Storage.SaveLessonsLastWriteWins | services/storage.ts:41 | a later save of an entry replaces an earlier one |
| Students.Save | pages/Students.tsx:21-56 | without both names nothing changes. An edit rewrites the five fields of the students with the edited id, keeps every id, and leaves the others as they were. A create appends one student under the fresh id, with missing optional fields as `''` |
| Students.Delete | pages/Students.tsx:58-64 | on acceptance every student with the id goes and the others stay in order; on refusal nothing changes |
| Students.Search | pages/Students.tsx:66-69 | the listed students are exactly those whose first or last name contains the term, ignoring case, in list order |
| Students.SearchEmptyKeepsAll | pages/Students.tsx:66-69 | an empty search term lists every student |
| Students.DeleteUndoesCreate | pages/Students.tsx:40-64 | deleting the student just created gives the list back |
| Students.EditIdempotent | pages/Students.tsx:24-38 | saving the same edit twice is saving it once |
| Students.EditKeepsIds | pages/Students.tsx:25-36 | an edit neither adds nor removes an id, so it never orphans a lesson |
| Instructors.EditText | pages/Instructors.tsx:113-141 | typing into a text input sets that input and keeps the other inputs and the colour |
| Instructors.Save | pages/Instructors.tsx:19-36 | without both names nothing changes; otherwise one instructor is appended under the fresh id, with the chosen colour or the first palette colour |
| Instructors.Delete | pages/Instructors.tsx:38-44 | on acceptance every instructor with the id goes and the others stay in order; on refusal nothing changes |
| Instructors.PickColor | pages/Instructors.tsx:147-153 | clicking a swatch sets a palette colour and keeps the names |
| Instructors.SaveKeepsPalette | pages/Instructors.tsx:19-36 | since the form only takes colours from the palette, every saved instructor's colour is a palette colour |
| Instructors.DeleteKeepsPalette | pages/Instructors.tsx:38-44 | deleting keeps every colour in the palette |
| Instructors.DeleteUndoesSave | pages/Instructors.tsx:19-44 | deleting the instructor just added gives the list back |
| Planning.Init | pages/Planning.tsx:20-39 | mounting shows today in week view, with the three lists read from storage and the modal closed |
| Planning.Step | pages/Planning.tsx:45-53 | the arrows move seven days in week view and one day in team view |
| Planning.Next | pages/Planning.tsx:45-48 | next moves the shown date seven days ahead in week view and one day in team view, keeps the time of day, and changes nothing else |
| Planning.Prev | pages/Planning.tsx:50-53 | previous moves the shown date back by the same step, keeps the time of day, and changes nothing else |
| Planning.PrevAfterNext | pages/Planning.tsx:45-53 | previous after next, and next after previous, return to the same date |
| Planning.NextShowsFollowingWeek | pages/Planning.tsx:42-47 | in week view, next shows the following Monday-to-Sunday week |
| Planning.NextShowsFollowingDay | pages/Planning.tsx:45-48 | in team view, next shows the following day |
| Planning.GoToday | pages/Planning.tsx:55 | "Aujourd'hui" shows now and keeps the view and everything else |
| Planning.SetMode | pages/Planning.tsx:155-162 | the view toggle keeps the shown date, so the arrows then move by the new view's step; nothing else changes |
| Planning.SlotClick | pages/Planning.tsx:60-70 | the slot starts at minute 0 of hour `hour` on the clicked day and lasts one hour. The student is cleared, the column's instructor is pre-filled (an absent or empty id gives `''` and no pre-selection), no lesson is selected and the modal opens. Nothing else changes: the date, the view, the lists and the store are kept |
| Planning.LessonClick | pages/Planning.tsx:72-77 | the lesson is selected, its bounds become the slot and the modal opens; nothing else changes, so a student or instructor chosen earlier stays chosen |
| Planning.ChooseStudent | pages/Planning.tsx:347 | choosing a student sets the chosen student id and nothing else |
| Planning.ChooseInstructor | pages/Planning.tsx:364 | choosing an instructor sets the chosen instructor id and keeps the team-view pre-selection and everything else |
| Planning.NewLesson | pages/Planning.tsx:87-94 | the lesson a create builds has the fresh id, the chosen ids and the slot's bounds, and is unconfirmed |
| Planning.Create | pages/Planning.tsx:79-102 | without a slot, a student id, an instructor id and a known student, nothing changes. Otherwise exactly one lesson is appended after the unchanged earlier ones, the store becomes the old store with only the lessons entry replaced by the new list, the new lesson is selected, and nothing else changes |
| Planning.MarkConfirmed | pages/Planning.tsx:116 | lessons with the id become confirmed; every other lesson and the order are unchanged |
| Planning.MarkConfirmedIdempotent | pages/Planning.tsx:116 | confirming twice is confirming once, and every id is kept |
| Planning.Confirm | pages/Planning.tsx:104-122 | the notification is attempted exactly when the selected lesson's student and instructor are both known, and then it is the confirmation for that lesson, student and instructor under the stored settings. Whatever its outcome, the lessons with the selected id are confirmed, only the lessons entry of the store is replaced, and the modal closes |
| Planning.ConfirmIgnoresDelivery | pages/Planning.tsx:112-118 | the state after confirming is the same whether the message was delivered, failed, or never sent |
| Planning.Delete | pages/Planning.tsx:124-132 | on acceptance every lesson with the selected id goes, the rest stay in order, only the lessons entry of the store is replaced by them, and the modal closes; otherwise nothing changes |
| Planning.DeleteUndoesCreate | pages/Planning.tsx:79-132 | deleting the lesson just created gives the lessons back |
| Planning.ConfirmAfterCreate | pages/Planning.tsx:79-122 | confirming the lesson just created confirms it and leaves the earlier lessons unchanged |
| Planning.WeekDays | pages/Planning.tsx:42-43 | the week view shows seven consecutive days from Monday |
| Planning.WeekColumn | pages/Planning.tsx:222-223 | a week column holds exactly the lessons starting that day |
| Planning.WeekColumnsPartitionTheWeek | pages/Planning.tsx:222-223 | a lesson starting in the shown week is in exactly one week column, the one for its start day |
| Planning.TeamColumn | pages/Planning.tsx:243-247 | a team column holds exactly the current day's lessons with that instructor id |
| Planning.TeamColumnsPartitionTheDay | pages/Planning.tsx:243-247 | a lesson of the shown day is in its own instructor's team column and in no other |
| Planning.Geometry | pages/Planning.tsx:392-400 | the top is a number exactly when the start is a readable date, and is then the start's `Top`; the height is a number exactly when both bounds are readable, and is then the duration at 64 pixels an hour |
| Planning.TopIsScaledMinutes | pages/Planning.tsx:394-399 | the block's top is the number of minutes after 8 o'clock at 64/60 pixels a minute |
| Planning.TopMonotone | pages/Planning.tsx:394-399 | within a day, a later start is drawn lower |
| Planning.BookedRowGeometry | pages/Planning.tsx:392-400 | a lesson booked from grid row `i` is drawn at top `64 i` and is one cell high |
| Planning.OverlappingLessonsOverlapOnScreen | pages/Planning.tsx:392-400 | lessons whose times overlap on one day are drawn over each other: the later block starts inside the earlier one |
| CalendarClient.BackendUrl | services/googleCalendar.ts:6-19 | `VITE_BACKEND_URL` when set; else the local Express server on `localhost`; else the empty text |
| CalendarClient.EventsUrl | services/googleCalendar.ts:22-24 | the events URL is the backend plus `/google/events`, or `/api/google/events` when there is no backend |
| CalendarClient.ListUrlParameters | services/googleCalendar.ts:29 | the list URL carries each bound as one encoded value free of `&` and `=`, which decodes back to the bound for ASCII text |
| CalendarClient.ItemUrl | services/googleCalendar.ts:69 | the per-event URL is the events URL, `/`, and the id |
| CalendarClient.ItemUrlInjective | services/googleCalendar.ts:69 | distinct ids address distinct events |
| CalendarClient.CreatePayload | services/googleCalendar.ts:44-56 | start and end are sent verbatim; the student id, the instructor id and the flag (`"true"` exactly when confirmed) are private properties |
| CalendarClient.CreateRequest | services/googleCalendar.ts:39-57 | creating posts to the events URL a body with the given summary and description, the lesson's bounds verbatim and exactly the three private properties: the student id, the instructor id and `"true"` exactly when confirmed |
| CalendarClient.UpdateRequest | services/googleCalendar.ts:67-72 | updating patches, with the given fields, the URL made of the events URL, `/` and the id |
| CalendarClient.DeleteRequest | services/googleCalendar.ts:83-85 | deleting targets the URL made of the events URL, `/` and the id |
| CalendarClient.RequestsAddressOneEvent | services/googleCalendar.ts:67-85 | an update and a delete reach the same event exactly when their ids are equal, and two deletes likewise |
| CalendarClient.ListRange | services/googleCalendar.ts:27-37 | listing yields the parsed items of an OK response, and `[]` on a non-OK status, a failed fetch or an unreadable body |
| GoogleAuth.OAuth2Client | lib/googleAuth.js:4-20 | there is no client unless the id and the secret are set; the redirect URI is the configured one, else the Vercel or local origin followed by the callback path |
| GoogleAuth.CollectKeeps | lib/googleAuth.js:26-32 | only pairs with both a key and a value enter the map, and the map only grows |
| GoogleAuth.UndecodableFailsParse | lib/googleAuth.js:26-32 | a pair with a key and a value that cannot be decoded fails the whole parse, wherever it stands |
| GoogleAuth.TokensFromCookies | lib/googleAuth.js:23-42 | there are no tokens when the header cannot be parsed or lacks the cookie; tokens that are found are exactly the decoded cookie value and are valid JSON; and a readable header whose cookie is valid JSON always yields it |
| GoogleAuth.SetCookieHeader | lib/googleAuth.js:45-58 | the header is the pair, `Path=/`, `SameSite=Lax`, `Secure` exactly when `VERCEL_URL` is set, and `Max-Age=31536000`, joined by `; ` with no empty attribute |
| GoogleAuth.CookieRoundTrip | lib/googleAuth.js:23-58 | a browser sending back the written pair makes the server read the same tokens |
| GoogleAuth.CookieRoundTripAfter | lib/googleAuth.js:23-58 | the same holds when the pair follows other readable cookies |
| GoogleAuth.CollectAppend | lib/googleAuth.js:26-32 | collecting over two runs of segments is collecting the first, then the second |
| GoogleAuth.RequireAuth | lib/googleAuth.js:61-74 | 500 exactly when OAuth is not configured, checked first; 401 exactly when configured without tokens; otherwise the client with the tokens |
| EventsApi.Gate | api/google/events.js:17-25 | GET and POST are refused with the auth status, then with 400 when the calendar id is unset; they pass exactly when authenticated against a configured calendar |
| EventsApi.Window | api/google/events.js:32-39 | the window is `timeMin` or now to `timeMax` or now plus seven days; an unreadable bound gives no window |
| EventsApi.WindowOfFormatted | api/google/events.js:32-44 | bounds written by `toISOString` are read back exactly |
| EventsApi.List | api/google/events.js:27-53 | 200 with the provider's items (or `[]`) exactly when the window is readable and the provider answers; 500 otherwise |
| EventsApi.InsertBody | api/google/events.js:76-84 | start and end are wrapped as `dateTime`, a missing description becomes `''`, and the extended properties pass through |
| EventsApi.Create | api/google/events.js:67-91 | 400 unless summary, start and end are all non-empty. Otherwise the provider is asked to insert the wrapped body, and the reply is 200 with its id, or 500 when it throws |
| EventsApi.Handle | api/google/events.js:10-95 | OPTIONS gives 200; GET and POST pass the gate first; any other method gives 405 |
| EventsApi.ProviderOnlyAfterGate | api/google/events.js:17-29 | a refused request gets the same reply whatever the provider would do |
| EventsApi.StatusesAreKnown | api/google/events.js:10-95 | every reply is 200, 400, 401, 405 or 500 |
| Dashboard.TimeText | pages/Dashboard.tsx:36-37 | an event time reads as its `dateTime`, else its `date`, else `''` |
| Dashboard.Normalize | pages/Dashboard.tsx:30-40 | an event reads as a lesson with the defaulted fields, confirmed exactly when the private flag is the text `"true"` |
| Dashboard.CalendarRoundTrip | pages/Dashboard.tsx:30-40 | a lesson sent by the client, inserted by the server and listed back reads as the same lesson under the provider's id |
| Dashboard.QueryRange | pages/Dashboard.tsx:22-24 | the dashboard asks for the Monday-midnight week that contains now |
| Dashboard.ThisWeek | pages/Dashboard.tsx:43-46 | the week's lessons are exactly those starting between now and the end of the week, in order |
| Dashboard.InsertKeepsOrder | pages/Dashboard.tsx:49 | inserting into a sorted list keeps it sorted |
| Dashboard.InsertAddsOne | pages/Dashboard.tsx:49 | inserting adds exactly that lesson and drops none |
| Dashboard.SortByStart | pages/Dashboard.tsx:49 | the sort gives a permutation sorted by start |
| Dashboard.Upcoming | pages/Dashboard.tsx:49 | the next lessons are the first five (or fewer) of the week's lessons sorted by start |
| Dashboard.UpcomingAreEarliest | pages/Dashboard.tsx:49 | no lesson of the week that is left out starts before one that is shown |
| Dashboard.Enrich | pages/Dashboard.tsx:51-60 | names and colour come from the lesson's student and instructor; unknown ones show as `Inconnu` and `#ccc` |
| Dashboard.Load | pages/Dashboard.tsx:17-77 | the counters are the list sizes and the week's count. The shown lessons are the enriched next ones. When loading throws, the count is 0 and nothing is shown |
| Dashboard.ShownWithinCount | pages/Dashboard.tsx:49-67 | at most five lessons are shown, never more than the week's count |
| Notification.ApiUrl | services/notification.ts:5-6 | `VITE_TWILIO_API_URL`, else the local backend |
| Notification.Resolve | services/notification.ts:18-21 | a credential is the setting, else the build variable, and is empty only when both are |
| Notification.Address | services/notification.ts:37-41 | WhatsApp numbers carry the `whatsapp:` prefix and SMS numbers are unchanged |
| Notification.MessageMentions | services/notification.ts:29 | the message names the student's first name, the date, the time and the instructor's full name |
| Notification.Plan | services/notification.ts:18-54 | no request is made exactly when a resolved credential is empty. Otherwise one request goes to the API URL, with both ends addressed for the chosen channel and the templated message |
| Notification.SendConfirmation | services/notification.ts:9-69 | the result is true exactly when a request was made and answered with an OK status |
| Notification.SameChannelBothEnds | services/notification.ts:37-41 | the recipient and the sender are addressed for the same channel |
| Notification.PlannedFieldsFilled | services/notification.ts:29-41 | a planned request always has a sender and a body, and a recipient when the student has a phone or the channel is WhatsApp |
| TwilioApi.MessagesUrl | api/twilio/send-message.js:29 | the Messages URL embeds the account SID |
| TwilioApi.MessagesUrlInjective | api/twilio/send-message.js:29 | different accounts post to different URLs |
| TwilioApi.Form | api/twilio/send-message.js:34-37 | the form is To, From, Body in that order, with the request's values |
| TwilioApi.Handle | api/twilio/send-message.js:7-62 | OPTIONS gives 200 and non-POST 405. Missing fields give 400, checked before credentials; missing credentials give 500. Twilio's non-OK answer or a failed call gives 500, and an OK answer 200 |
| TwilioApi.SuccessMeansTwilioAccepted | api/twilio/send-message.js:52-58 | a 200 reply means Twilio accepted the message |
| TwilioApi.PlannedRequestPassesFieldCheck | api/twilio/send-message.js:15-19 | the request the notification service plans is never refused for missing fields when the student has a phone |
| HealthApi.MessagesUrl | api/health.js:23-25 | a Messages URL exists exactly when the SID is set, and it is the URL the relay posts to |
| HealthApi.Check | api/health.js:29-43 | Twilio is configured exactly when the SID and token are set, and OAuth exactly when the client id and secret are. Authenticated means the cookie yields tokens; the calendar id is null when unset |
| HealthApi.ReadyIsConfigured | api/health.js:34-35 | `ready` always equals `configured` |
| HealthApi.Handle | api/health.js:9-49 | OPTIONS gives 200 and non-GET 405; GET gives the report with 200 exactly when Twilio and OAuth are configured, else 503 |
| HealthApi.StatusIgnoresAuthentication | api/health.js:46-47 | being signed in does not change the status |
| HealthApi.HealthyMeansConfigured | api/health.js:46-47 | 200 exactly when `requireAuth` cannot fail for configuration and Twilio has credentials |

## Left out

- Dates: instants are whole minutes in one fixed time zone, so seconds, milliseconds and
  daylight-saving changes are not modelled. `Format`/`Parse` stand for the ISO-8601 text,
  and no other date text (a date-only `date` field, say) can be read. The French
  `toLocaleDateString`/`toLocaleTimeString` renderings are parameters.
- UriComponent.Decode: escapes of bytes from 0x80 up are treated as errors instead of being
  decoded as UTF-8. The round trip is therefore proved for ASCII text only.
- GoogleAuth.TokensFromCookies: because of that, any cookie in the header whose value holds
  such an escape (`lang=fr%C3%A9`, say) makes the whole header unreadable and no tokens are
  found, where the source decodes it and finds the tokens.
- GoogleAuth.RequireAuth: for the same headers it answers 401, and the health report says
  unauthenticated, where the source grants access.
- Text.Lower: `toLowerCase` is modelled for ASCII letters only.
- JSON: a stored value is the value itself, and `JSON.parse` of the tokens is a parameter.
- GoogleAuth.TokensFromCookies: token JSON that parses to a falsy value (`0`, `false`,
  `null`, `""`) counts as found, where the source's `!tokens` tests would treat it as absent.
- Dashboard.SortByStart: the sort places a lesson ahead of later-listed lessons with the same
  start, as the stable `Array.prototype.sort` does, but stability is not stated in the contract.
- EventsApi.List: the `details` text of the 500 replies is left out. So are the CORS
  headers and `console` logging in all handlers.
- Notification.SendConfirmation: the two `alert` pop-ups on a failed send
  (services/notification.ts:59 and :66) are left out; only the boolean result is modelled.
- The browser services' error logging: `createEventFromLesson`, `updateEvent` and
  `deleteEvent` resolve with nothing whatever happens, so only their requests are modelled.
- The loading spinner flag, the modal's close buttons and all rendering other than the
  lesson blocks' `top`/`height` (headers, colours, labels, the `height - 2` gap).
- TwilioApi.Handle: the form-urlencoding of the parameters and the Base64 `Authorization`
  header are left out; the call carries the SID, the token and the ordered pairs instead.
- HealthApi.Check: the `status: 'ok'` text and the timestamp of the report are left out.
- `pages/Settings.tsx`, `twilio-server.js`, `components/Layout.tsx`, `App.tsx`, the OAuth
  redirect and callback handlers (`api/auth/google.js`, `api/auth/google/callback.js`) and
  the per-event handler `api/google/events/[id].js` are not part of this model.
