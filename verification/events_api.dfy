/** `api/google/events.js`: listing and creating calendar events on behalf of the
    authenticated user. The calendar provider is a pair of functions the handler calls. */
module EventsApi {
  import opened Wrappers
  import opened Domain
  import opened Http
  import opened Calendar
  import opened Instant
  import GoogleAuth

  /** What the handler reads from the request: the method (`verb`), the `Cookie` header, the
      `timeMin`/`timeMax` query parameters and the parsed JSON body. */
  datatype Request = Request(
    verb: string, cookie: string,
    timeMin: Option<string>, timeMax: Option<string>,
    body: Option<CreateBody>)

  /** The arguments of `calendar.events.list`. */
  datatype ListCall = ListCall(
    calendarId: string, timeMin: string, timeMax: string, singleEvents: bool, orderBy: string)

  /** The arguments of `calendar.events.insert`. */
  datatype InsertCall = InsertCall(calendarId: string, requestBody: Event)

  /** The provider: `list` yields `resp.data.items` (possibly absent), `insert` the created
      event; either may throw. */
  datatype Provider = Provider(
    list: ListCall -> Outcome<Option<seq<Event>>>,
    insert: InsertCall -> Outcome<Event>)

  /** The JSON bodies the handler replies with. */
  datatype Body =
    | NoBody
    | Failure(error: string)
    | Items(events: seq<Event>)
    | Created(ok: bool, id: Option<string>)

  const MissingCalendar := "GOOGLE_CALENDAR_ID manquant"
  const MissingFields := "Champs requis: summary, start, end"
  const ReadFailed := "Erreur lecture Google Calendar"
  const CreateFailed := "Erreur création Google Calendar"
  const NotAllowed := "Method not allowed"

  /** The checks GET and POST share, in order: authentication, then the calendar id.
      `None` lets the request through. */
  function Gate(req: Request, env: ServerEnv, isJson: string -> bool): (r: Option<Reply<Body>>)
    ensures r.None? <==>
              GoogleAuth.RequireAuth(env, req.cookie, isJson).Granted? && env.googleCalendarId != ""
    ensures GoogleAuth.RequireAuth(env, req.cookie, isJson).Denied? ==>
              r == Some(Reply(GoogleAuth.RequireAuth(env, req.cookie, isJson).status,
                              Failure(GoogleAuth.RequireAuth(env, req.cookie, isJson).message)))
    ensures GoogleAuth.RequireAuth(env, req.cookie, isJson).Granted? && env.googleCalendarId == "" ==>
              r == Some(Reply(400, Failure(MissingCalendar)))
  {
    match GoogleAuth.RequireAuth(env, req.cookie, isJson)
    case Denied(status, message) => Some(Reply(status, Failure(message)))
    case Granted(_, _) =>
      if env.googleCalendarId == "" then Some(Reply(400, Failure(MissingCalendar))) else None
  }

  /** One bound of the listing window: the parsed parameter when one is given (an Invalid
      Date is `None`), else the default. */
  function Bound(param: Option<string>, default: int): (r: Option<int>)
    ensures Filled(param) ==> r == Parse(param.value)
    ensures !Filled(param) ==> r == Some(default)
  {
    if Filled(param) then Parse(param.value) else Some(default)
  }

  /** The listing window: `timeMin` or now, `timeMax` or seven days from now. */
  function Window(req: Request, now: int): (r: Option<(int, int)>)
    ensures r.None? <==> ((Filled(req.timeMin) && Parse(req.timeMin.value).None?)
                          || (Filled(req.timeMax) && Parse(req.timeMax.value).None?))
    ensures r.Some? && !Filled(req.timeMin) ==> r.value.0 == now
    ensures r.Some? && !Filled(req.timeMax) ==> r.value.1 == now + MinutesPerWeek
  {
    match (Bound(req.timeMin, now), Bound(req.timeMax, now + MinutesPerWeek))
    case (Some(lo), Some(hi)) => Some((lo, hi))
    case _ => None
  }

  /** A window written by `toISOString` is read back exactly. */
  lemma WindowOfFormatted(req: Request, now: int, lo: int, hi: int)
    requires req.timeMin == Some(Format(lo)) && req.timeMax == Some(Format(hi))
    ensures Window(req, now) == Some((lo, hi))
  {
    ParseFormat(lo);
    ParseFormat(hi);
  }

  /** The listing call for a window. */
  function ListCallFor(env: ServerEnv, lo: int, hi: int): ListCall {
    ListCall(env.googleCalendarId, Format(lo), Format(hi), true, "startTime")
  }

  /** GET once the gate is passed: the items of the window, `[]` when the provider gives no
      items, 500 when a bound is an Invalid Date or the provider throws. */
  function List(req: Request, env: ServerEnv, now: int, provider: Provider): (r: Reply<Body>)
    ensures r.status == 200 || r.status == 500
    ensures r.status == 500 ==> r.body == Failure(ReadFailed)
    ensures r.status == 200 <==>
              Window(req, now).Some?
              && provider.list(ListCallFor(env, Window(req, now).value.0, Window(req, now).value.1)).Returned?
    ensures r.status == 200 ==>
              r.body == Items(provider.list(ListCallFor(env, Window(req, now).value.0,
                                                        Window(req, now).value.1)).value.GetOr([]))
  {
    match Window(req, now)
    case None => Reply(500, Failure(ReadFailed))
    case Some((lo, hi)) =>
      match provider.list(ListCallFor(env, lo, hi))
      case Threw => Reply(500, Failure(ReadFailed))
      case Returned(items) => Reply(200, Items(items.GetOr([])))
  }

  /** The request body of the insert: start and end wrapped as `dateTime`, the description
      defaulted to the empty text, the extended properties passed through. */
  function InsertBody(b: CreateBody): (e: Event)
    ensures e.id.None? && e.summary == b.summary && e.description == Some(OrEmpty(b.description))
    ensures e.start == Some(EventTime(b.start, None)) && e.end == Some(EventTime(b.end, None))
    ensures e.extendedProperties == b.extendedProperties
  {
    Event(None, b.summary, Some(OrEmpty(b.description)),
          Some(EventTime(b.start, None)), Some(EventTime(b.end, None)), b.extendedProperties)
  }

  /** The body a POST carries; a missing body reads as `{}`. */
  function BodyOf(req: Request): CreateBody {
    req.body.GetOr(CreateBody(None, None, None, None, None))
  }

  /** POST once the gate is passed: 400 unless summary, start and end are all given; else the
      provider's insert, answered with its id, or 500 when it throws. */
  function Create(req: Request, env: ServerEnv, provider: Provider): (r: Reply<Body>)
    ensures var b := BodyOf(req);
      && (!(Filled(b.summary) && Filled(b.start) && Filled(b.end)) ==> r == Reply(400, Failure(MissingFields)))
      && (Filled(b.summary) && Filled(b.start) && Filled(b.end) ==>
            var outcome := provider.insert(InsertCall(env.googleCalendarId, InsertBody(b)));
            && (outcome.Threw? ==> r == Reply(500, Failure(CreateFailed)))
            && (outcome.Returned? ==> r == Reply(200, Created(true, outcome.value.id))))
  {
    var b := BodyOf(req);
    if !(Filled(b.summary) && Filled(b.start) && Filled(b.end)) then Reply(400, Failure(MissingFields))
    else
      match provider.insert(InsertCall(env.googleCalendarId, InsertBody(b)))
      case Threw => Reply(500, Failure(CreateFailed))
      case Returned(created) => Reply(200, Created(true, created.id))
  }

  /** The handler: OPTIONS is answered at once, GET and POST pass the gate first, any other
      method is refused with 405. */
  function Handle(req: Request, env: ServerEnv, now: int, isJson: string -> bool, provider: Provider): (r: Reply<Body>)
    ensures req.verb == "OPTIONS" ==> r == Reply(200, NoBody)
    ensures req.verb != "OPTIONS" && req.verb != "GET" && req.verb != "POST" ==>
              r == Reply(405, Failure(NotAllowed))
    ensures (req.verb == "GET" || req.verb == "POST") && Gate(req, env, isJson).Some? ==>
              r == Gate(req, env, isJson).value
    ensures req.verb == "GET" && Gate(req, env, isJson).None? ==> r == List(req, env, now, provider)
    ensures req.verb == "POST" && Gate(req, env, isJson).None? ==> r == Create(req, env, provider)
  {
    if req.verb == "OPTIONS" then Reply(200, NoBody)
    else if req.verb == "GET" || req.verb == "POST" then
      match Gate(req, env, isJson)
      case Some(refusal) => refusal
      case None => if req.verb == "GET" then List(req, env, now, provider) else Create(req, env, provider)
    else Reply(405, Failure(NotAllowed))
  }

  /** The provider is reached only by an authenticated request against a configured
      calendar: a refused or unconfigured request gets the same reply whatever the provider. */
  lemma ProviderOnlyAfterGate(req: Request, env: ServerEnv, now: int, isJson: string -> bool,
                              p: Provider, q: Provider)
    requires Gate(req, env, isJson).Some?
    ensures Handle(req, env, now, isJson, p) == Handle(req, env, now, isJson, q)
  {
  }

  /** Whatever the provider and the authentication, a reply is one of the statuses the
      handler writes. */
  lemma StatusesAreKnown(req: Request, env: ServerEnv, now: int, isJson: string -> bool, p: Provider)
    ensures Handle(req, env, now, isJson, p).status in {200, 400, 401, 405, 500}
  {
  }
}
