/** `services/notification.ts`: the confirmation message sent to a student through the
    backend's Twilio endpoint. */
module Notification {
  import opened Wrappers
  import opened Domain
  import Text

  /** The `VITE_*` build variables the service reads; the empty text stands for unset. */
  datatype ClientEnv = ClientEnv(
    twilioAccountSid: string, twilioAuthToken: string, twilioPhoneNumber: string,
    twilioApiUrl: string)

  const DefaultApiUrl := "http://localhost:4000/api/twilio/send-message"
  const WhatsAppPrefix := "whatsapp:"

  /** `TWILIO_API_URL`: the build variable, else the local backend. */
  function ApiUrl(env: ClientEnv): (r: string)
    ensures env.twilioApiUrl != "" ==> r == env.twilioApiUrl
    ensures env.twilioApiUrl == "" ==> r == DefaultApiUrl
  {
    if env.twilioApiUrl != "" then env.twilioApiUrl else DefaultApiUrl
  }

  /** `setting || fallback || ''`. */
  function Resolve(setting: string, fallback: string): (r: string)
    ensures setting != "" ==> r == setting
    ensures setting == "" ==> r == fallback
    ensures r == "" <==> setting == "" && fallback == ""
  {
    if setting != "" then setting else fallback
  }

  datatype Credentials = Credentials(accountSid: string, authToken: string, phoneNumber: string)

  /** Each credential from the settings screen, falling back to the build variable. */
  function ResolveCredentials(settings: AppSettings, env: ClientEnv): (c: Credentials)
    ensures c.accountSid == Resolve(settings.twilioAccountSid, env.twilioAccountSid)
    ensures c.authToken == Resolve(settings.twilioAuthToken, env.twilioAuthToken)
    ensures c.phoneNumber == Resolve(settings.twilioPhoneNumber, env.twilioPhoneNumber)
  {
    Credentials(Resolve(settings.twilioAccountSid, env.twilioAccountSid),
                Resolve(settings.twilioAuthToken, env.twilioAuthToken),
                Resolve(settings.twilioPhoneNumber, env.twilioPhoneNumber))
  }

  predicate Complete(c: Credentials) {
    c.accountSid != "" && c.authToken != "" && c.phoneNumber != ""
  }

  /** A number addressed for the chosen channel: WhatsApp numbers carry the `whatsapp:`
      prefix, SMS numbers are sent as they are. */
  function Address(channel: NotificationMethod, number: string): (r: string)
    ensures channel == WhatsApp ==> r == WhatsAppPrefix + number
    ensures channel == Sms ==> r == number
  {
    (if channel == WhatsApp then WhatsAppPrefix else "") + number
  }

  /** The French confirmation text; `dateText` and `timeText` are the `fr-FR` renderings of
      the lesson's start. */
  function Message(student: Student, instructor: Instructor, dateText: string, timeText: string): string {
    Greeting + student.firstName + Announce + dateText + At + timeText
    + With + instructor.firstName + " " + instructor.lastName + "."
  }

  const Greeting := "Bonjour "
  const Announce := ", votre prochain cours sera le "
  const At := " à "
  const With := " avec "

  /** A text built as `a x b y c z d u e w f` contains `x`, `y`, `z` and `u e w`. */
  lemma TemplateMentions(a: string, x: string, b: string, y: string, c: string, z: string,
                         d: string, u: string, e: string, w: string, f: string)
    ensures var m := a + x + b + y + c + z + d + u + e + w + f;
      Text.Contains(m, x) && Text.Contains(m, y) && Text.Contains(m, z) && Text.Contains(m, u + e + w)
  {
    var m := a + x + b + y + c + z + d + u + e + w + f;
    var p := a + x + b + y + c + z + d;
    Text.ContainsAfterPrefix(a, x, m);
    Text.ContainsAfterPrefix(a + x + b, y, m);
    Text.ContainsAfterPrefix(a + x + b + y + c, z, m);
    assert p + (u + e + w) == p + u + e + w;
    Text.ContainsAfterPrefix(p, u + e + w, m);
  }

  /** The message names the student, the date, the time and the instructor. */
  lemma MessageMentions(student: Student, instructor: Instructor, dateText: string, timeText: string)
    ensures var m := Message(student, instructor, dateText, timeText);
      && Text.Contains(m, student.firstName) && Text.Contains(m, dateText) && Text.Contains(m, timeText)
      && Text.Contains(m, InstructorName(instructor))
  {
    TemplateMentions(Greeting, student.firstName, Announce, dateText, At, timeText, With,
                     instructor.firstName, " ", instructor.lastName, ".");
  }

  /** The JSON body posted to the backend, and where. */
  datatype SendRequest = SendRequest(url: string, to: string, from: string, body: string)

  /** The request `sendConfirmation` makes, or `None` when a credential is missing and no
      request is made. */
  function Plan(lesson: Lesson, student: Student, instructor: Instructor, settings: AppSettings,
                env: ClientEnv, localeDate: string -> string, localeTime: string -> string): (r: Option<SendRequest>)
    ensures r.None? <==> !Complete(ResolveCredentials(settings, env))
    ensures r.Some? ==>
              && r.value.url == ApiUrl(env)
              && r.value.to == Address(settings.notificationMethod, student.phone)
              && r.value.from == Address(settings.notificationMethod, ResolveCredentials(settings, env).phoneNumber)
              && r.value.body == Message(student, instructor, localeDate(lesson.start), localeTime(lesson.start))
  {
    var c := ResolveCredentials(settings, env);
    if !Complete(c) then None
    else
      Some(SendRequest(ApiUrl(env), Address(settings.notificationMethod, student.phone),
                       Address(settings.notificationMethod, c.phoneNumber),
                       Message(student, instructor, localeDate(lesson.start), localeTime(lesson.start))))
  }

  /** `sendConfirmation`: true exactly when a request was made and came back with an OK
      status; a missing credential, a non-OK status and a network failure all give false.
      `post` yields `res.ok`. */
  function SendConfirmation(lesson: Lesson, student: Student, instructor: Instructor, settings: AppSettings,
                            env: ClientEnv, localeDate: string -> string, localeTime: string -> string,
                            post: SendRequest -> Outcome<bool>): (delivered: bool)
    ensures !Complete(ResolveCredentials(settings, env)) ==> !delivered
    ensures delivered <==>
              var plan := Plan(lesson, student, instructor, settings, env, localeDate, localeTime);
              plan.Some? && post(plan.value) == Returned(true)
  {
    match Plan(lesson, student, instructor, settings, env, localeDate, localeTime)
    case None => false
    case Some(req) =>
      match post(req)
      case Threw => false
      case Returned(ok) => ok
  }

  /** Sender and recipient are addressed for the same channel: both carry the WhatsApp
      prefix or neither does. */
  lemma SameChannelBothEnds(lesson: Lesson, student: Student, instructor: Instructor, settings: AppSettings,
                            env: ClientEnv, localeDate: string -> string, localeTime: string -> string)
    requires Plan(lesson, student, instructor, settings, env, localeDate, localeTime).Some?
    ensures var r := Plan(lesson, student, instructor, settings, env, localeDate, localeTime).value;
      settings.notificationMethod == WhatsApp ==>
        Text.IsPrefix(WhatsAppPrefix, r.to) && Text.IsPrefix(WhatsAppPrefix, r.from)
    ensures var r := Plan(lesson, student, instructor, settings, env, localeDate, localeTime).value;
      settings.notificationMethod == Sms ==> r.to == student.phone && r.from != ""
  {
  }

  /** Every planned request has a sender and a body, and a recipient whenever the student
      has a phone number or the channel is WhatsApp. */
  lemma PlannedFieldsFilled(lesson: Lesson, student: Student, instructor: Instructor, settings: AppSettings,
                            env: ClientEnv, localeDate: string -> string, localeTime: string -> string)
    requires Plan(lesson, student, instructor, settings, env, localeDate, localeTime).Some?
    ensures var r := Plan(lesson, student, instructor, settings, env, localeDate, localeTime).value;
      && r.from != "" && r.body != ""
      && (student.phone != "" || settings.notificationMethod == WhatsApp ==> r.to != "")
  {
  }
}
