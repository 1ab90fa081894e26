/** `api/health.js`: which services the deployment is configured for. */
module HealthApi {
  import opened Wrappers
  import opened Http
  import GoogleAuth
  import TwilioApi

  datatype Twilio = Twilio(configured: bool, ready: bool)

  datatype Google = Google(oauthConfigured: bool, authenticated: bool, calendarId: Option<string>)

  /** The reported flags; the `status: 'ok'` text and the timestamp are left out. */
  datatype Health = Health(twilio: Twilio, google: Google)

  datatype Body = NoBody | Failure(error: string) | Report(health: Health)

  /** `TWILIO_MESSAGES_URL`: when the account SID is set, the Messages URL the relay posts
      to; `null` otherwise. */
  function MessagesUrl(env: ServerEnv): (r: Option<string>)
    ensures r.Some? <==> env.twilioAccountSid != ""
    ensures r.Some? ==> r.value == TwilioApi.MessagesUrl(env.twilioAccountSid)
  {
    if env.twilioAccountSid != "" then Some(TwilioApi.MessagesUrl(env.twilioAccountSid)) else None
  }

  /** The health report for the environment and the request's cookies. */
  function Check(env: ServerEnv, cookieHeader: string, isJson: string -> bool): (h: Health)
    ensures h.twilio.configured <==> env.twilioAccountSid != "" && env.twilioAuthToken != ""
    ensures h.google.oauthConfigured <==> env.googleClientId != "" && env.googleClientSecret != ""
    ensures h.google.authenticated <==> GoogleAuth.TokensFromCookies(cookieHeader, isJson).Some?
    ensures env.googleCalendarId == "" ==> h.google.calendarId.None?
    ensures env.googleCalendarId != "" ==> h.google.calendarId == Some(env.googleCalendarId)
  {
    var configured := env.twilioAccountSid != "" && env.twilioAuthToken != "";
    Health(
      Twilio(configured, configured && MessagesUrl(env).Some?),
      Google(env.googleClientId != "" && env.googleClientSecret != "",
             GoogleAuth.TokensFromCookies(cookieHeader, isJson).Some?,
             if env.googleCalendarId != "" then Some(env.googleCalendarId) else None))
  }

  /** `ready` adds nothing to `configured`: the URL exists whenever the SID does. */
  lemma ReadyIsConfigured(env: ServerEnv, cookieHeader: string, isJson: string -> bool)
    ensures Check(env, cookieHeader, isJson).twilio.ready == Check(env, cookieHeader, isJson).twilio.configured
  {
  }

  /** The handler: OPTIONS answered at once, anything but GET refused, otherwise the report
      with 200 when both Twilio and Google OAuth are configured and 503 otherwise. */
  function Handle(verb: string, env: ServerEnv, cookieHeader: string, isJson: string -> bool): (r: Reply<Body>)
    ensures verb == "OPTIONS" ==> r == Reply(200, NoBody)
    ensures verb != "OPTIONS" && verb != "GET" ==> r == Reply(405, Failure("Method not allowed"))
    ensures verb == "GET" ==> r.body == Report(Check(env, cookieHeader, isJson))
    ensures verb == "GET" ==> (r.status == 200 <==>
              env.twilioAccountSid != "" && env.twilioAuthToken != ""
              && env.googleClientId != "" && env.googleClientSecret != "")
    ensures verb == "GET" ==> r.status == 200 || r.status == 503
  {
    if verb == "OPTIONS" then Reply(200, NoBody)
    else if verb != "GET" then Reply(405, Failure("Method not allowed"))
    else
      var h := Check(env, cookieHeader, isJson);
      Reply(if h.twilio.configured && h.google.oauthConfigured then 200 else 503, Report(h))
  }

  /** Being signed in to Google does not change the status code. */
  lemma StatusIgnoresAuthentication(env: ServerEnv, a: string, b: string, isJson: string -> bool)
    ensures Handle("GET", env, a, isJson).status == Handle("GET", env, b, isJson).status
  {
  }

  /** The status is 200 exactly when the requests the deployment needs can be served:
      `requireAuth` does not fail for configuration and Twilio has credentials. */
  lemma HealthyMeansConfigured(env: ServerEnv, cookieHeader: string, isJson: string -> bool)
    ensures Handle("GET", env, cookieHeader, isJson).status == 200 <==>
              GoogleAuth.OAuth2Client(env).Some? && env.twilioAccountSid != "" && env.twilioAuthToken != ""
  {
  }
}
