/** `api/twilio/send-message.js`: relays a message to Twilio's Messages resource. */
module TwilioApi {
  import opened Wrappers
  import opened Domain
  import opened Http
  import Notification

  /** The request: the method (`verb`) and the JSON body's `to`, `from` and `body`. */
  datatype Request = Request(verb: string, to: Option<string>, from: Option<string>, body: Option<string>)

  /** The call made to Twilio: the Messages URL, the Basic credentials and the form fields in
      the order they are appended. */
  datatype TwilioCall = TwilioCall(url: string, accountSid: string, authToken: string,
                                   form: seq<(string, string)>)

  /** What Twilio answered: whether the status was OK, and the response text. */
  datatype TwilioResponse = TwilioResponse(ok: bool, status: int, text: string)

  datatype Body =
    | NoBody
    | Failure(error: string)
    | ProviderError(error: string, status: int, text: string)
    | Sent(ok: bool, twilio: string)

  const NotAllowed := "Method not allowed"
  const MissingFields := "Champs requis: to, from, body"
  const MissingCredentials := "Twilio credentials manquants"
  const TwilioError := "Erreur Twilio"
  const SendFailed := "Erreur lors de l'envoi avec Twilio"

  /** `https://api.twilio.com/2010-04-01/Accounts/${accountSid}/Messages.json`. */
  function MessagesUrl(accountSid: string): (r: string)
    ensures |r| == |MessagesUrlHead| + |accountSid| + |MessagesUrlTail|
    ensures r[..|MessagesUrlHead|] == MessagesUrlHead
    ensures r[|MessagesUrlHead|..|MessagesUrlHead| + |accountSid|] == accountSid
  {
    MessagesUrlHead + accountSid + MessagesUrlTail
  }

  const MessagesUrlHead := "https://api.twilio.com/2010-04-01/Accounts/"
  const MessagesUrlTail := "/Messages.json"

  /** Different accounts post to different URLs. */
  lemma MessagesUrlInjective(a: string, b: string)
    requires MessagesUrl(a) == MessagesUrl(b)
    ensures a == b
  {
    assert |a| == |b|;
    assert a == MessagesUrl(a)[|MessagesUrlHead|..|MessagesUrlHead| + |a|];
  }

  /** The form parameters: To, From and Body, in that order, with the request's values. */
  function Form(to: string, from: string, body: string): (r: seq<(string, string)>)
    ensures |r| == 3
    ensures r[0] == ("To", to) && r[1] == ("From", from) && r[2] == ("Body", body)
  {
    [("To", to), ("From", from), ("Body", body)]
  }

  /** The handler. OPTIONS is answered at once and any method but POST refused; the three
      fields are checked before the server credentials; Twilio's non-OK answer or a failed
      call gives 500. */
  function Handle(req: Request, env: ServerEnv, twilio: TwilioCall -> Outcome<TwilioResponse>): (r: Reply<Body>)
    ensures req.verb == "OPTIONS" ==> r == Reply(200, NoBody)
    ensures req.verb != "OPTIONS" && req.verb != "POST" ==> r == Reply(405, Failure(NotAllowed))
    ensures req.verb == "POST" && !(Filled(req.to) && Filled(req.from) && Filled(req.body)) ==>
              r == Reply(400, Failure(MissingFields))
    ensures req.verb == "POST" && Filled(req.to) && Filled(req.from) && Filled(req.body)
            && (env.twilioAccountSid == "" || env.twilioAuthToken == "") ==>
              r == Reply(500, Failure(MissingCredentials))
    ensures req.verb == "POST" && Filled(req.to) && Filled(req.from) && Filled(req.body)
            && env.twilioAccountSid != "" && env.twilioAuthToken != "" ==>
              var call := TwilioCall(MessagesUrl(env.twilioAccountSid), env.twilioAccountSid,
                                     env.twilioAuthToken, Form(req.to.value, req.from.value, req.body.value));
              && (twilio(call).Threw? ==> r == Reply(500, Failure(SendFailed)))
              && (twilio(call).Returned? && !twilio(call).value.ok ==>
                    r == Reply(500, ProviderError(TwilioError, twilio(call).value.status, twilio(call).value.text)))
              && (twilio(call).Returned? && twilio(call).value.ok ==>
                    r == Reply(200, Sent(true, twilio(call).value.text)))
  {
    if req.verb == "OPTIONS" then Reply(200, NoBody)
    else if req.verb != "POST" then Reply(405, Failure(NotAllowed))
    else if !(Filled(req.to) && Filled(req.from) && Filled(req.body)) then Reply(400, Failure(MissingFields))
    else if env.twilioAccountSid == "" || env.twilioAuthToken == "" then Reply(500, Failure(MissingCredentials))
    else
      var call := TwilioCall(MessagesUrl(env.twilioAccountSid), env.twilioAccountSid,
                             env.twilioAuthToken, Form(req.to.value, req.from.value, req.body.value));
      match twilio(call)
      case Threw => Reply(500, Failure(SendFailed))
      case Returned(resp) =>
        if !resp.ok then Reply(500, ProviderError(TwilioError, resp.status, resp.text))
        else Reply(200, Sent(true, resp.text))
  }

  /** A reply is 200 exactly when Twilio accepted the message. */
  lemma SuccessMeansTwilioAccepted(req: Request, env: ServerEnv, twilio: TwilioCall -> Outcome<TwilioResponse>)
    requires Handle(req, env, twilio).status == 200 && req.verb != "OPTIONS"
    ensures Filled(req.to) && Filled(req.from) && Filled(req.body)
    ensures var call := TwilioCall(MessagesUrl(env.twilioAccountSid), env.twilioAccountSid,
                                   env.twilioAuthToken, Form(req.to.value, req.from.value, req.body.value));
      twilio(call).Returned? && twilio(call).value.ok
  {
  }

  /** The request the notification service plans is never refused for missing fields when
      the student has a phone number. */
  lemma PlannedRequestPassesFieldCheck(
    lesson: Lesson, student: Student, instructor: Instructor, settings: AppSettings,
    cenv: Notification.ClientEnv, localeDate: string -> string, localeTime: string -> string,
    env: ServerEnv, twilio: TwilioCall -> Outcome<TwilioResponse>)
    requires student.phone != ""
    requires Notification.Plan(lesson, student, instructor, settings, cenv, localeDate, localeTime).Some?
    ensures var p := Notification.Plan(lesson, student, instructor, settings, cenv, localeDate, localeTime).value;
      Handle(Request("POST", Some(p.to), Some(p.from), Some(p.body)), env, twilio).status != 400
  {
    Notification.PlannedFieldsFilled(lesson, student, instructor, settings, cenv, localeDate, localeTime);
  }
}
