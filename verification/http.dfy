/** What the serverless handlers share: their reply and the process environment. */
module Http {

  /** A handler's reply: the status code and the JSON body (or none). */
  datatype Reply<+B> = Reply(status: int, body: B)

  /** `process.env` of the serverless functions; the empty string stands for unset. */
  datatype ServerEnv = ServerEnv(
    googleClientId: string, googleClientSecret: string, googleRedirectUri: string,
    googleCalendarId: string, vercelUrl: string,
    twilioAccountSid: string, twilioAuthToken: string)
}
