/** The bot's internal HTTP API as the redemption routes see it: a call is accepted (a
    2xx reply) or rejected with the reply's status and, when its JSON body carries one, an
    `error` text. What the bot does with a call is outside the model. */
module Bot {
  import opened Wrappers
  import opened Text

  datatype Reply = Accepted | Rejected(status: nat, error: Option<string>)

  /** The error a rejected call reports: the bot's own `error` text, else the prefix
      followed by the status in parentheses. */
  function ErrorWithStatus(reply: Reply, prefix: string): (message: string)
    requires reply.Rejected?
    ensures reply.error.Some? ==> message == reply.error.value
    ensures reply.error.None? ==> StartsWith(message, prefix + " (") && message[|message| - 1] == ')'
  {
    match reply.error
    case Some(e) => e
    case None => prefix + " (" + NatToDigits(reply.status) + ")"
  }
}
