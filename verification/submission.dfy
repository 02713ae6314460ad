/**
 * The outcome classification of `sendDataToMongoDB` in hushHarmonyMobile/App.jsx.
 *
 * The POST either yields a response, whose `ok` flag is inspected, or throws; every case
 * ends in a log line inside the function and nothing reaches the caller.
 */
module Submission {

  /** What the network call did: answered with a response, or threw a transport error. */
  datatype Transport = Responded(ok: bool) | Threw(message: string)

  /** The logged outcome of one submission attempt. */
  datatype Outcome = SentOk | NotOk | TransportError(message: string)

  /** One submission attempt, classified; it returns an outcome and never fails. */
  function SendDataToMongoDB(t: Transport): (o: Outcome)
    ensures o == SentOk <==> t == Responded(true)
    ensures o == NotOk <==> t == Responded(false)
    ensures o.TransportError? <==> t.Threw?
    ensures t.Threw? ==> o.message == t.message
  {
    match t
    case Responded(ok) => if ok then SentOk else NotOk
    case Threw(message) => TransportError(message)
  }
}
