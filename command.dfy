/** What every command handler shares: replies, sessions and the handler classification. */
module Command {
  import opened Wrappers
  import opened Store

  /** The reply kinds the modelled handlers send (`RespValue`). */
  datatype Reply = Ok | Error(message: string) | Null | Integer(value: int)

  /** How the dispatcher treats a command; only `Write` commands are appended to the log. */
  datatype CommandType = Read | Write | Admin

  datatype Session = Session(selectedDatabase: nat, authenticated: bool)

  /** The session registry, keyed by connection identity. */
  type Sessions = map<string, Session>

  /** The store after a command and the reply it sent, if it had a stream to send it on. */
  datatype Outcome = Outcome(store: State, reply: Option<Reply>)

  /** A reply goes out only when the command came with a reply stream. */
  function Respond(stream: bool, reply: Reply): (sent: Option<Reply>)
    ensures sent.Some? <==> stream
  {
    if stream then Some(reply) else None
  }
}
