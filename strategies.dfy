/**
 * The command registry: the upper-cased command name selects a handler.
 * Only the three modelled handlers are registered here; the full table
 * (`init_command_strategies`) is not part of this model.
 */
module Strategies {
  import opened Wrappers
  import opened Store
  import opened Command
  import SetCommand
  import LpushCommand
  import ZaddCommand

  datatype Strategy = Set | Lpush | Zadd

  function Lookup(name: string): (strategy: Option<Strategy>)
    ensures strategy == Some(Set) <==> name == "SET"
    ensures strategy == Some(Lpush) <==> name == "LPUSH"
    ensures strategy == Some(Zadd) <==> name == "ZADD"
  {
    if name == "SET" then Some(Set)
    else if name == "LPUSH" then Some(Lpush)
    else if name == "ZADD" then Some(Zadd)
    else None
  }

  function TypeOf(strategy: Strategy): (t: CommandType) {
    match strategy
    case Set => SetCommand.CommandKind()
    case Lpush => LpushCommand.CommandKind()
    case Zadd => ZaddCommand.CommandKind()
  }

  /** What a handler needs of its fragments not to panic once the session is found. */
  predicate Accepts(strategy: Strategy, fragments: seq<string>) {
    match strategy
    case Set => true
    case Lpush => |fragments| >= 6
    case Zadd => ZaddCommand.WellFormed(fragments)
  }

  ghost function Handle(strategy: Strategy, st: State, sessions: Sessions, sessionId: string,
                        fragments: seq<string>, stream: bool, now: int): (outcome: Outcome)
    requires sessionId in sessions ==> Accepts(strategy, fragments)
  {
    match strategy
    case Set => SetCommand.Effect(st, sessions, sessionId, fragments, stream, now)
    case Lpush => LpushCommand.Effect(st, sessions, sessionId, fragments, stream, now)
    case Zadd => ZaddCommand.Effect(st, sessions, sessionId, fragments, stream, now)
  }

  method Execute(strategy: Strategy, db: Db, sessions: Sessions, sessionId: string,
                 fragments: seq<string>, stream: bool, now: int) returns (reply: Option<Reply>)
    requires sessionId in sessions ==> Accepts(strategy, fragments)
    modifies db
    ensures Outcome(db.entries, reply) == Handle(strategy, old(db.entries), sessions, sessionId, fragments, stream, now)
  {
    match strategy
    case Set => reply := SetCommand.Execute(db, sessions, sessionId, fragments, stream, now);
    case Lpush => reply := LpushCommand.Execute(db, sessions, sessionId, fragments, stream, now);
    case Zadd => reply := ZaddCommand.Execute(db, sessions, sessionId, fragments, stream, now);
  }

  /** Exactly SET, LPUSH and ZADD are registered, each under its upper-case name only. */
  lemma LookupIsExact(name: string)
    ensures Lookup(name).Some? <==> name == "SET" || name == "LPUSH" || name == "ZADD"
  {
  }

  /** Every registered handler is a write, so the dispatcher logs each one it runs. */
  lemma RegisteredCommandsAreWrites(name: string)
    requires Lookup(name).Some?
    ensures TypeOf(Lookup(name).value) == Write
  {
  }

  /** Without a reply stream no handler produces a reply. */
  lemma NoStreamNoReply(strategy: Strategy, st: State, sessions: Sessions, sessionId: string,
                        fragments: seq<string>, now: int)
    requires sessionId in sessions ==> Accepts(strategy, fragments)
    ensures Handle(strategy, st, sessions, sessionId, fragments, false, now).reply == None
  {
  }

  /** An unknown session identity leaves the store as it was and sends nothing, for every handler. */
  lemma UnknownSessionIsIgnored(strategy: Strategy, st: State, sessions: Sessions, sessionId: string,
                                fragments: seq<string>, stream: bool, now: int)
    requires sessionId !in sessions
    ensures Handle(strategy, st, sessions, sessionId, fragments, stream, now) == Outcome(st, None)
  {
  }
}
