# rudis command execution and append-only log, in Dafny

This project models the write path of rudis, an in-memory, multi-database
key-value store that speaks a Redis-style protocol. It covers three
representative write handlers and the append-only log (AOF) that records
write commands and replays them at startup:

- **SET** (`SetCommand`): session lookup, the arity error, the NX and XX
  guards, the reverse scan for the last EX/PX flag, the TTL arithmetic, and
  `set_with_ttl`.
- **LPUSH** (`LpushCommand`): every other fragment from offset 6 becomes
  the value list, `check_ttl` runs before `lpush`, and the reply is `Ok`.
- **ZADD** (`ZaddCommand`): key, unsigned score and member, `check_ttl`
  before `zadd`, and the store's `Ok(n)` or `Err(msg)` mapped to an
  `Integer` or `Error` reply.
- **AOF** (`Aof`): opening the log, appending one line per command, and
  replaying the log line by line. Replay splits each line on the literal
  four-character marker `\r\n`, looks the handler up by the upper-cased
  fragment 2, and runs it against one synthetic session with no reply
  stream.

A request is a positional list of fragments, as produced by splitting the
RESP framing on CRLF. Fragment 2 is the command name. Arguments sit at
fragments 4, 6, 8, … and the odd fragments are length headers.

Each handler has two parts:

- a ghost function `Effect(st, sessions, sessionId, fragments, stream, now)`
  that gives the new store and the reply (`Option<Reply>`, `None` when there
  is no reply stream);
- a method `Execute(db, …)` that changes the `Db` object in place and is
  proved to agree with `Effect`.

The handler lemmas state the behaviour of the source, including its quirks:

- SET's NX/XX guards abort only when a reply stream is present. On replay,
  a `SET … NX` that was refused live stores its value, if the dispatcher
  logged it; `execute` returns nothing, so the dispatcher cannot tell.
- SET's guards call `exists` directly and never call `check_ttl`. With
  `exists` taken as a plain membership test (an assumption: `src/db/db.rs`
  is not modelled), a key that has expired but has not yet been removed
  still blocks NX.
- LPUSH always replies `Ok`, never a length.
- A ZADD score is an unsigned `usize`.

Replaying the log rebuilds the store that the live commands built only in
part. `Aof.LiveSetReplaysSame` proves it for a SET run live by a session on
database 0, with no NX/XX guard and no EX/PX flag, whose logged line splits
back into its fragments. Replay can differ from the live run in four ways:

- Replay runs every command on database 0, the database of its one session.
  A write made live on another database is replayed into database 0
  (`Aof.ReplayedSetLandsInDatabaseZero`). This would change only if the
  dispatcher logged `SELECT` and the registry replayed it; neither is part of
  this model.
- NX and XX never abort on replay, so a SET that was refused live would
  store its value if it had been logged.
- Every expiry is recomputed from the time of the load.
- A fragment that itself holds the literal four characters `\r\n` comes
  back as several fragments, which shifts every later position
  (`Aof.MarkedFragmentDoesNotRoundTrip`).

The store (`Store.Db`) is a stand-in. Its implementation is not part of this
model: the bodies of `AfterCheckTtl`, `AfterSetWithTtl`, `AfterLpush` and
`AfterZadd` follow the store's documented behaviour. No handler property
relies on anything beyond their contracts. Those contracts say which slot an
operation may touch, what `set_with_ttl` stores, and that a failed `zadd`
changes nothing.

## Model

| member | source | states |
|---|---|---|
| `SetCommand.Execute` | src/command/string/set.rs:24-162 | the store and reply after the three loops and the TTL computation are exactly those of `SetCommand.Effect` |
| `SetCommand.UnknownSessionIsIgnored` | src/command/string/set.rs:35-42 | an unknown session id: no store change, no reply |
| `SetCommand.MissingArgumentIsArityError` | src/command/string/set.rs:44-74 | fragment 4 or 6 missing: store unchanged, reply `Error("ERR wrong number of arguments for 'set' command")` only when there is a stream |
| `SetCommand.NxOnExistingKeyAborts` | src/command/string/set.rs:78-97 | with a stream, an NX fragment in any case at any index except 4 and 6, on a key that exists, gives reply `Null` and an unchanged store |
| `SetCommand.XxOnMissingKeyAborts` | src/command/string/set.rs:99-118 | with a stream, an XX fragment at any index except 4 and 6, on a missing key, gives reply `Null` and an unchanged store |
| `SetCommand.ReplayAlwaysStores` | src/command/string/set.rs:78-150 | with no stream, NX and XX never abort: the value and its expiry are always stored, and there is no reply |
| `SetCommand.StoresWhenGuardsPass` | src/command/string/set.rs:150-161 | when no guard aborts, `(key, value, expire_at)` is stored in the session's database, every other slot is untouched, and the reply is `Ok` when there is a stream |
| `SetCommand.KeyAndValueAreNotGuards` | src/command/string/set.rs:80 | a key and a value spelled `nx` and `xx` are not modifiers: `SET nx xx` stores with no expiry and replies `Ok` |
| `SetCommand.CommandKind` | src/command/string/set.rs:165-167 | SET is classified `Write` |
| `SetCommand.LastTtlFlag` | src/command/string/set.rs:125-134 | the selected index is above 6, is an EX/PX fragment in any case, and no later fragment is one; with no result, no index above 6 is one |
| `SetCommand.FindTtlFlag` | src/command/string/set.rs:120-134 | the reverse scan with `break` returns exactly the last EX/PX index above 6 |
| `SetCommand.TtlFromLastFlag` | src/command/string/set.rs:136-148 | `expire_at` is now + ttl·1000 for EX or now + ttl for PX, where ttl is fragment[k+2] of the last flag k parsed as `i64`; if that fragment is missing or does not parse, it is -1, whatever earlier flags say |
| `SetCommand.NoTtlFlagMeansNoExpiry` | src/command/string/set.rs:137-138 | with no EX/PX flag above index 6, `expire_at` is -1 |
| `SetCommand.ExSecondsExample` | src/command/string/set.rs:141-145 | `SET k v EX 10`, as framed, expires at now + 10000 |
| `SetCommand.PxMillisExample` | src/command/string/set.rs:127-143 | `SET k v px 10` expires at now + 10 (the flag is matched in any case) |
| `Wire.FlagIgnoresCase` | src/command/string/set.rs:79 | an upper-cased fragment equals a two-letter flag exactly when it has two letters, each the flag's letter in either case |
| `Wire.ParseI64` | src/command/string/set.rs:140 | a parsed TTL lies in the `i64` range |
| `Wire.I64RoundTrip` | src/command/string/set.rs:140 | parsing the decimal text of any `i64` gives it back |
| `Wire.ParseUsize` | src/command/zset/zadd.rs:43 | a parsed score is at most `usize::MAX` and the text starts with a digit or `+` |
| `Wire.UsizeRoundTrip` | src/command/zset/zadd.rs:43 | parsing the decimal text of any `usize` gives it back |
| `LpushCommand.CommandKind` | src/command/arr/lpush.rs:57-59 | LPUSH is classified `Write` |
| `LpushCommand.EveryOther` | src/command/arr/lpush.rs:41 | keeps the elements at even positions in order: ⌈n/2⌉ of them, the i-th being element 2i |
| `LpushCommand.ValuesAreEvenOffsets` | src/command/arr/lpush.rs:41 | the value list is fragments 6, 8, 10, … in order, its length is ⌈(n−6)/2⌉, and every even fragment from 6 on is in it |
| `LpushCommand.Execute` | src/command/arr/lpush.rs:29-55 | the store becomes `lpush` of the value list applied to the result of `check_ttl` on the same database and key, and the reply is `Ok` when there is a stream |
| `LpushCommand.UnknownSessionIsIgnored` | src/command/arr/lpush.rs:31-38 | an unknown session id: no store change, no reply |
| `LpushCommand.RepliesOkAndTouchesOnlyKey` | src/command/arr/lpush.rs:43-54 | the reply is `Ok`, however many values were pushed, and only the key's own slot can change |
| `ZaddCommand.Execute` | src/command/zset/zadd.rs:31-71 | the store becomes `zadd(key, member, score)` applied to the result of `check_ttl`, and the reply is the store's result mapped to a reply |
| `ZaddCommand.UnknownSessionIsIgnored` | src/command/zset/zadd.rs:33-40 | an unknown session id: no store change, no reply |
| `ZaddCommand.CountBecomesInteger` | src/command/zset/zadd.rs:46-59 | a count `n` from `zadd` becomes the reply `Integer(n as i64)`, and the store is what `zadd` left after `check_ttl` |
| `ZaddCommand.FailureBecomesError` | src/command/zset/zadd.rs:60-70 | a failure from `zadd` becomes `Error` with the same text, and the store is what `check_ttl` left |
| `ZaddCommand.ExtraPairsIgnored` | src/command/zset/zadd.rs:42-48 | appending fragments after the member changes neither the store nor the reply |
| `ZaddCommand.NegativeScoreRejected` | src/command/zset/zadd.rs:43 | a score starting with `-` never parses as a `usize` |
| `ZaddCommand.CommandKind` | src/command/zset/zadd.rs:74-76 | ZADD is classified `Write` |
| `ZaddCommand.ReplyOf` | src/command/zset/zadd.rs:48-71 | a count from `zadd` becomes an `Integer` of the count cast to `i64`, and a failure becomes an `Error` with the same text; every other reply kind is impossible |
| `ZaddCommand.AsI64` | src/command/zset/zadd.rs:51 | `usize as i64` stays in the `i64` range and keeps every count up to `i64::MAX` |
| `Store.AfterCheckTtl` | src/command/arr/lpush.rs:43 | `check_ttl` drops the key exactly when its expiry has passed and changes nothing else |
| `Store.AfterSetWithTtl` | src/command/string/set.rs:150 | `set_with_ttl` stores the text and expiry at the slot and leaves every other slot alone |
| `Store.AfterLpush` | src/command/arr/lpush.rs:44 | `lpush` changes no slot but its own |
| `Store.AfterZadd` | src/command/zset/zadd.rs:48 | `zadd` changes no slot but its own, a failure changes nothing, and a count fits a `usize` |
| `Store.Db.Exists` | src/command/string/set.rs:82 | the NX/XX test answers whether the slot holds an entry, expired or not (an assumption about the store) |
| `Store.Db.SetWithTtl` | src/command/string/set.rs:150 | the in-place `set_with_ttl` agrees with `Store.AfterSetWithTtl` |
| `Store.Db.CheckTtl` | src/command/zset/zadd.rs:46 | the in-place `check_ttl` agrees with `Store.AfterCheckTtl` |
| `Store.Db.Lpush` | src/command/arr/lpush.rs:44 | the in-place `lpush` agrees with `Store.AfterLpush` |
| `Store.Db.Zadd` | src/command/zset/zadd.rs:48 | the in-place `zadd` and its result agree with `Store.AfterZadd` |
| `Strategies.Execute` | src/persistence/aof.rs:92-94 | running a looked-up handler has exactly that handler's effect |
| `Strategies.LookupIsExact` | src/persistence/aof.rs:92 | exactly `SET`, `LPUSH` and `ZADD` are registered, under their upper-case names |
| `Strategies.RegisteredCommandsAreWrites` | src/persistence/aof.rs:92 | every handler the registry can return is classified `Write` |
| `Strategies.NoStreamNoReply` | src/persistence/aof.rs:93 | with no stream, no handler replies |
| `Strategies.UnknownSessionIsIgnored` | src/command/zset/zadd.rs:33-40 | for every handler, an unknown session id changes nothing and sends nothing |
| `Aof.AofPath` | src/persistence/aof.rs:25-31 | a path exists only when `appendonly` is set and a file name is given; it is `dir` immediately followed by the name |
| `Aof.Aof.constructor` | src/persistence/aof.rs:23-37 | the log file is open exactly when a path exists; it is created empty if absent, and nothing else on disk changes |
| `Aof.Aof.Save` | src/persistence/aof.rs:44-50 | with the file open and the write succeeding, exactly one line (the command) is appended; with no file open, or a write that fails outright, nothing changes |
| `Aof.Aof.Load` | src/persistence/aof.rs:57-104 | with the log enabled and the file present, the store becomes the replay of the file's lines in order; otherwise it is unchanged |
| `Aof.ReplaySessions` | src/persistence/aof.rs:69-79 | replay's session map holds exactly one session, `0.0.0.0:0`, on database 0 and authenticated |
| `Aof.FindMarker` | src/persistence/aof.rs:89 | finds the first occurrence of the marker at or after a position, or reports that there is none |
| `Aof.Split` | src/persistence/aof.rs:89 | a line splits into at least one piece, and no piece contains the marker |
| `Aof.JoinSplit` | src/persistence/aof.rs:89 | rejoining the pieces of a line with the marker gives back the line |
| `Aof.Join` | src/persistence/aof.rs:89 | the line a command is taken to be logged as: its fragments joined by the marker, the first fragment at the start and the marker right after it |
| `Aof.SplitJoin` | src/persistence/aof.rs:89 | splitting marker-joined, marker-free fragments gives back the fragments |
| `Aof.MarkedFragmentDoesNotRoundTrip` | src/persistence/aof.rs:89 | if any fragment holds the marker, splitting the joined line does not give the fragments back |
| `Aof.ReplayConcat` | src/persistence/aof.rs:86-98 | lines are replayed in file order: replaying `a + b` is replaying `a` and then `b` |
| `Aof.LoggedCommandReplaysLast` | src/persistence/aof.rs:86-94 | a command appended as its marker-joined fragments is replayed last, on the same fragments, with the replay session and no stream |
| `Aof.SetLineReplaysOnZero` | src/persistence/aof.rs:70-93 | a line that splits into a SET request stores its value on database 0, with the expiry computed at replay time |
| `Aof.LiveSetStores` | src/command/string/set.rs:78-161 | a live SET that no guard aborts stores `(key, value, expire_at)` on its session's database and changes nothing else |
| `Aof.LiveSetReplaysSame` | src/persistence/aof.rs:70-93 | for a SET run live on database 0 with no NX/XX guard and no EX/PX flag, whose logged line splits back into its fragments, replaying the line gives the store the live run gave, whatever the clock reads |
| `Aof.ReplayedSetLandsInDatabaseZero` | src/persistence/aof.rs:76 | a SET run live on a database other than 0 writes its slot live; on replay it writes database 0, and its live slot is left as it was |
| `Aof.UnknownCommandSkipped` | src/persistence/aof.rs:92 | a line whose fragment 2 names no registered command leaves the store unchanged |
| `Aof.UnreadableLineSkipped` | src/persistence/aof.rs:87 | an unreadable line anywhere in the log changes nothing |

## Left out

- Reply encoding (`RespValue::to_bytes`), TCP stream writes and their error messages are left out. A reply is an abstract `Option<Reply>`, and a failed stream write is not modelled because it changes nothing.
- The `Db` and sessions mutexes, `Arc`, and the order in which locks are taken are left out. Each `execute` is one atomic step, and the session map is passed by value.
- The clock is a parameter `now`. Each handler reads the clock once: SET through `current_millis` (src/command/string/set.rs:145), LPUSH and ZADD inside `check_ttl`. `Load` uses one `now` for every line, where the source reads the clock again for each line.
- Upper-casing is ASCII only. Rust's `to_uppercase` is Unicode, so a command name such as `ſet` (with U+017F) would still select SET in the source.
- `ttl * 1000` and `now + ttl_millis` use unbounded integers. In the source these are `i64` and can overflow.
- `src/db/db.rs` is outside this model, so `Store` is a stand-in. The model does not claim anything about list order, about the new-versus-updated count of `zadd`, or about wrong-type failures as facts of the source. It also does not bound the database index: any index a session selects is accepted.
- Store.Db.Exists: assumed to be a plain membership test that does not look at the expiry, because `src/db/db.rs` is not modelled.
- Store.AfterLpush: its contract says only that no other slot changes. The pushed list's order is left unstated because `src/db/db.rs` is not modelled.
- Store.AfterZadd: its contract says only that no other slot changes, that a failure changes nothing, and that the count fits a `usize`. The count's meaning and the wrong-type rule are left unstated because `src/db/db.rs` is not modelled.
- Panics are preconditions. This covers a short LPUSH or ZADD request once the session is found, a ZADD score that is not a `usize`, and a replayed line with fewer than three pieces. `Aof.Replayable` and `Aof.Aof.CanReplay` state these for replay.
- Opening the log file is modelled as a path present in `Aof.FileSystem`. The source panics when `new` cannot open the file, and a failed `seek` skips replay; the model has neither failure. The line count and progress bar are left out because they are display only.
- `Aof.Aof.Save` does not split a command that itself contains a newline: the model stores it as one line, but the file would hold several.
- Aof.Aof.Save: treats a write as all-or-nothing. `writeln!` can fail after writing only a prefix, for example the command without its newline, and the next `save` would then put two commands on one line; the model does not capture that.
- `init_command_strategies` is not part of this model. The registry holds only the three modelled handlers.
- The dispatcher's decision to log only `Write` commands is not part of this model.
- Aof.Join: the dispatcher writes each command as one line, with the request's CRLFs rewritten to the literal marker. This is an assumption: the dispatcher is not part of this model, and `save` stores whatever text it is given.
- `SELECT` is not part of this model, so nothing records which database a logged command ran on.
