/** `LPUSH key value...` (src/command/arr/lpush.rs). */
module LpushCommand {
  import opened Wrappers
  import opened Store
  import opened Command

  /** The elements of `s` at even positions 0, 2, 4, ..., in order. */
  function EveryOther(s: seq<string>): (r: seq<string>)
    ensures |r| == (|s| + 1) / 2
    ensures forall i :: 0 <= i < |r| ==> r[i] == s[2 * i]
  {
    if |s| == 0 then []
    else if |s| == 1 then [s[0]]
    else [s[0]] + EveryOther(s[2..])
  }

  /**
   * The values pushed: every other fragment from offset 6, skipping the
   * length headers between them.
   */
  function Values(fragments: seq<string>): (values: seq<string>)
    requires |fragments| >= 6
  {
    EveryOther(fragments[6..])
  }

  /**
   * The value list is exactly fragments 6, 8, 10, ... in order: there are
   * ceil((n - 6) / 2) of them for n fragments, and no odd offset is taken.
   */
  lemma ValuesAreEvenOffsets(fragments: seq<string>)
    requires |fragments| >= 6
    ensures |Values(fragments)| == (|fragments| - 5) / 2
    ensures forall i :: 0 <= i < |Values(fragments)| ==> Values(fragments)[i] == fragments[6 + 2 * i]
    ensures forall j :: 6 <= j < |fragments| && j % 2 == 0 ==> fragments[j] == Values(fragments)[(j - 6) / 2]
  {
    var values := Values(fragments);
    forall j | 6 <= j < |fragments| && j % 2 == 0
      ensures fragments[j] == values[(j - 6) / 2]
    {
      assert 6 + 2 * ((j - 6) / 2) == j;
    }
  }

  /** What LPUSH does: expire the key if due, push the values, reply Ok. */
  ghost function Effect(st: State, sessions: Sessions, sessionId: string, fragments: seq<string>,
                        stream: bool, now: int): (outcome: Outcome)
    requires sessionId in sessions ==> |fragments| >= 6
  {
    if sessionId !in sessions then Outcome(st, None)
    else
      var db := sessions[sessionId].selectedDatabase;
      var key := fragments[4];
      Outcome(AfterLpush(AfterCheckTtl(st, db, key, now), db, key, Values(fragments)), Respond(stream, Ok))
  }

  /**
   * Indexing fragment 4 and slicing from 6 panic on a shorter request, which
   * is reached only once the session is known.
   */
  method Execute(db: Db, sessions: Sessions, sessionId: string, fragments: seq<string>,
                 stream: bool, now: int) returns (reply: Option<Reply>)
    requires sessionId in sessions ==> |fragments| >= 6
    modifies db
    ensures Outcome(db.entries, reply) == Effect(old(db.entries), sessions, sessionId, fragments, stream, now)
  {
    if sessionId !in sessions {
      return None;
    }
    var dbIndex := sessions[sessionId].selectedDatabase;
    var key := fragments[4];
    var values := Values(fragments);
    db.CheckTtl(dbIndex, key, now);
    db.Lpush(dbIndex, key, values);
    reply := Respond(stream, Ok);
  }

  function CommandKind(): (t: CommandType)
    ensures t == Write
  {
    Write
  }

  // ---- Properties of LPUSH ----

  lemma UnknownSessionIsIgnored(st: State, sessions: Sessions, sessionId: string, fragments: seq<string>,
                                stream: bool, now: int)
    requires sessionId !in sessions
    ensures Effect(st, sessions, sessionId, fragments, stream, now) == Outcome(st, None)
  {
  }

  /**
   * The reply is Ok however many values were pushed, and only the key's own
   * slot in the session's database can change.
   */
  lemma RepliesOkAndTouchesOnlyKey(st: State, sessions: Sessions, sessionId: string, fragments: seq<string>,
                                   stream: bool, now: int)
    requires sessionId in sessions && |fragments| >= 6
    ensures var o := Effect(st, sessions, sessionId, fragments, stream, now);
      var slot := (sessions[sessionId].selectedDatabase, fragments[4]);
      && o.reply == (if stream then Some(Ok) else None)
      && forall s :: s != slot ==> (s in o.store <==> s in st) && (s in st ==> o.store[s] == st[s])
  {
  }
}
