/**
 * The append-only log (src/persistence/aof.rs): accepted write commands are
 * appended one per line and replayed at startup through the command registry.
 * A command's line is taken to be how the dispatcher writes it: its request
 * with each CRLF rewritten to a literal marker.
 */
module Aof {
  import opened Wrappers
  import opened Wire
  import opened Store
  import opened Command
  import Strategies
  import SetCommand

  datatype Config = Config(appendonly: bool, appendfilename: Option<string>, dir: string)

  /** The log file: enabled only with `appendonly` and a file name; the name follows the directory with no separator. */
  function AofPath(config: Config): (p: Option<string>)
    ensures p.Some? <==> config.appendonly && config.appendfilename.Some?
    ensures p.Some? ==> |p.value| == |config.dir| + |config.appendfilename.value|
    ensures p.Some? ==> p.value[..|config.dir|] == config.dir && p.value[|config.dir|..] == config.appendfilename.value
  {
    if config.appendonly && config.appendfilename.Some? then Some(config.dir + config.appendfilename.value)
    else None
  }

  // ---- The line format ----

  /** The four characters backslash, `r`, backslash, `n` that stand for a CRLF in a logged line. */
  const Marker: string := "\\r\\n"

  predicate MarkerAt(s: string, i: int) {
    0 <= i && i + 4 <= |s| && s[i] == '\\' && s[i + 1] == 'r' && s[i + 2] == '\\' && s[i + 3] == 'n'
  }

  predicate ContainsMarker(s: string) {
    exists i | 0 <= i < |s| :: MarkerAt(s, i)
  }

  /** The first occurrence of the marker at or after `from`. */
  function FindMarker(s: string, from: nat): (r: Option<nat>)
    requires from <= |s|
    ensures r.Some? ==> from <= r.value && MarkerAt(s, r.value)
    ensures r.Some? ==> forall j :: from <= j < r.value ==> !MarkerAt(s, j)
    ensures r.None? ==> forall j :: from <= j ==> !MarkerAt(s, j)
    decreases |s| - from
  {
    if from + 4 > |s| then None
    else if MarkerAt(s, from) then Some(from)
    else FindMarker(s, from + 1)
  }

  /** `line.split("\\r\\n")`: the pieces between successive markers, left to right. */
  function Split(line: string): (pieces: seq<string>)
    ensures |pieces| >= 1
    ensures forall k :: 0 <= k < |pieces| ==> !ContainsMarker(pieces[k])
    decreases |line|
  {
    match FindMarker(line, 0)
    case None => [line]
    case Some(i) =>
      var head := line[..i];
      assert !ContainsMarker(head) by {
        forall j | 0 <= j < |head| ensures !MarkerAt(head, j) {
          assert MarkerAt(head, j) ==> MarkerAt(line, j);
        }
      }
      [head] + Split(line[i + 4..])
  }

  /**
   * A command's fragments joined by the marker: taken to be how the
   * dispatcher writes a command before `save`, which stores any text it is given.
   */
  function Join(pieces: seq<string>): (line: string)
    requires |pieces| >= 1
    ensures |line| >= |pieces[0]| && line[..|pieces[0]|] == pieces[0]
    ensures |pieces| > 1 ==> |line| >= |pieces[0]| + 4 && MarkerAt(line, |pieces[0]|)
  {
    if |pieces| == 1 then pieces[0] else pieces[0] + Marker + Join(pieces[1..])
  }

  /** Joining the pieces of a line gives the line back. */
  lemma {:induction false} JoinSplit(line: string)
    ensures Join(Split(line)) == line
    decreases |line|
  {
    match FindMarker(line, 0)
    case None =>
    case Some(i) =>
      var rest := line[i + 4..];
      JoinSplit(rest);
      var pieces := Split(line);
      assert pieces[0] == line[..i] && pieces[1..] == Split(rest);
      assert line == line[..i] + Marker + rest;
  }

  /** Splitting a line of marker-free fragments gives the fragments back. */
  lemma {:induction false} SplitJoin(pieces: seq<string>)
    requires |pieces| >= 1
    requires forall k :: 0 <= k < |pieces| ==> !ContainsMarker(pieces[k])
    ensures Split(Join(pieces)) == pieces
    decreases |pieces|
  {
    var line := Join(pieces);
    if |pieces| == 1 {
      assert FindMarker(line, 0).None? by {
        var r := FindMarker(line, 0);
        assert r.Some? ==> MarkerAt(pieces[0], r.value);
      }
    } else {
      var head := pieces[0];
      var n := |head|;
      assert line == head + Marker + Join(pieces[1..]);
      assert MarkerAt(line, n);
      forall j | 0 <= j < n ensures !MarkerAt(line, j) {
        if j + 4 <= n {
          if MarkerAt(line, j) { assert MarkerAt(head, j); }
        } else {
          // the marker cannot start inside the head and run into the separator
          assert line[n] == '\\' && line[n + 1] == 'r';
        }
      }
      assert FindMarker(line, 0) == Some(n);
      assert line[..n] == head;
      assert line[n + 4..] == Join(pieces[1..]);
      SplitJoin(pieces[1..]);
      assert Split(line) == [head] + pieces[1..];
    }
  }

  /**
   * A fragment that itself holds the literal marker does not come back from
   * its logged line: replay splits it, so the handler sees other fragments
   * than the live run did.
   */
  lemma MarkedFragmentDoesNotRoundTrip(fragments: seq<string>, k: int)
    requires 0 <= k < |fragments| && ContainsMarker(fragments[k])
    ensures Split(Join(fragments)) != fragments
  {
  }

  // ---- Replay ----

  /** A line of the log file as the reader yields it: text, or a read error. */
  datatype LogLine = Line(text: string) | Unreadable

  /** The files on disk, each a sequence of lines. */
  class FileSystem {
    var files: map<string, seq<LogLine>>

    constructor (files: map<string, seq<LogLine>>)
      ensures this.files == files
    {
      this.files := files;
    }
  }

  const ReplaySessionId: string := "0.0.0.0:0"

  /** The registry replay runs against: one pre-authenticated session on database 0. */
  function ReplaySessions(): (sessions: Sessions)
    ensures sessions.Keys == {ReplaySessionId}
    ensures sessions[ReplaySessionId].selectedDatabase == 0 && sessions[ReplaySessionId].authenticated
  {
    map[ReplaySessionId := Session(0, true)]
  }

  /**
   * A line replay can run without panicking: it has a fragment 2 and, when
   * that names a handler, the handler's fragments are there.
   */
  predicate Replayable(line: LogLine) {
    line.Line? ==>
      var f := Split(line.text);
      |f| >= 3 && (Strategies.Lookup(Upper(f[2])).Some? ==> Strategies.Accepts(Strategies.Lookup(Upper(f[2])).value, f))
  }

  /** One line of replay: an unreadable line or an unknown command leaves the store alone. */
  ghost function Step(st: State, line: LogLine, now: int): (after: State)
    requires Replayable(line)
  {
    match line
    case Unreadable => st
    case Line(text) =>
      var f := Split(text);
      match Strategies.Lookup(Upper(f[2]))
      case None => st
      case Some(strategy) => Strategies.Handle(strategy, st, ReplaySessions(), ReplaySessionId, f, false, now).store
  }

  /** The store after replaying `lines` in file order. */
  ghost function Replay(st: State, lines: seq<LogLine>, now: int): (after: State)
    requires forall k :: 0 <= k < |lines| ==> Replayable(lines[k])
    decreases |lines|
  {
    if lines == [] then st else Replay(Step(st, lines[0], now), lines[1..], now)
  }

  /** Replaying two stretches of the log one after the other is replaying them together. */
  lemma {:induction false} ReplayConcat(st: State, a: seq<LogLine>, b: seq<LogLine>, now: int)
    requires forall k :: 0 <= k < |a| ==> Replayable(a[k])
    requires forall k :: 0 <= k < |b| ==> Replayable(b[k])
    ensures forall k :: 0 <= k < |a + b| ==> Replayable((a + b)[k])
    ensures Replay(st, a + b, now) == Replay(Replay(st, a, now), b, now)
    decreases |a|
  {
    if a != [] {
      assert (a + b)[1..] == a[1..] + b;
      ReplayConcat(Step(st, a[0], now), a[1..], b, now);
    } else {
      assert a + b == b;
    }
  }

  /**
   * A command appended to the log as its marker-joined fragments is replayed
   * last, on exactly those fragments, with no reply stream and the replay
   * session.
   */
  lemma LoggedCommandReplaysLast(st: State, lines: seq<LogLine>, fragments: seq<string>, now: int)
    requires forall k :: 0 <= k < |lines| ==> Replayable(lines[k])
    requires |fragments| >= 3 && forall k :: 0 <= k < |fragments| ==> !ContainsMarker(fragments[k])
    requires var h := Strategies.Lookup(Upper(fragments[2])); h.Some? ==> Strategies.Accepts(h.value, fragments)
    ensures Replayable(Line(Join(fragments)))
    ensures var before := Replay(st, lines, now);
      var h := Strategies.Lookup(Upper(fragments[2]));
      Replay(st, lines + [Line(Join(fragments))], now)
        == if h.None? then before
           else Strategies.Handle(h.value, before, ReplaySessions(), ReplaySessionId, fragments, false, now).store
  {
    SplitJoin(fragments);
    ReplayConcat(st, lines, [Line(Join(fragments))], now);
  }

  /**
   * A line that splits into a SET request replays it on database 0 with no
   * reply stream: the key holds the value, with the expiry computed from the
   * time of the replay.
   */
  lemma SetLineReplaysOnZero(st: State, text: string, later: int)
    requires var f := Split(text); |f| > 6 && Upper(f[2]) == "SET"
    ensures Replayable(Line(text))
    ensures var f := Split(text);
      Step(st, Line(text), later) == AfterSetWithTtl(st, 0, f[4], f[6], SetCommand.ExpireAt(f, later))
  {
  }

  /**
   * A SET that a session on database 0 ran live, with no NX/XX guard and no
   * EX/PX flag, logged as its marker-joined fragments, rebuilds on replay the
   * store the live run built, whatever the clock reads at either time. The
   * logged line must split back into the fragments, which `SplitJoin` shows
   * whenever no fragment contains the marker.
   */
  lemma LiveSetReplaysSame(st: State, sessions: Sessions, sessionId: string, fragments: seq<string>,
                           now: int, later: int)
    requires sessionId in sessions && sessions[sessionId].selectedDatabase == 0
    requires |fragments| > 6 && Upper(fragments[2]) == "SET"
    requires Split(Join(fragments)) == fragments
    requires !SetCommand.HasGuard(fragments, "NX") && !SetCommand.HasGuard(fragments, "XX")
    requires SetCommand.LastTtlFlag(fragments).None?
    ensures Replayable(Line(Join(fragments)))
    ensures Step(st, Line(Join(fragments)), later) == SetCommand.Effect(st, sessions, sessionId, fragments, true, now).store
  {
    SetLineReplaysOnZero(st, Join(fragments), later);
    LiveSetStores(st, sessions, sessionId, fragments, now);
    assert SetCommand.ExpireAt(fragments, later) == NoExpiry == SetCommand.ExpireAt(fragments, now);
  }

  /** A live SET that no guard aborts stores on its session's database. */
  lemma LiveSetStores(st: State, sessions: Sessions, sessionId: string, fragments: seq<string>, now: int)
    requires sessionId in sessions && |fragments| > 6
    requires !SetCommand.HasGuard(fragments, "NX") && !SetCommand.HasGuard(fragments, "XX")
    ensures SetCommand.Effect(st, sessions, sessionId, fragments, true, now).store
      == AfterSetWithTtl(st, sessions[sessionId].selectedDatabase, fragments[4], fragments[6], SetCommand.ExpireAt(fragments, now))
  {
  }

  /**
   * Replay runs every command on database 0: a SET that a session on another
   * database ran live lands, on replay, in database 0, and the slot the live
   * run wrote stays as it was before the command.
   */
  lemma ReplayedSetLandsInDatabaseZero(st: State, sessions: Sessions, sessionId: string, fragments: seq<string>,
                                       now: int, later: int)
    requires sessionId in sessions && sessions[sessionId].selectedDatabase != 0
    requires |fragments| > 6 && Upper(fragments[2]) == "SET"
    requires Split(Join(fragments)) == fragments
    requires !SetCommand.HasGuard(fragments, "NX") && !SetCommand.HasGuard(fragments, "XX")
    ensures Replayable(Line(Join(fragments)))
    ensures var live := SetCommand.Effect(st, sessions, sessionId, fragments, true, now).store;
      var replayed := Step(st, Line(Join(fragments)), later);
      var slot := (sessions[sessionId].selectedDatabase, fragments[4]);
      && slot in live
      && (0, fragments[4]) in replayed
      && (slot in replayed <==> slot in st)
      && (slot in st ==> replayed[slot] == st[slot])
  {
    SetLineReplaysOnZero(st, Join(fragments), later);
  }

  /** A line whose fragment 2 names no registered command is skipped. */
  lemma UnknownCommandSkipped(st: State, text: string, now: int)
    requires |Split(text)| >= 3 && Strategies.Lookup(Upper(Split(text)[2])).None?
    ensures Replayable(Line(text)) && Step(st, Line(text), now) == st
  {
  }

  /** An unreadable line anywhere in the log changes nothing. */
  lemma UnreadableLineSkipped(st: State, a: seq<LogLine>, b: seq<LogLine>, now: int)
    requires forall k :: 0 <= k < |a| ==> Replayable(a[k])
    requires forall k :: 0 <= k < |b| ==> Replayable(b[k])
    ensures forall k :: 0 <= k < |a + [Unreadable] + b| ==> Replayable((a + [Unreadable] + b)[k])
    ensures Replay(st, a + [Unreadable] + b, now) == Replay(st, a + b, now)
  {
    ReplayConcat(st, a, [Unreadable], now);
    ReplayConcat(st, a + [Unreadable], b, now);
    ReplayConcat(st, a, b, now);
  }

  // ---- The log object ----

  class Aof {
    const config: Config
    const db: Db
    const fs: FileSystem
    /** The path of the open log file, if the log is enabled. */
    const aofFile: Option<string>

    ghost predicate Valid()
      reads fs
    {
      aofFile == AofPath(config) && (aofFile.Some? ==> aofFile.value in fs.files)
    }

    /** Opens (creating if absent) the log file when the log is enabled. */
    constructor (config: Config, db: Db, fs: FileSystem)
      modifies fs
      ensures this.config == config && this.db == db && this.fs == fs
      ensures aofFile == AofPath(config)
      ensures fs.files == if aofFile.Some? && aofFile.value !in old(fs.files)
                          then old(fs.files)[aofFile.value := []] else old(fs.files)
      ensures Valid()
    {
      this.config := config;
      this.db := db;
      this.fs := fs;
      var file: Option<string> := None;
      if config.appendonly && config.appendfilename.Some? {
        var path := config.dir + config.appendfilename.value;
        if path !in fs.files {
          fs.files := fs.files[path := []];
        }
        file := Some(path);
      }
      aofFile := file;
    }

    /**
     * Appends the command as one line when the log is open; `written` says
     * whether the write succeeds, and a write is taken to be all-or-nothing.
     */
    method Save(command: string, written: bool)
      requires Valid()
      modifies fs
      ensures Valid()
      ensures fs.files == if aofFile.Some? && written
                          then old(fs.files)[aofFile.value := old(fs.files)[aofFile.value] + [Line(command)]]
                          else old(fs.files)
    {
      if aofFile.Some? {
        if written {
          var path := aofFile.value;
          fs.files := fs.files[path := fs.files[path] + [Line(command)]];
        }
      }
    }

    ghost predicate CanReplay()
      reads fs
    {
      var p := AofPath(config);
      p.Some? && p.value in fs.files ==>
        forall k :: 0 <= k < |fs.files[p.value]| ==> Replayable(fs.files[p.value][k])
    }

    /**
     * Replays the log file, if the log is enabled and the file opens, line by
     * line in file order through the registry, with no reply stream.
     */
    method Load(now: int)
      requires CanReplay()
      modifies db
      ensures var p := AofPath(config);
        db.entries == if p.Some? && p.value in fs.files then Replay(old(db.entries), fs.files[p.value], now)
                      else old(db.entries)
    {
      if config.appendonly {
        if config.appendfilename.Some? {
          var path := config.dir + config.appendfilename.value;
          if path in fs.files {
            var lines := fs.files[path];
            var sessions := ReplaySessions();
            var sessionId := ReplaySessionId;
            ghost var start := db.entries;
            for i := 0 to |lines|
              invariant db.entries == Replay(start, lines[..i], now)
            {
              ghost var before := db.entries;
              match lines[i] {
                case Unreadable =>
                case Line(operation) =>
                  var fragments := Split(operation);
                  var command := fragments[2];
                  var strategy := Strategies.Lookup(Upper(command));
                  if strategy.Some? {
                    var _ := Strategies.Execute(strategy.value, db, sessions, sessionId, fragments, false, now);
                  }
              }
              assert db.entries == Step(before, lines[i], now);
              assert Replay(before, [lines[i]], now) == Step(before, lines[i], now) by {
                assert [lines[i]][1..] == [];
              }
              ReplayConcat(start, lines[..i], [lines[i]], now);
              assert lines[..i + 1] == lines[..i] + [lines[i]];
            }
            assert lines[..|lines|] == lines;
          }
        }
      }
    }
  }
}
