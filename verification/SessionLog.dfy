/** Sessions as append-only logs of JSON lines.  JSON itself is a parameter: a pair of functions that may
    refuse a line in either direction. */
module SessionLog {
  import opened Bytes
  import opened Options
  import opened Ordering

  const NEWLINE: byte := 10
  const CARRIAGE_RETURN: byte := 13
  /** bufio.Scanner gives up on a line that does not fit its buffer together with the newline. */
  const SCAN_LIMIT: nat := 65536
  const META := "meta"
  const MESSAGE := "message"

  datatype Usage = Usage(inputTokens: int, outputTokens: int)
  datatype Session = Session(id: string, agent: string, createdAt: int)
  datatype Message = Message(
    kind: string, role: string, content: string, toolCalls: Option<string>, toolCallId: string,
    timestamp: int, usage: Option<Usage>)
  datatype Line = Line(
    kind: string, id: string, agent: string, createdAt: int, role: string, content: string,
    toolCalls: Option<string>, toolCallId: string, timestamp: int, usage: Option<Usage>)

  datatype Codec = Codec(encode: Line -> Option<seq<byte>>, decode: seq<byte> -> Option<Line>)

  /** The zero time stands for "not set". */
  const NoTime := 0
  const NoSession := Session("", "", NoTime)

  datatype Failure = Fine | NoFile | LineTooLong | NoDirectory
  datatype Loaded = Loaded(session: Session, messages: seq<Message>, failure: Failure)

  function MetaLine(s: Session): Line {
    Line(META, s.id, s.agent, s.createdAt, "", "", None, "", NoTime, None)
  }

  function Stamp(m: Message, now: int): int { if m.timestamp == NoTime then now else m.timestamp }

  function MessageLine(m: Message, now: int): Line {
    Line(MESSAGE, "", "", NoTime, m.role, m.content, m.toolCalls, m.toolCallId, Stamp(m, now), m.usage)
  }

  /** What is written for a line, its newline apart.  A failed encoding is ignored and leaves nothing. */
  function Written(c: Codec, line: Line): seq<byte> {
    match c.encode(line)
    case Some(bytes) => bytes
    case None => []
  }

  function SessionOf(line: Line): Session { Session(line.id, line.agent, line.createdAt) }

  function MessageOf(line: Line): Message {
    Message("", line.role, line.content, line.toolCalls, line.toolCallId, line.timestamp, line.usage)
  }

  function FileName(id: string): string { id + ".jsonl" }

  lemma FileNameInjective(a: string, b: string)
    requires FileName(a) == FileName(b)
    ensures a == b
  {
    assert a == FileName(a)[..|FileName(a)| - 6] && b == FileName(b)[..|FileName(b)| - 6];
  }

  // ---------------------------------------------------------------- lines of a file

  predicate OneLine(bytes: seq<byte>) { NEWLINE !in bytes }

  /** How many bytes stand before the first newline, or at all. */
  function LineLength(data: seq<byte>): (n: nat)
    ensures n <= |data| && OneLine(data[..n]) && (n < |data| ==> data[n] == NEWLINE)
  {
    if data == [] || data[0] == NEWLINE then 0
    else
      var n := LineLength(data[1..]);
      assert data[..n + 1] == [data[0]] + data[1..][..n];
      n + 1
  }

  /** What follows the first line. */
  function AfterLine(data: seq<byte>): (rest: seq<byte>)
    ensures data != [] ==> |rest| < |data|
  {
    var n := LineLength(data);
    if n < |data| then data[n + 1..] else []
  }

  /** The lines of a file; a last line without a newline counts, an empty one does not. */
  ghost function Lines(data: seq<byte>): seq<seq<byte>>
    decreases |data|
  {
    if data == [] then [] else [data[..LineLength(data)]] + Lines(AfterLine(data))
  }

  /** The file made of some lines, each ended by a newline. */
  function Joined(lines: seq<seq<byte>>): seq<byte>
    decreases |lines|
  {
    if lines == [] then [] else lines[0] + [NEWLINE] + Joined(lines[1..])
  }

  function DropCarriageReturn(line: seq<byte>): seq<byte> {
    if line != [] && line[|line| - 1] == CARRIAGE_RETURN then line[..|line| - 1] else line
  }

  lemma {:induction false} LineLengthIs(line: seq<byte>, rest: seq<byte>)
    requires OneLine(line)
    ensures LineLength(line + [NEWLINE] + rest) == |line|
    decreases |line|
  {
    var data := line + [NEWLINE] + rest;
    if line == [] {
      assert data[0] == NEWLINE;
    } else {
      assert data[0] == line[0] && line[0] in line;
      assert data[1..] == line[1..] + [NEWLINE] + rest;
      LineLengthIs(line[1..], rest);
    }
  }

  lemma LinesStep(line: seq<byte>, rest: seq<byte>)
    requires OneLine(line)
    ensures Lines(line + [NEWLINE] + rest) == [line] + Lines(rest)
  {
    var data := line + [NEWLINE] + rest;
    LineLengthIs(line, rest);
    assert data[..|line|] == line && data[|line| + 1..] == rest;
  }

  /** Splitting undoes joining, whatever follows. */
  lemma {:induction false} LinesOfJoined(lines: seq<seq<byte>>, tail: seq<byte>)
    requires forall k :: 0 <= k < |lines| ==> OneLine(lines[k])
    ensures Lines(Joined(lines) + tail) == lines + Lines(tail)
    decreases |lines|
  {
    hide Lines, OneLine;
    if lines == [] {
      assert Joined(lines) + tail == tail;
    } else {
      var rest := Joined(lines[1..]) + tail;
      assert Joined(lines) + tail == lines[0] + [NEWLINE] + rest;
      LinesStep(lines[0], rest);
      LinesOfJoined(lines[1..], tail);
      assert lines == [lines[0]] + lines[1..];
    }
  }

  lemma {:induction false} JoinedOneMore(lines: seq<seq<byte>>, line: seq<byte>)
    ensures Joined(lines + [line]) == Joined(lines) + line + [NEWLINE]
    decreases |lines|
  {
    if lines == [] {
      assert Joined([line]) == line + [NEWLINE] + Joined([]);
      assert [] + [line] == [line];
    } else {
      JoinedOneMore(lines[1..], line);
      assert (lines + [line])[1..] == lines[1..] + [line];
    }
  }

  // ---------------------------------------------------------------- what a reader makes of the lines

  function Decoded(c: Codec, line: seq<byte>): Option<Line> { c.decode(DropCarriageReturn(line)) }

  predicate Short(line: seq<byte>) { |line| < SCAN_LIMIT }

  /** The lines before the first one that is too long. */
  ghost function Readable(lines: seq<seq<byte>>): seq<seq<byte>>
    decreases |lines|
  {
    if lines == [] || !Short(lines[0]) then [] else [lines[0]] + Readable(lines[1..])
  }

  /** The last meta line wins; the message lines count in order; all other lines are passed over. */
  ghost function LastSession(c: Codec, lines: seq<seq<byte>>): Session
    decreases |lines|
  {
    if lines == [] then NoSession
    else
      var n := |lines| - 1;
      match Decoded(c, lines[n])
      case Some(line) => if line.kind == META then SessionOf(line) else LastSession(c, lines[..n])
      case None => LastSession(c, lines[..n])
  }

  ghost function Messages(c: Codec, lines: seq<seq<byte>>): seq<Message>
    decreases |lines|
  {
    if lines == [] then []
    else
      var n := |lines| - 1;
      match Decoded(c, lines[n])
      case Some(line) => Messages(c, lines[..n]) + if line.kind == MESSAGE then [MessageOf(line)] else []
      case None => Messages(c, lines[..n])
  }

  ghost function Load(c: Codec, data: seq<byte>): Loaded {
    var lines := Lines(data);
    var read := Readable(lines);
    Loaded(LastSession(c, read), Messages(c, read), if |read| < |lines| then LineTooLong else Fine)
  }

  lemma {:induction false} ReadableAfter(short: seq<seq<byte>>, lines: seq<seq<byte>>)
    requires forall k :: 0 <= k < |short| ==> Short(short[k])
    ensures Readable(short + lines) == short + Readable(lines)
    decreases |short|
  {
    if short == [] {
      assert short + lines == lines;
    } else {
      ReadableAfter(short[1..], lines);
      assert (short + lines)[1..] == short[1..] + lines;
    }
  }

  /** One more line read. */
  lemma OneMoreLine(c: Codec, lines: seq<seq<byte>>, line: seq<byte>)
    ensures LastSession(c, lines + [line]) ==
            match Decoded(c, line)
            case Some(l) => if l.kind == META then SessionOf(l) else LastSession(c, lines)
            case None => LastSession(c, lines)
    ensures Messages(c, lines + [line]) ==
            match Decoded(c, line)
            case Some(l) => Messages(c, lines) + if l.kind == MESSAGE then [MessageOf(l)] else []
            case None => Messages(c, lines)
  {
    assert (lines + [line])[..|lines|] == lines;
  }

  /** How far a reader has come: the short lines read so far, the rest of the file, and what was found. */
  ghost predicate ReadSoFar(c: Codec, data: seq<byte>, done: seq<seq<byte>>, rest: seq<byte>,
                            session: Session, messages: seq<Message>)
  {
    && Lines(data) == done + Lines(rest)
    && (forall k :: 0 <= k < |done| ==> Short(done[k]))
    && session == LastSession(c, done) && messages == Messages(c, done)
  }

  lemma NothingRead(c: Codec, data: seq<byte>)
    ensures ReadSoFar(c, data, [], data, NoSession, [])
  {
  }

  lemma Regroup<T>(before: seq<T>, x: T, after: seq<T>)
    ensures before + ([x] + after) == before + [x] + after
  {
  }

  lemma ReadLine(c: Codec, data: seq<byte>, done: seq<seq<byte>>, rest: seq<byte>,
                 session: Session, messages: seq<Message>)
    requires ReadSoFar(c, data, done, rest, session, messages) && rest != [] && LineLength(rest) < SCAN_LIMIT
    ensures var token := rest[..LineLength(rest)];
            var found := Decoded(c, token);
            ReadSoFar(c, data, done + [token], AfterLine(rest),
                      if found.Some? && found.value.kind == META then SessionOf(found.value) else session,
                      if found.Some? && found.value.kind == MESSAGE then messages + [MessageOf(found.value)]
                      else messages)
  {
    var token := rest[..LineLength(rest)];
    assert Lines(rest) == [token] + Lines(AfterLine(rest));
    hide LineLength, Lines, LastSession, Messages, AfterLine, Decoded;
    OneMoreLine(c, done, token);
    Regroup(done, token, Lines(AfterLine(rest)));
  }

  /** Reading ends behind the short lines: at the end of the file, or at a line that is too long. */
  lemma LoadEnds(c: Codec, data: seq<byte>, done: seq<seq<byte>>, rest: seq<byte>,
                 session: Session, messages: seq<Message>)
    requires ReadSoFar(c, data, done, rest, session, messages)
    requires rest == [] || LineLength(rest) >= SCAN_LIMIT
    ensures Load(c, data) == Loaded(session, messages, if rest == [] then Fine else LineTooLong)
  {
    hide LastSession, Messages;
    ReadableAfter(done, Lines(rest));
    assert Readable(Lines(rest)) == [] && done + [] == done;
  }

  // ---------------------------------------------------------------- the files of one directory

  type Files = map<string, seq<byte>>

  datatype Operation =
    | Create(id: string, agent: string, now: int)
    | Append(id: string, message: Message, now: int)
    | Delete(id: string)

  function Perform(c: Codec, files: Files, op: Operation): Files {
    match op
    case Create(id, agent, now) =>
      files[FileName(id) := Written(c, MetaLine(Session(id, agent, now))) + [NEWLINE]]
    case Append(id, message, now) =>
      if FileName(id) !in files then files
      else files[FileName(id) := files[FileName(id)] + Written(c, MessageLine(message, now)) + [NEWLINE]]
    case Delete(id) => files - {FileName(id)}
  }

  function PerformAll(c: Codec, files: Files, ops: seq<Operation>): Files
    decreases |ops|
  {
    if ops == [] then files else PerformAll(c, Perform(c, files, ops[0]), ops[1..])
  }

  const SUFFIX := ".jsonl"

  predicate IsSessionFile(name: string) { |name| >= |SUFFIX| && name[|name| - |SUFFIX|..] == SUFFIX }

  function TrimSuffix(name: string): (id: string)
    requires IsSessionFile(name)
    ensures FileName(id) == name
  {
    name[..|name| - |SUFFIX|]
  }

  function Itself(name: string): string { name }

  /** The names of a directory as it is read: all of them, sorted. */
  ghost predicate IsDirectory(files: Files, names: seq<string>) {
    StrictlySorted(names, Itself) && forall name :: name in names <==> name in files
  }

  /** The sessions of the files that load without an error, in the order of the names. */
  ghost function Listed(c: Codec, files: Files, names: seq<string>): seq<Session>
    decreases |names|
  {
    if names == [] then []
    else
      var n := |names| - 1;
      var before := Listed(c, files, names[..n]);
      if names[n] in files && IsSessionFile(names[n]) && Load(c, files[names[n]]).failure == Fine
      then before + [Load(c, files[names[n]]).session] else before
  }

  lemma ListedStep(c: Codec, files: Files, names: seq<string>, i: nat)
    requires i < |names| && names[i] in files
    ensures Listed(c, files, names[..i + 1]) ==
            if IsSessionFile(names[i]) && Load(c, files[names[i]]).failure == Fine
            then Listed(c, files, names[..i]) + [Load(c, files[names[i]]).session] else Listed(c, files, names[..i])
  {
    assert names[..i + 1][..i] == names[..i];
  }

  lemma ListedNone(c: Codec, files: Files)
    ensures Listed(c, files, []) == []
  {
  }

  lemma DirectoryIs(files: Files, entries: seq<string>, names: seq<string>)
    requires Distinct(entries) && forall name :: name in entries <==> name in files
    requires multiset(names) == multiset(entries) && Sorted(names, Itself)
    ensures IsDirectory(files, names)
  {
    PermutationIsDistinct(entries, names);
    SortedIsStrict(names, Itself);
  }

  class Store {
    const codec: Codec
    var files: Files

    constructor (codec: Codec, files: Files)
      ensures this.codec == codec && this.files == files
    {
      this.codec, this.files := codec, files;
    }

    method CreateSession(agent: string, uuid: string, now: int) returns (session: Session)
      modifies this
      ensures session == Session(uuid, agent, now)
      ensures files == Perform(codec, old(files), Create(uuid, agent, now))
    {
      session := Session(uuid, agent, now);
      var data := Written(codec, MetaLine(session));
      files := files[FileName(session.id) := data + [NEWLINE]];
    }

    /** Appending needs the file to exist already. */
    method AppendMessage(id: string, message: Message, now: int) returns (failure: Failure)
      modifies this
      ensures failure == if FileName(id) in old(files) then Fine else NoFile
      ensures files == Perform(codec, old(files), Append(id, message, now))
    {
      var m := message.(kind := MESSAGE);
      if m.timestamp == NoTime {
        m := m.(timestamp := now);
      }
      var line := Line(MESSAGE, "", "", NoTime, m.role, m.content, m.toolCalls, m.toolCallId, m.timestamp, m.usage);
      var data := Written(codec, line);
      data := data + [NEWLINE];
      if FileName(id) !in files {
        return NoFile;
      }
      files := files[FileName(id) := files[FileName(id)] + data];
      assert files[FileName(id)] == old(files)[FileName(id)] + Written(codec, MessageLine(message, now)) + [NEWLINE];
      return Fine;
    }

    method LoadSession(id: string) returns (loaded: Loaded)
      ensures loaded == if FileName(id) in files then Load(codec, files[FileName(id)])
                        else Loaded(NoSession, [], NoFile)
    {
      if FileName(id) !in files {
        return Loaded(NoSession, [], NoFile);
      }
      hide *;
      var data := files[FileName(id)];
      var rest, session, messages := data, NoSession, [];
      ghost var done: seq<seq<byte>> := [];
      NothingRead(codec, data);
      while rest != []
        invariant ReadSoFar(codec, data, done, rest, session, messages)
        decreases |rest|
      {
        var n := LineLength(rest);
        if n >= SCAN_LIMIT {
          LoadEnds(codec, data, done, rest, session, messages);
          return Loaded(session, messages, LineTooLong);
        }
        ReadLine(codec, data, done, rest, session, messages);
        var token := rest[..n];
        match codec.decode(DropCarriageReturn(token)) {
          case None =>
          case Some(line) =>
            if line.kind == META {
              session := SessionOf(line);
            } else if line.kind == MESSAGE {
              messages := messages + [MessageOf(line)];
            }
        }
        rest := AfterLine(rest);
        done := done + [token];
      }
      LoadEnds(codec, data, done, rest, session, messages);
      return Loaded(session, messages, Fine);
    }

    /** The system says whether the directory can be read. */
    method ListSessions(readable: bool) returns (failure: Failure, sessions: seq<Session>)
      ensures failure == if readable then Fine else NoDirectory
      ensures !readable ==> sessions == []
      ensures readable ==> exists names :: IsDirectory(files, names) && sessions == Listed(codec, files, names)
    {
      if !readable {
        return NoDirectory, [];
      }
      failure := Fine;
      var names: seq<string> := [];
      var left := files.Keys;
      while left != {}
        invariant left <= files.Keys && Distinct(names)
        invariant forall name :: name in names <==> name in files && name !in left
        decreases left
      {
        var name :| name in left;
        names := names + [name];
        left := left - {name};
      }
      ghost var entries := names;
      names := Sort(names, Itself);
      DirectoryIs(files, entries, names);
      hide Listed, Load, StrictlySorted, Sorted;
      sessions := [];
      ListedNone(codec, files);
      assert names[..0] == [];
      for i := 0 to |names|
        invariant sessions == Listed(codec, files, names[..i])
      {
        ListedStep(codec, files, names, i);
        if !IsSessionFile(names[i]) {
          continue;
        }
        var loaded := LoadSession(TrimSuffix(names[i]));
        if loaded.failure != Fine {
          continue;
        }
        sessions := sessions + [loaded.session];
      }
      assert names[..|names|] == names;
    }

    method DeleteSession(id: string) returns (failure: Failure)
      modifies this
      ensures failure == if FileName(id) in old(files) then Fine else NoFile
      ensures files == Perform(codec, old(files), Delete(id))
    {
      failure := if FileName(id) in files then Fine else NoFile;
      files := files - {FileName(id)};
    }
  }
}
