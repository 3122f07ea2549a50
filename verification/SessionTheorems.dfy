/** What a session log gives back: everything that was appended to it, up to the first line that is too
    long for the reader. */
module SessionTheorems {
  import opened Bytes
  import opened Options
  import opened Ordering
  import opened SessionLog

  /** What can stand in a session file behind its meta line: an appended message, or a line that somebody
      else left there. */
  datatype Entry = Appended(message: Message, now: int) | Foreign(bytes: seq<byte>)

  function EntryLine(c: Codec, e: Entry): seq<byte> {
    match e
    case Appended(message, now) => Written(c, MessageLine(message, now))
    case Foreign(bytes) => bytes
  }

  function EntryLines(c: Codec, entries: seq<Entry>): (lines: seq<seq<byte>>)
    ensures |lines| == |entries| && forall k :: 0 <= k < |entries| ==> lines[k] == EntryLine(c, entries[k])
  {
    seq(|entries|, k requires 0 <= k < |entries| => EntryLine(c, entries[k]))
  }

  /** Section 7 of RFC 8259 has control characters escaped, so an encoded line is one line and ends in no
      carriage return; and it decodes to what was encoded. */
  predicate Faithful(c: Codec, line: Line) {
    c.encode(line).Some? ==>
      var bytes := c.encode(line).value;
      OneLine(bytes) && DropCarriageReturn(bytes) == bytes && c.decode(bytes) == Some(line)
  }

  predicate Ignored(c: Codec, bytes: seq<byte>) {
    var found := Decoded(c, bytes);
    found.None? || (found.value.kind != META && found.value.kind != MESSAGE)
  }

  predicate EntryOk(c: Codec, e: Entry) {
    match e
    case Appended(message, now) => Faithful(c, MessageLine(message, now))
    case Foreign(bytes) => OneLine(bytes) && Ignored(c, bytes)
  }

  /** A message as it comes back: its type cleared, its time filled in. */
  function AsLoaded(m: Message, now: int): Message { m.(kind := "", timestamp := Stamp(m, now)) }

  /** The appended messages that could be encoded, in order. */
  function Kept(c: Codec, entries: seq<Entry>): seq<Message>
    decreases |entries|
  {
    if entries == [] then []
    else
      var n := |entries| - 1;
      Kept(c, entries[..n]) +
      match entries[n]
      case Appended(message, now) =>
        if c.encode(MessageLine(message, now)).Some? then [AsLoaded(message, now)] else []
      case Foreign(_) => []
  }

  /** What one entry adds for a reader. */
  lemma ReadEntry(c: Codec, lines: seq<seq<byte>>, entries: seq<Entry>, e: Entry)
    requires EntryOk(c, e) && c.decode([]).None?
    ensures LastSession(c, lines + [EntryLine(c, e)]) == LastSession(c, lines)
    ensures Messages(c, lines) == Kept(c, entries) ==>
              Messages(c, lines + [EntryLine(c, e)]) == Kept(c, entries + [e])
  {
    OneMoreLine(c, lines, EntryLine(c, e));
    assert (entries + [e])[..|entries|] == entries;
  }

  function SessionLines(c: Codec, s: Session, entries: seq<Entry>): seq<seq<byte>> {
    [Written(c, MetaLine(s))] + EntryLines(c, entries)
  }

  lemma {:induction false} ReadEntries(c: Codec, s: Session, entries: seq<Entry>)
    requires c.decode([]).None? && Faithful(c, MetaLine(s)) && c.encode(MetaLine(s)).Some?
    requires forall k :: 0 <= k < |entries| ==> EntryOk(c, entries[k])
    ensures LastSession(c, SessionLines(c, s, entries)) == s
    ensures Messages(c, SessionLines(c, s, entries)) == Kept(c, entries)
    decreases |entries|
  {
    if entries == [] {
      assert SessionLines(c, s, entries) == [] + [Written(c, MetaLine(s))];
      OneMoreLine(c, [], Written(c, MetaLine(s)));
    } else {
      var n := |entries| - 1;
      var e := entries[n];
      assert entries == entries[..n] + [e];
      assert SessionLines(c, s, entries) == SessionLines(c, s, entries[..n]) + [EntryLine(c, e)];
      ReadEntries(c, s, entries[..n]);
      ReadEntry(c, SessionLines(c, s, entries[..n]), entries[..n], e);
    }
  }

  predicate AllShort(lines: seq<seq<byte>>) { forall k :: 0 <= k < |lines| ==> Short(lines[k]) }

  /** A created session loads as its meta line and its appended messages, whatever foreign lines stand
      between them.  If a line that is too long follows, with anything behind it, the same comes back
      together with an error. */
  lemma CreatedSessionLoads(c: Codec, s: Session, entries: seq<Entry>, tail: seq<byte>)
    requires c.decode([]).None? && Faithful(c, MetaLine(s)) && c.encode(MetaLine(s)).Some?
    requires forall k :: 0 <= k < |entries| ==> EntryOk(c, entries[k])
    requires AllShort(SessionLines(c, s, entries))
    requires tail == [] || !Short(tail[..LineLength(tail)])
    ensures Load(c, Joined(SessionLines(c, s, entries)) + tail) ==
            Loaded(s, Kept(c, entries), if tail == [] then Fine else LineTooLong)
  {
    var lines := SessionLines(c, s, entries);
    assert forall k :: 0 <= k < |lines| ==> OneLine(lines[k]);
    LinesOfJoined(lines, tail);
    ReadEntries(c, s, entries);
    LoadEnds(c, Joined(lines) + tail, lines, tail, s, Kept(c, entries));
  }

  // ---------------------------------------------------------------- exactly when nothing is lost

  /** What a caller can check of a line before it is written: it can be encoded, and fits the reader. */
  predicate Fits(c: Codec, line: Line) { c.encode(line).Some? && Short(c.encode(line).value) }

  predicate AllAppended(entries: seq<Entry>) { forall k :: 0 <= k < |entries| ==> entries[k].Appended? }

  function EntryAsLine(e: Entry): Line
    requires e.Appended?
  {
    MessageLine(e.message, e.now)
  }

  function AllMessages(entries: seq<Entry>): (messages: seq<Message>)
    requires AllAppended(entries)
    ensures |messages| == |entries|
  {
    seq(|entries|, k requires 0 <= k < |entries| => AsLoaded(entries[k].message, entries[k].now))
  }

  lemma {:induction false} KeptAll(c: Codec, entries: seq<Entry>)
    requires AllAppended(entries)
    ensures |Kept(c, entries)| <= |entries|
    ensures |Kept(c, entries)| == |entries| <==>
            forall k :: 0 <= k < |entries| ==> c.encode(EntryAsLine(entries[k])).Some?
    ensures |Kept(c, entries)| == |entries| ==> Kept(c, entries) == AllMessages(entries)
    decreases |entries|
  {
    if entries != [] {
      var n := |entries| - 1;
      KeptAll(c, entries[..n]);
      assert AllMessages(entries) == AllMessages(entries[..n]) + [AsLoaded(entries[n].message, entries[n].now)];
    }
  }

  lemma {:induction false} ReadableAll(lines: seq<seq<byte>>)
    ensures |Readable(lines)| <= |lines|
    ensures |Readable(lines)| == |lines| <==> AllShort(lines)
    ensures AllShort(lines) ==> Readable(lines) == lines
    decreases |lines|
  {
    if lines != [] {
      ReadableAll(lines[1..]);
      if AllShort(lines) {
        assert AllShort(lines[1..]);
      } else if Short(lines[0]) {
        var k :| 0 <= k < |lines| && !Short(lines[k]);
        assert lines[1..][k - 1] == lines[k];
      }
    }
  }

  /** What a message is when it comes back: its type is cleared, a missing time is the time of appending, and
      everything else is what was appended. */
  lemma AllMessagesAre(entries: seq<Entry>, k: nat)
    requires AllAppended(entries) && k < |entries|
    ensures var m, now := entries[k].message, entries[k].now;
            AllMessages(entries)[k] ==
            Message("", m.role, m.content, m.toolCalls, m.toolCallId, if m.timestamp == 0 then now else m.timestamp,
                    m.usage)
  {
  }

  /** The same in the presence of foreign lines and of messages that do not encode. */
  lemma KeptOneMore(c: Codec, entries: seq<Entry>, e: Entry)
    ensures Kept(c, entries + [e]) ==
            match e
            case Foreign(_) => Kept(c, entries)
            case Appended(m, now) =>
              var time := if m.timestamp == 0 then now else m.timestamp;
              var line := Line("message", "", "", 0, m.role, m.content, m.toolCalls, m.toolCallId, time, m.usage);
              if c.encode(line).None? then Kept(c, entries)
              else Kept(c, entries) + [Message("", m.role, m.content, m.toolCalls, m.toolCallId, time, m.usage)]
  {
    assert (entries + [e])[..|entries|] == entries;
  }

  predicate AllFit(c: Codec, s: Session, entries: seq<Entry>)
    requires AllAppended(entries)
  {
    Fits(c, MetaLine(s)) && forall k :: 0 <= k < |entries| ==> Fits(c, EntryAsLine(entries[k]))
  }

  lemma WrittenIs(c: Codec, line: Line)
    ensures c.encode(line).Some? ==> Written(c, line) == c.encode(line).value
  {
  }

  lemma ShortIff(c: Codec, s: Session, entries: seq<Entry>)
    ensures AllShort(SessionLines(c, s, entries)) <==>
            Short(Written(c, MetaLine(s))) && forall k :: 0 <= k < |entries| ==> Short(EntryLine(c, entries[k]))
  {
    hide Short, Written, EntryLine;
    var lines := SessionLines(c, s, entries);
    assert lines[0] == Written(c, MetaLine(s));
    forall k | 0 <= k < |entries| ensures lines[k + 1] == EntryLine(c, entries[k]) {
    }
    assert forall k :: 1 <= k < |lines| ==> lines[k] == EntryLine(c, entries[k - 1]);
  }

  lemma AllFitIs(c: Codec, s: Session, entries: seq<Entry>)
    requires AllAppended(entries) && c.encode(MetaLine(s)).Some?
    ensures AllFit(c, s, entries) <==>
            AllShort(SessionLines(c, s, entries)) && |Kept(c, entries)| == |entries|
  {
    KeptAll(c, entries);
    ShortIff(c, s, entries);
    hide Kept, SessionLines, EntryLines, Written;
    forall k | 0 <= k < |entries|
      ensures Fits(c, EntryAsLine(entries[k])) <==>
              c.encode(EntryAsLine(entries[k])).Some? && Short(EntryLine(c, entries[k])) {
      WrittenIs(c, EntryAsLine(entries[k]));
    }
    WrittenIs(c, MetaLine(s));
  }

  /** The reader reports no error exactly when every line of the file is short enough. */
  lemma FineIff(c: Codec, lines: seq<seq<byte>>)
    requires forall k :: 0 <= k < |lines| ==> OneLine(lines[k])
    ensures Load(c, Joined(lines)).failure == Fine <==> AllShort(lines)
  {
    hide OneLine, LastSession, Messages, Joined;
    LinesOfJoined(lines, []);
    assert Joined(lines) + [] == Joined(lines) && Lines([]) == [] && lines + [] == lines;
    ReadableAll(lines);
  }

  /** A session of appended messages comes back complete and without an error if and only if every one of
      its lines can be encoded and is short enough.  A message that cannot be encoded is lost without an
      error, although appending it reported success; one that is too long takes everything behind it
      along. */
  lemma CompleteIff(c: Codec, s: Session, entries: seq<Entry>)
    requires c.decode([]).None? && Faithful(c, MetaLine(s)) && c.encode(MetaLine(s)).Some?
    requires AllAppended(entries) && forall k :: 0 <= k < |entries| ==> EntryOk(c, entries[k])
    ensures Load(c, Joined(SessionLines(c, s, entries))) == Loaded(s, AllMessages(entries), Fine)
            <==> AllFit(c, s, entries)
  {
    var lines := SessionLines(c, s, entries);
    assert forall k :: 0 <= k < |lines| ==> OneLine(lines[k]);
    FineIff(c, lines);
    AllFitIs(c, s, entries);
    KeptAll(c, entries);
    hide Load, Kept, SessionLines, Joined, OneLine, LineLength;
    if AllShort(lines) {
      CreatedSessionLoads(c, s, entries, []);
      assert Joined(lines) + [] == Joined(lines);
    }
  }

  /** A codec that refuses every line but one. */
  function Refusing(line: Line): Codec {
    Codec(l => if l == line then Some([123]) else None, bytes => if bytes == [123] then Some(line) else None)
  }

  /** One message that cannot be encoded, although appending it reported success: the session loads without
      it and without an error. */
  lemma UnencodableMessageIsLost(c: Codec, s: Session, m: Message, now: int)
    requires c.decode([]).None? && Faithful(c, MetaLine(s)) && Fits(c, MetaLine(s))
    requires c.encode(MessageLine(m, now)).None?
    ensures Load(c, Joined(SessionLines(c, s, [Appended(m, now)]))) == Loaded(s, [], Fine)
  {
    var entries, lines := [Appended(m, now)], SessionLines(c, s, [Appended(m, now)]);
    assert lines[0] == Written(c, MetaLine(s)) && lines[1] == [];
    CreatedSessionLoads(c, s, entries, []);
    assert Joined(lines) + [] == Joined(lines) && entries[..0] == [];
  }

  /** Such a message exists. */
  lemma MessagesCanBeLost(s: Session, m: Message, now: int)
    ensures var c := Refusing(MetaLine(s));
            Load(c, Joined(SessionLines(c, s, [Appended(m, now)]))) == Loaded(s, [], Fine)
  {
    assert MetaLine(s).kind != MessageLine(m, now).kind by { assert |META| != |MESSAGE|; }
    UnencodableMessageIsLost(Refusing(MetaLine(s)), s, m, now);
  }

  /** One message that is too long hides itself and everything appended after it. */
  lemma LongMessageHidesTheRest(c: Codec, s: Session, m: Message, now: int, later: seq<byte>)
    requires c.decode([]).None? && Faithful(c, MetaLine(s)) && Fits(c, MetaLine(s))
    requires var line := MessageLine(m, now); c.encode(line).Some? && Faithful(c, line) && !Fits(c, line)
    ensures Load(c, Joined(SessionLines(c, s, [])) + (Written(c, MessageLine(m, now)) + [NEWLINE] + later)) ==
            Loaded(s, [], LineTooLong)
  {
    var line := Written(c, MessageLine(m, now));
    LineLengthIs(line, later);
    assert (line + [NEWLINE] + later)[..|line|] == line;
    CreatedSessionLoads(c, s, [], line + [NEWLINE] + later);
  }

  /** Appending keeps every field: when all lines fit, the loaded session has the ID, the agent and the time of
      its creation, and its k-th message is the k-th appended one, field by field. */
  lemma LoadedFieldsAre(c: Codec, s: Session, entries: seq<Entry>)
    requires c.decode([]).None? && Faithful(c, MetaLine(s)) && c.encode(MetaLine(s)).Some?
    requires AllAppended(entries) && forall k :: 0 <= k < |entries| ==> EntryOk(c, entries[k])
    requires AllFit(c, s, entries)
    ensures var r := Load(c, Joined(SessionLines(c, s, entries)));
            && r.failure == Fine && r.session == s && |r.messages| == |entries|
            && forall k :: 0 <= k < |entries| ==>
                 var m, now, loaded := entries[k].message, entries[k].now, r.messages[k];
                 && loaded.kind == "" && loaded.role == m.role && loaded.content == m.content
                 && loaded.toolCalls == m.toolCalls && loaded.toolCallId == m.toolCallId && loaded.usage == m.usage
                 && loaded.timestamp == if m.timestamp == 0 then now else m.timestamp
  {
    CompleteIff(c, s, entries);
    hide Load, AllFit, EntryOk, Joined, AllMessages;
    forall k | 0 <= k < |entries| { AllMessagesAre(entries, k); }
  }

  /** What fits: at most 65535 bytes. */
  lemma FitsIff(c: Codec, line: Line)
    ensures Fits(c, line) <==> c.encode(line).Some? && |c.encode(line).value| <= 65535
  {
  }

  /** A carriage return before the newline is not part of the line. */
  lemma CarriageReturnIsDropped(c: Codec, line: seq<byte>)
    ensures Decoded(c, line + [13]) == c.decode(line)
  {
    assert (line + [13])[..|line|] == line;
  }

  /** Of several meta lines the last one counts. */
  lemma {:induction false} LastMetaWins(c: Codec, before: seq<seq<byte>>, line: seq<byte>, after: seq<seq<byte>>)
    requires Decoded(c, line).Some? && Decoded(c, line).value.kind == "meta"
    requires forall k :: 0 <= k < |after| ==>
               Decoded(c, after[k]).None? || Decoded(c, after[k]).value.kind != "meta"
    ensures var l := Decoded(c, line).value;
            LastSession(c, before + [line] + after) == Session(l.id, l.agent, l.createdAt)
    decreases |after|
  {
    if after == [] {
      assert before + [line] + after == before + [line];
      OneMoreLine(c, before, line);
    } else {
      var n := |after| - 1;
      assert before + [line] + after == before + [line] + after[..n] + [after[n]];
      LastMetaWins(c, before, line, after[..n]);
      OneMoreLine(c, before + [line] + after[..n], after[n]);
    }
  }

  // ---------------------------------------------------------------- runs of a store

  /** A deleted session is gone, and appending to it does not bring it back. */
  lemma DeletedIsGone(c: Codec, files: Files, id: string, m: Message, now: int)
    ensures FileName(id) !in Perform(c, files, Delete(id))
    ensures FileName(id) !in Perform(c, Perform(c, files, Delete(id)), Append(id, m, now))
  {
  }

  /** The messages appended to one session among all operations of a run. */
  function AppendsTo(id: string, ops: seq<Operation>): seq<Entry>
    decreases |ops|
  {
    if ops == [] then []
    else
      var n := |ops| - 1;
      AppendsTo(id, ops[..n]) +
      if ops[n].Append? && ops[n].id == id then [Appended(ops[n].message, ops[n].now)] else []
  }

  lemma {:induction false} PerformOneMore(c: Codec, files: Files, ops: seq<Operation>, op: Operation)
    ensures PerformAll(c, files, ops + [op]) == Perform(c, PerformAll(c, files, ops), op)
    decreases |ops|
  {
    if ops == [] {
      assert [op][1..] == [];
    } else {
      assert (ops + [op])[1..] == ops[1..] + [op];
      PerformOneMore(c, Perform(c, files, ops[0]), ops[1..], op);
    }
  }

  lemma OtherSessionsStay(c: Codec, files: Files, op: Operation, id: string)
    requires op.id != id
    ensures FileName(id) in Perform(c, files, op) <==> FileName(id) in files
    ensures FileName(id) in files ==> Perform(c, files, op)[FileName(id)] == files[FileName(id)]
  {
    if FileName(op.id) == FileName(id) { FileNameInjective(op.id, id); }
  }

  /** From its creation on, until it is deleted or created again, a session's file holds its meta line and
      then one line for each message appended to it, whatever happens to the other sessions. */
  lemma {:induction false} FileOfSession(c: Codec, files: Files, s: Session, ops: seq<Operation>)
    requires forall k :: 0 <= k < |ops| && ops[k].id == s.id ==> ops[k].Append?
    ensures var after := PerformAll(c, Perform(c, files, Create(s.id, s.agent, s.createdAt)), ops);
            && s.id + ".jsonl" in after && FileName(s.id) in after
            && after[s.id + ".jsonl"] == Joined(SessionLines(c, s, AppendsTo(s.id, ops)))
    decreases |ops|
  {
    if ops == [] {
      JoinedOneMore([], Written(c, MetaLine(s)));
      assert SessionLines(c, s, []) == [] + [Written(c, MetaLine(s))];
    } else {
      var n := |ops| - 1;
      var op, created := ops[n], Perform(c, files, Create(s.id, s.agent, s.createdAt));
      var before, entries := PerformAll(c, created, ops[..n]), AppendsTo(s.id, ops[..n]);
      FileOfSession(c, files, s, ops[..n]);
      PerformOneMore(c, created, ops[..n], op);
      assert ops == ops[..n] + [op];
      if op.id == s.id {
        var e := Appended(op.message, op.now);
        JoinedOneMore(SessionLines(c, s, entries), EntryLine(c, e));
        assert SessionLines(c, s, entries + [e]) == SessionLines(c, s, entries) + [EntryLine(c, e)];
      } else {
        OtherSessionsStay(c, before, op, s.id);
        assert AppendsTo(s.id, ops) == entries;
      }
    }
  }

  lemma {:induction false} AppendsAreOwn(c: Codec, id: string, ops: seq<Operation>)
    requires forall k :: 0 <= k < |ops| && ops[k].id == id && ops[k].Append? ==>
               Faithful(c, MessageLine(ops[k].message, ops[k].now))
    ensures AllAppended(AppendsTo(id, ops))
    ensures forall k :: 0 <= k < |AppendsTo(id, ops)| ==> EntryOk(c, AppendsTo(id, ops)[k])
    decreases |ops|
  {
    hide Faithful;
    if ops != [] { AppendsAreOwn(c, id, ops[..|ops| - 1]); }
  }

  /** So after any run of the store the session loads completely exactly when its own lines fit. */
  lemma SessionSurvivesRun(c: Codec, files: Files, s: Session, ops: seq<Operation>)
    requires c.decode([]).None? && Faithful(c, MetaLine(s)) && c.encode(MetaLine(s)).Some?
    requires forall k :: 0 <= k < |ops| && ops[k].id == s.id ==>
               ops[k].Append? && Faithful(c, MessageLine(ops[k].message, ops[k].now))
    ensures var after := PerformAll(c, Perform(c, files, Create(s.id, s.agent, s.createdAt)), ops);
            var entries := AppendsTo(s.id, ops);
            && FileName(s.id) in after && AllAppended(entries)
            && (Load(c, after[FileName(s.id)]) == Loaded(s, AllMessages(entries), Fine)
                <==> AllFit(c, s, entries))
  {
    hide Load, AllFit, Faithful, PerformAll, Joined, AppendsTo;
    FileOfSession(c, files, s, ops);
    AppendsAreOwn(c, s.id, ops);
    CompleteIff(c, s, AppendsTo(s.id, ops));
  }

  /** Which sessions a listing shows: those of the session files that load without an error. */
  lemma {:induction false} ListedIff(c: Codec, files: Files, names: seq<string>, s: Session)
    ensures s in Listed(c, files, names) <==>
            exists k :: 0 <= k < |names| && names[k] in files
              && |names[k]| >= 6 && names[k][|names[k]| - 6..] == ".jsonl"
              && Load(c, files[names[k]]).failure == Fine && Load(c, files[names[k]]).session == s
    decreases |names|
  {
    hide Load;
    if names != [] { ListedIff(c, files, names[..|names| - 1], s); }
  }

  /** The listing keeps the order of the names, and each file counts once. */
  lemma {:induction false} ListedOfConcat(c: Codec, files: Files, a: seq<string>, b: seq<string>)
    ensures Listed(c, files, a + b) == Listed(c, files, a) + Listed(c, files, b)
    decreases |b|
  {
    hide Load, IsSessionFile;
    if b == [] {
      assert a + b == a;
    } else {
      var n := |b| - 1;
      assert (a + b)[..|a + b| - 1] == a + b[..n];
      ListedOfConcat(c, files, a, b[..n]);
    }
  }

  /** After any run a created session shows in the listing if its lines fit, and the listing is the only one
      the directory allows. */
  lemma SessionIsListed(c: Codec, files: Files, s: Session, ops: seq<Operation>, names: seq<string>, same: seq<string>)
    requires c.decode([]).None? && Faithful(c, MetaLine(s)) && c.encode(MetaLine(s)).Some?
    requires forall k :: 0 <= k < |ops| && ops[k].id == s.id ==>
               ops[k].Append? && Faithful(c, MessageLine(ops[k].message, ops[k].now))
    requires AllAppended(AppendsTo(s.id, ops)) && AllFit(c, s, AppendsTo(s.id, ops))
    requires var after := PerformAll(c, Perform(c, files, Create(s.id, s.agent, s.createdAt)), ops);
             IsDirectory(after, names) && IsDirectory(after, same)
    ensures var after := PerformAll(c, Perform(c, files, Create(s.id, s.agent, s.createdAt)), ops);
            s in Listed(c, after, names) && same == names
  {
    hide Load, AllFit, Faithful, PerformAll, Joined, AppendsTo, Listed;
    var after := PerformAll(c, Perform(c, files, Create(s.id, s.agent, s.createdAt)), ops);
    SessionSurvivesRun(c, files, s, ops);
    StrictOrderIsUnique(names, same, Itself);
    var name := FileName(s.id);
    assert name in names && name[|name| - |SUFFIX|..] == SUFFIX;
    var k :| 0 <= k < |names| && names[k] == name;
    ListedIff(c, after, names, s);
  }
}
