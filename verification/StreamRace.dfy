/** One consumer calling Next while others append, close the stream or end its context: the same code as in
    EventStream, one step at a time, so that single schedules can be talked about. */
module StreamRace {
  import opened EventStream
  import opened Options

  /** Where the consumer stands: between two calls of Next (with the last call's result), or inside one. */
  datatype Pc =
    | Idle
    | Checking                    // about to read done
    | Querying                    // read done == false, about to ask the store
    | Delivering(event: Event)    // has the answer's first event, cursor not moved yet
    | Noting(event: Event)        // cursor moved behind a terminal event, done not written yet
    | Waiting                     // the answer was empty: in the select
    | Returned(result: Next)

  datatype State = State(
    log: seq<Event>, lastPos: int, done: bool, cancelled: bool, pc: Pc, delivered: seq<Event>)

  datatype Action =
    | Call                        // the consumer calls Next
    | Proceed                     // the call's next step; in the select, the timer
    | Fail(error: string)         // the store's answer is an error
    | Wake                        // in the select, the ended context
    | Append(event: Event)
    | Close
    | EndContext

  function Start(log: seq<Event>): State { State(log, 0, false, false, Idle, []) }

  function ProceedStep(s: State): Option<State> {
    match s.pc
    case Checking => Some(s.(pc := if s.done then Returned(Eof) else Querying))
    case Querying =>
      var answer := From(s.log, s.lastPos);
      Some(s.(pc := if answer == [] then Waiting else Delivering(answer[0])))
    case Delivering(e) =>
      Some(s.(lastPos := e.position + 1, delivered := s.delivered + [e],
              pc := if IsTerminal(e) then Noting(e) else Returned(Got(e))))
    case Noting(e) => Some(s.(done := true, pc := Returned(Got(e))))
    case Waiting => Some(s.(pc := Checking))
    case _ => None
  }

  /** One step; None when the action is not enabled. */
  function Step(s: State, a: Action): Option<State> {
    match a
    case Call => if s.pc.Idle? || s.pc.Returned? then Some(s.(pc := Checking)) else None
    case Proceed => ProceedStep(s)
    case Fail(error) => if s.pc.Querying? then Some(s.(pc := Returned(StoreError(error)))) else None
    case Wake => if s.pc.Waiting? && s.cancelled then Some(s.(pc := Returned(ContextError))) else None
    case Append(e) => if Ordered(s.log + [e]) then Some(s.(log := s.log + [e])) else None
    case Close => Some(s.(done := true, cancelled := true))
    case EndContext => Some(s.(cancelled := true))
  }

  function Play(s: State, schedule: seq<Action>): Option<State>
    decreases |schedule|
  {
    if schedule == [] then Some(s)
    else
      var next := Step(s, schedule[0]);
      if next.None? then None else Play(next.value, schedule[1..])
  }

  // ---------------------------------------------------------------- what every schedule keeps

  /** The cursor stands behind what was delivered, a prefix of the log in which at most the last event is
      terminal. */
  ghost predicate Tracks(log: seq<Event>, lastPos: int, delivered: seq<Event>) {
    && Ordered(log) && delivered <= log && lastPos == Cursor(log, |delivered|)
    && forall i :: 0 <= i < |delivered| - 1 ==> !IsTerminal(delivered[i])
  }

  ghost predicate EndsTerminal(delivered: seq<Event>) {
    delivered != [] && IsTerminal(delivered[|delivered| - 1])
  }

  /** An event in hand is the next one; a terminal one is acted on. */
  ghost predicate Valid(s: State) {
    && Tracks(s.log, s.lastPos, s.delivered)
    && (s.pc.Delivering? ==> |s.delivered| < |s.log| && s.pc.event == s.log[|s.delivered|])
    && (s.pc.Noting? ==> EndsTerminal(s.delivered) && s.pc.event == s.delivered[|s.delivered| - 1])
    && (s.pc.Returned? && s.pc.result.Got? ==>
          s.delivered != [] && s.pc.result.event == s.delivered[|s.delivered| - 1])
    && (EndsTerminal(s.delivered) ==> (s.done || s.pc.Noting?) && !MayDeliver(s.pc))
  }

  ghost predicate MayDeliver(pc: Pc) { pc.Querying? || pc.Delivering? }

  /** What the store answers now. */
  lemma AnswerIs(s: State)
    requires Valid(s)
    ensures From(s.log, s.lastPos) == s.log[|s.delivered|..]
  {
    FromCursor(s.log, |s.delivered|);
  }

  lemma StepKeeps(s: State, a: Action, s': State)
    requires Valid(s) && Step(s, a) == Some(s')
    ensures Valid(s') && s.log <= s'.log && s.delivered <= s'.delivered && (s.done ==> s'.done)
  {
    if a.Append? {
      AppendKeeps(s, a.event, s');
    } else if a == Proceed && s.pc.Delivering? {
      DeliverKeeps(s, s');
    } else if a == Proceed && s.pc.Noting? {
      hide Tracks;
    } else {
      QuietKeeps(s, a, s');
    }
  }

  lemma QuietKeeps(s: State, a: Action, s': State)
    requires Valid(s) && Step(s, a) == Some(s') && !a.Append?
    requires a == Proceed ==> !s.pc.Delivering? && !s.pc.Noting?
    ensures Valid(s') && s.log == s'.log && s.delivered == s'.delivered && (s.done ==> s'.done)
  {
    if a == Proceed && s.pc.Querying? { AnswerIs(s); }
    hide From, Tracks, EndsTerminal;
  }

  lemma AppendKeeps(s: State, e: Event, s': State)
    requires Valid(s) && Ordered(s.log + [e]) && s' == s.(log := s.log + [e])
    ensures Valid(s') && s.log <= s'.log
  {
    assert Cursor(s'.log, |s.delivered|) == Cursor(s.log, |s.delivered|);
    assert s.delivered <= s'.log;
    hide Ordered, IsTerminal, Cursor, EndsTerminal;
  }

  lemma DeliverKeeps(s: State, s': State)
    requires Valid(s) && s.pc.Delivering? && ProceedStep(s) == Some(s')
    ensures Valid(s') && s.log <= s'.log && s.delivered <= s'.delivered && (s.done ==> s'.done)
  {
    hide From, Ordered, IsTerminal;
    var n := |s.delivered|;
    assert s'.delivered[n] == s.log[n] && s'.delivered[..n] == s.delivered;
    assert s'.delivered == s.log[..n + 1];
  }

  lemma {:induction false} PlayKeeps(s: State, schedule: seq<Action>, s': State)
    requires Valid(s) && Play(s, schedule) == Some(s')
    ensures Valid(s') && s.log <= s'.log && s.delivered <= s'.delivered && (s.done ==> s'.done)
    decreases |schedule|
  {
    hide Step, Valid;
    if schedule != [] {
      StepKeeps(s, schedule[0], Step(s, schedule[0]).value);
      PlayKeeps(Step(s, schedule[0]).value, schedule[1..], s');
    }
  }

  /** In every schedule the events handed out are those the stream is to deliver, in order, without loss or
      duplicates. */
  lemma EveryScheduleDelivers(log: seq<Event>, schedule: seq<Action>, s: State)
    requires Ordered(log) && Play(Start(log), schedule) == Some(s)
    ensures Valid(s) && s.delivered <= Visible(s.log)
  {
    PlayKeeps(Start(log), schedule, s);
    PrefixVisible(s.log, |s.delivered|);
    assert s.log[..|s.delivered|] == s.delivered;
  }

  // ---------------------------------------------------------------- closing the stream

  ghost predicate InFlight(s: State) { !s.pc.Idle? && !s.pc.Returned? }

  /** However many calls follow: once the stream is done at most one more event is handed out, by the call
      already in flight, and only if that call has read done before. */
  lemma {:induction false} AtMostOneMore(s: State, schedule: seq<Action>, s': State)
    requires s.done && Play(s, schedule) == Some(s')
    ensures |s'.delivered| + (if MayDeliver(s'.pc) then 1 else 0) <=
            |s.delivered| + (if MayDeliver(s.pc) then 1 else 0)
    decreases |schedule|
  {
    if schedule != [] {
      var t := Step(s, schedule[0]).value;
      hide From, Play;
      assert t.done && |t.delivered| + (if MayDeliver(t.pc) then 1 else 0) <=
                       |s.delivered| + (if MayDeliver(s.pc) then 1 else 0);
      hide Step;
      assert Play(s, schedule) == Play(t, schedule[1..]) by { PlayStep(s, schedule); }
      AtMostOneMore(t, schedule[1..], s');
    }
  }

  lemma PlayStep(s: State, schedule: seq<Action>)
    requires schedule != [] && Step(s, schedule[0]).Some?
    ensures Play(s, schedule) == Play(Step(s, schedule[0]).value, schedule[1..])
  {
  }

  lemma PlayTwo(s: State, a: Action, b: Action)
    requires Step(s, a).Some?
    ensures Play(s, [a]) == Step(s, a)
    ensures Play(s, [a, b]) == Step(Step(s, a).value, b)
  {
    var t := Step(s, a).value;
    assert [a][1..] == [] && [a, b][1..] == [b] && [b][1..] == [];
    assert Play(t, [b]) == Step(t, b);
  }

  ghost predicate DeliversMore(s: State, schedule: seq<Action>) {
    Play(s, schedule).Some? && |Play(s, schedule).value.delivered| > |s.delivered|
  }

  /** Some event can always be appended. */
  lemma NextEvent(log: seq<Event>) returns (e: Event)
    requires Ordered(log)
    ensures Ordered(log + [e])
  {
    e := Event("", "", if log == [] then 0 else log[|log| - 1].position + 1);
  }

  lemma DeliverInTwo(s: State)
    requires Valid(s) && s.pc.Querying? && |s.delivered| < |s.log|
    ensures Play(s, [Proceed, Proceed]).Some?
    ensures |Play(s, [Proceed, Proceed]).value.delivered| > |s.delivered|
  {
    AnswerIs(s);
    PlayTwo(s, Proceed, Proceed);
    hide Valid, From;
  }

  lemma QueryCanDeliver(s: State) returns (schedule: seq<Action>)
    requires Valid(s) && s.pc.Querying?
    ensures DeliversMore(s, schedule)
  {
    var e := NextEvent(s.log);
    var t := s.(log := s.log + [e]);
    AppendKeeps(s, e, t);
    DeliverInTwo(t);
    hide Valid, Ordered, Play, ProceedStep;
    schedule := [Append(e), Proceed, Proceed];
    assert schedule[1..] == [Proceed, Proceed];
    PlayStep(s, schedule);
  }

  /** And it still can exactly when that call stands between reading done and moving the cursor. */
  lemma DeliversMoreIff(s: State)
    requires Valid(s) && s.done
    ensures (exists schedule :: DeliversMore(s, schedule)) <==> MayDeliver(s.pc)
  {
    if s.pc.Delivering? {
      PlayTwo(s, Proceed, Proceed);
      assert DeliversMore(s, [Proceed]);
    } else if s.pc.Querying? {
      var schedule := QueryCanDeliver(s);
    } else {
      forall schedule | DeliversMore(s, schedule) ensures false {
        AtMostOneMore(s, schedule, Play(s, schedule).value);
      }
    }
  }

  /** After a completion or an error has been returned, no call returns anything but io.EOF. */
  lemma {:induction false} TerminalEventEndsStream(s: State, e: Event, schedule: seq<Action>, s': State)
    requires Valid(s) && Play(s, schedule) == Some(s')
    requires s.pc == Returned(Got(e)) && (e.kind == "run.completed" || e.kind == "error")
    ensures s'.delivered == s.delivered
    ensures s'.pc == s.pc || s'.pc.Checking? || s'.pc == Returned(Eof)
  {
    assert EndsTerminal(s.delivered);
    EndedStays(s, s.pc, schedule, s');
  }

  lemma {:induction false} EndedStays(s: State, first: Pc, schedule: seq<Action>, s': State)
    requires s.done && Play(s, schedule) == Some(s') && first.Returned?
    requires s.pc == first || s.pc.Checking? || s.pc == Returned(Eof)
    ensures s'.delivered == s.delivered
    ensures s'.pc == first || s'.pc.Checking? || s'.pc == Returned(Eof)
    decreases |schedule|
  {
    if schedule != [] {
      PlayStep(s, schedule);
      EndedStays(Step(s, schedule[0]).value, first, schedule[1..], s');
    }
  }

  /** After any other event the stream goes on: unless it has been closed, another event can be handed out. */
  lemma OtherEventsDoNotEndStream(s: State, e: Event)
    requires Valid(s) && s.pc == Returned(Got(e)) && !s.done
    ensures e.kind != "run.completed" && e.kind != "error"
    ensures exists schedule :: DeliversMore(s, schedule)
  {
    assert !EndsTerminal(s.delivered);
    var t := s.(pc := Querying);
    assert Valid(t);
    var more := QueryCanDeliver(t);
    var schedule := [Call, Proceed] + more;
    assert schedule[1..] == [Proceed] + more && schedule[1..][1..] == more;
    PlayStep(s, schedule);
    PlayStep(s.(pc := Checking), schedule[1..]);
    assert DeliversMore(s, schedule);
  }

  /** The check of done changes only when the stream is closed or a completion or an error is returned. */
  lemma OnlyTerminalEventsEnd(s: State, a: Action, s': State)
    requires Valid(s) && Step(s, a) == Some(s') && !s.done && s'.done
    ensures a == Close
            || (s'.pc.Returned? && s'.pc.result.Got?
                && (s'.pc.result.event.kind == "run.completed" || s'.pc.result.event.kind == "error"))
  {
  }

  /** No new call begins. */
  ghost predicate SameCall(schedule: seq<Action>) { Call !in schedule }

  /** The call in flight can still end with this result. */
  ghost predicate CanReturn(s: State, result: Next) { exists schedule :: Returns(s, schedule, result) }

  ghost predicate Returns(s: State, schedule: seq<Action>, result: Next) {
    SameCall(schedule) && Play(s, schedule).Some? && Play(s, schedule).value.pc == Returned(result)
  }

  /** A state from which the call in flight cannot get the context's error any more. */
  ghost predicate NoContextError(s: State) {
    && Valid(s) && s.done
    && !s.pc.Idle? && !s.pc.Waiting? && s.pc != Returned(ContextError)
    && (s.pc.Querying? ==> |s.delivered| < |s.log|)
  }

  lemma NoContextErrorStays(s: State, a: Action, s': State)
    requires NoContextError(s) && Step(s, a) == Some(s') && a != Call
    ensures NoContextError(s')
  {
    StepKeeps(s, a, s');
    AnswerIs(s);
    hide Valid, From;
  }

  lemma {:induction false} NoContextErrorEver(s: State, schedule: seq<Action>, s': State)
    requires NoContextError(s) && SameCall(schedule) && Play(s, schedule) == Some(s')
    ensures NoContextError(s')
    decreases |schedule|
  {
    hide Step, NoContextError;
    if schedule != [] {
      NoContextErrorStays(s, schedule[0], Step(s, schedule[0]).value);
      NoContextErrorEver(Step(s, schedule[0]).value, schedule[1..], s');
    }
  }

  /** A call in flight when Close has completed can answer the context's error exactly when it is waiting, or
      about to ask the store while everything in the log has been delivered. */
  lemma ContextErrorAfterCloseIff(s: State)
    requires Valid(s) && s.done && s.cancelled && InFlight(s)
    ensures CanReturn(s, ContextError) <==> s.pc.Waiting? || (s.pc.Querying? && |s.delivered| == |s.log|)
  {
    if s.pc.Waiting? {
      PlayTwo(s, Wake, Wake);
      assert Returns(s, [Wake], ContextError);
    } else if s.pc.Querying? && |s.delivered| == |s.log| {
      AnswerIs(s);
      PlayTwo(s, Proceed, Wake);
      assert Returns(s, [Proceed, Wake], ContextError);
    } else {
      assert NoContextError(s);
      forall schedule | Returns(s, schedule, ContextError) ensures false {
        NoContextErrorEver(s, schedule, Play(s, schedule).value);
      }
    }
  }

  /** A call that begins, or begins another round, when the stream is done returns io.EOF. */
  lemma {:induction false} OnlyEofFromCheck(s: State, schedule: seq<Action>, s': State)
    requires s.done && (s.pc.Checking? || s.pc == Returned(Eof))
    requires SameCall(schedule) && Play(s, schedule) == Some(s')
    ensures s'.pc.Checking? || s'.pc == Returned(Eof)
    decreases |schedule|
  {
    if schedule != [] { OnlyEofFromCheck(Step(s, schedule[0]).value, schedule[1..], s'); }
  }

  /** The promise that a closed stream answers io.EOF holds for a call in flight exactly when the call has not
      yet read done: from anywhere else it can answer something else. */
  lemma EofPromisedIff(s: State)
    requires Valid(s) && s.done && s.cancelled && InFlight(s)
    ensures (forall result :: CanReturn(s, result) ==> result == Eof) <==> s.pc.Checking?
  {
    match s.pc
    case Checking =>
      forall result | CanReturn(s, result) ensures result == Eof {
        var schedule :| Returns(s, schedule, result);
        OnlyEofFromCheck(s, schedule, Play(s, schedule).value);
      }
    case Querying =>
      PlayTwo(s, Fail(""), Wake);
      assert Returns(s, [Fail("")], StoreError(""));
      assert CanReturn(s, StoreError(""));
    case Delivering(e) =>
      PlayTwo(s, Proceed, Proceed);
      assert Returns(s, if IsTerminal(e) then [Proceed, Proceed] else [Proceed], Got(e));
      assert CanReturn(s, Got(e));
    case Noting(e) =>
      PlayTwo(s, Proceed, Proceed);
      assert Returns(s, [Proceed], Got(e));
      assert CanReturn(s, Got(e));
    case Waiting =>
      ContextErrorAfterCloseIff(s);
  }

  /** A call reads done, the stream is closed, the store has nothing: the call answers the context's error
      although the stream is closed. */
  lemma ClosedStreamCanAnswerContextError() returns (schedule: seq<Action>, s: State)
    ensures schedule == [Call, Proceed, Close, Proceed, Wake]
    ensures Play(Start([]), schedule) == Some(s) && s.done && s.pc == Returned(ContextError)
  {
    schedule := [Call, Proceed, Close, Proceed, Wake];
    var s1 := Start([]).(pc := Checking);
    var s2 := s1.(pc := Querying);
    var s3 := s2.(done := true, cancelled := true);
    var s4 := s3.(pc := Waiting);
    s := s4.(pc := Returned(ContextError));
    assert schedule[3..] == [Proceed, Wake] && schedule[2..][1..] == schedule[3..];
    PlayTwo(s3, Proceed, Wake);
    assert schedule[1..][1..] == schedule[2..];
    PlayStep(s2, schedule[2..]);
    PlayStep(s1, schedule[1..]);
    PlayStep(Start([]), schedule);
  }
}
