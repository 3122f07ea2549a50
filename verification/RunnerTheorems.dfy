/** What LiteRunner guarantees over whole runs, for every schedule. */
module RunnerTheorems {
  import opened Options
  import opened RunnerModel
  import opened RunnerInvariant
  import opened RunnerPreservation

  /** The state after a schedule that starts with no runs and no calls. */
  ghost predicate Reaches(schedule: seq<Action>, s: State) { Play(INITIAL, schedule) == Some(s) }

  lemma ReachableInv(schedule: seq<Action>, s: State)
    requires Reaches(schedule, s)
    ensures Inv(s)
  {
    InitialInv();
    PlayPreserves(INITIAL, schedule);
  }

  // ---------------------------------------------------------------- the shape of the log

  ghost predicate Interrupts(log: seq<Entry>, from: int, to: int) {
    forall k :: 0 <= k < |log| && from <= k < to ==> log[k].source.FromInterrupt?
  }

  ghost predicate NoRunner(log: seq<Entry>, from: int, to: int) {
    forall k :: 0 <= k < |log| && from <= k < to ==> !log[k].source.FromRunner?
  }

  /** run.started is entry i, and only interrupts come before it. */
  ghost predicate StartedAt(r: RunId, log: seq<Entry>, i: nat) {
    i < |log| && log[i] == Entry(FromRunner, StartedEvent(r)) && Interrupts(log, 0, i)
  }

  /** The terminal event is entry j, and only interrupts come after it. */
  ghost predicate EndedAt(log: seq<Entry>, i: nat, j: nat, terminal: Event) {
    && i < j < |log| && log[j] == Entry(FromRunner, terminal)
    && NoRunner(log, i + 1, j) && Interrupts(log, j + 1, |log|)
  }

  /** The automaton's phase, read back as positions in the log. */
  lemma {:induction false} PhaseMeaning(r: RunId, log: seq<Entry>) returns (i: nat, j: nat)
    ensures var p := PhaseOf(r, log);
            && (p.Before? ==> Interrupts(log, 0, |log|))
            && (p.During? ==> StartedAt(r, log, i) && NoRunner(log, i + 1, |log|))
            && (p.After? ==> StartedAt(r, log, i) && EndedAt(log, i, j, p.terminal) && |log| == j + 1 + p.late)
    decreases |log|
  {
    i, j := 0, 0;
    if log != [] {
      var n := |log| - 1;
      var init := log[..n];
      i, j := PhaseMeaning(r, init);
      assert forall k :: 0 <= k < n ==> log[k] == init[k];
      match PhaseOf(r, init) {
        case Before => i := n;
        case During => j := n;
        case After(_, _) =>
        case Malformed =>
      }
    }
  }

  /** In every interleaving: interrupts only; then run.started; then factory events and interrupts;
      then exactly one terminal event, which tells the recorded outcome; then at most one interrupt. */
  lemma LogShape(schedule: seq<Action>, s: State, r: RunId) returns (i: nat, j: nat)
    requires Reaches(schedule, s) && r in s.runs
    ensures var x := s.runs[r];
            && (x.exec.Starting? ==> Interrupts(x.accepted, 0, |x.accepted|))
            && (!x.exec.Starting? ==> StartedAt(r, x.accepted, i))
            && (!x.exec.Starting? && !AfterSend(x.exec) ==> NoRunner(x.accepted, i + 1, |x.accepted|))
            && (AfterSend(x.exec) ==>
                  && j < |x.accepted| && EndedAt(x.accepted, i, j, x.accepted[j].event)
                  && |x.accepted| <= j + 2)
    ensures var x := s.runs[r];
            && (!x.exec.Starting? ==> x.accepted[i].event == Event("run.started", "", r))
            && (AfterSend(x.exec) ==>
                  match x.status
                  case Running => false
                  case Completed => x.accepted[j].event == Event("run.completed", "", r) && x.err == ""
                  case Cancelled => x.accepted[j].event == Event("error", "run cancelled", r) && x.err == ""
                  case Failed => x.accepted[j].event == Event("error", x.err, r))
  {
    ReachableInv(schedule, s);
    assert RunInv(s, r);
    hide RunnerLockInv, CallInv, CancelOnce, ReplyOk, MuOk, StatusOk, ChannelOk, PhaseOf, Agrees;
    assert LogOk(s.runs[r], r, IsCommitted(Holder(s, r)));
    i, j := PhaseMeaning(r, s.runs[r].accepted);
    if AfterSend(s.runs[r].exec) { AgreesMeans(r, s.runs[r].status, s.runs[r].err, s.runs[r].accepted[j].event); }
  }

  lemma AgreesMeans(r: RunId, status: Status, err: string, terminal: Event)
    requires Agrees(r, status, err, terminal)
    ensures match status
            case Running => false
            case Completed => terminal == Event("run.completed", "", r) && err == ""
            case Cancelled => terminal == Event("error", "run cancelled", r) && err == ""
            case Failed => terminal == Event("error", err, r)
  {
  }

  // ---------------------------------------------------------------- the channel and the replies

  /** No step sends on a closed channel or closes it twice; what was delivered followed by what is
      buffered is what was accepted, in order; the buffer stays within its 64 slots. */
  lemma ChannelSafety(schedule: seq<Action>, s: State, r: RunId)
    requires Reaches(schedule, s) && r in s.runs
    ensures !s.runs[r].panicked
    ensures s.runs[r].accepted == s.runs[r].delivered + s.runs[r].buffer
    ensures |s.runs[r].buffer| <= 64
  {
    ReachableInv(schedule, s);
    assert RunInv(s, r);
  }

  /** An Interrupt that answered nil has put its event on the channel exactly once, and one that
      answered an error never did. */
  lemma InterruptReply(schedule: seq<Action>, s: State, c: CallId)
    requires Reaches(schedule, s) && c in s.calls && s.calls[c].InterruptDone?
    ensures s.calls[c].reply == Ok ==>
              && s.calls[c].run in s.runs
              && Posted(s.runs[s.calls[c].run].accepted, c) == [s.calls[c].event]
    ensures forall r :: r in s.runs && (s.calls[c].reply != Ok || r != s.calls[c].run) ==>
              Posted(s.runs[r].accepted, c) == []
  {
    ReachableInv(schedule, s);
    assert CallInv(s, c);
    forall r | r in s.runs ensures Posted(s.runs[r].accepted, c) == Claims(s, c, r) {
      assert RunInv(s, r);
      hide RunOk;
    }
  }

  /** At most one Cancel call of a run succeeds. */
  lemma CancelSucceedsOnce(schedule: seq<Action>, s: State, c: CallId, d: CallId)
    requires Reaches(schedule, s) && c in s.calls && d in s.calls
    requires s.calls[c].CancelDone? && s.calls[d].CancelDone? && s.calls[c].run == s.calls[d].run
    requires s.calls[c].reply == Ok && s.calls[d].reply == Ok
    ensures c == d
  {
    ReachableInv(schedule, s);
  }

  /** A Status answer with an end time is final: it is the recorded outcome, now and ever after.  One
      without an end time says "running" or "cancelled" and carries no error. */
  lemma StatusAnswer(schedule: seq<Action>, s: State, c: CallId)
    requires Reaches(schedule, s) && c in s.calls && s.calls[c].StatusDone? && s.calls[c].answer.Some?
    ensures s.calls[c].run in s.runs
    ensures var answer, x := s.calls[c].answer.value, s.runs[s.calls[c].run];
            && (answer.endedAt.Some? ==>
                  && answer.status == x.status && answer.endedAt == x.endedAt && answer.err == x.err
                  && answer.status != Running)
            && (answer.endedAt.None? ==>
                  (answer.status == Running || answer.status == Cancelled) && answer.err == "")
  {
    ReachableInv(schedule, s);
    assert CallInv(s, c);
    assert RunInv(s, s.calls[c].run);
    hide RunnerLockInv, CancelOnce, MuOk, ChannelOk, LogOk, ReplyOk;
  }

  // ---------------------------------------------------------------- what a run can only do forwards

  ghost function ExecRank(x: ExecPc): nat {
    match x
    case Sending(_) => 6
    case WantState => 5
    case Flagging => 4
    case Closing => 3
    case Releasing => 2
    case Exited => 1
    case _ => 7
  }

  /** Work left before the channel is closed and drained, not counting interrupts still to be refused. */
  ghost function Work(x: Run, committed: bool): nat {
    2 * ExecRank(x.exec) + |x.buffer| + (if committed then 2 else 0)
  }

  ghost predicate Trend(x: Run, committed: bool, x': Run, committed': bool) {
    && (x.status != Running ==> x'.status != Running)
    && (x.endedAt.Some? ==> x'.endedAt == x.endedAt)
    && x.accepted <= x'.accepted && x.delivered <= x'.delivered
    && (PastRecord(x.exec) ==>
          && PastRecord(x'.exec) && Snapshot(x') == Snapshot(x)
          && Work(x', committed') <= Work(x, committed) && (committed' ==> committed))
    && (AfterSend(x.exec) ==> AfterSend(x'.exec) && (!committed ==> x'.accepted == x.accepted))
  }

  lemma TrendTransitive(x: Run, k: bool, x': Run, k': bool, x'': Run, k'': bool)
    requires Trend(x, k, x', k') && Trend(x', k', x'', k'')
    ensures Trend(x, k, x'', k'')
  {
    hide Work;
  }

  lemma ExecuteTrend(x: Run, r: RunId, now: int, x': Run, k: bool, firing: bool)
    requires StatusOk(x, r, firing) && ChannelOk(x) && ExecuteRun(x, r, now) == Some(x')
    ensures Trend(x, k, x', k)
  {
    match x.exec
    case Starting =>
    case WantRunner(_) =>
    case Recording(_) =>
    case Ended(_) =>
    case Failing(_) =>
    case Unlocking(_) =>
    case Sending(_) =>
    case WantState =>
    case Flagging =>
    case Closing =>
    case Releasing =>
  }

  lemma EnvironmentTrend(x: Run, a: Action, x': Run, k: bool)
    requires ChannelOk(x) && EnvironmentRun(x, a) == Some(x')
    ensures Trend(x, k, x', k)
  {
  }

  lemma InterruptTrend(x: Run, r: RunId, c: CallId, call: Call, m: Move, holder: Option<Call>, firing: bool)
    requires MuOk(x, r, holder) && StatusOk(x, r, firing) && ChannelOk(x) && CallOk(call, c, x)
    requires InterruptMove(x, c, call) == Some(m)
    requires CallHoldsState(call) ==> holder == Some(call)
    ensures Trend(x, IsCommitted(holder), m.run, IsCommitted(HolderAfter(m)))
  {
  }

  lemma CancelTrend(x: Run, r: RunId, call: Call, m: Move, k: bool, firing: bool)
    requires StatusOk(x, r, firing) && !ExecHoldsRunner(x.exec) && CallOk(call, 0, x)
    requires CancelMove(x, call) == Some(m)
    ensures Trend(x, k, m.run, k)
  {
  }

  /** Every step moves every run forwards. */
  lemma StepTrend(s: State, a: Action, s': State, r: RunId)
    requires Inv(s) && Step(s, a) == Some(s') && r in s.runs
    ensures r in s'.runs
    ensures Trend(s.runs[r], IsCommitted(Holder(s, r)), s'.runs[r], IsCommitted(Holder(s', r)))
  {
    assert RunInv(s, r);
    match a
    case Execute(q, now) => ExecuteStepTrend(s, q, now, s', r);
    case Advance(c) => CallStepTrend(s, c, s', r);
    case Invoke(_, _) =>
      hide Inv, RunInv, Trend;
      StandStill(s, s', r);
    case _ =>
      hide RunnerLockInv, CallInv, CancelOnce, Trend;
      EnvironmentStepTrend(s, a, s', r);
  }

  lemma StandStill(s: State, s': State, r: RunId)
    requires r in s.runs && r in s'.runs && s'.runs[r] == s.runs[r]
    requires IsCommitted(Holder(s', r)) == IsCommitted(Holder(s, r))
    ensures Trend(s.runs[r], IsCommitted(Holder(s, r)), s'.runs[r], IsCommitted(Holder(s', r)))
  {
    hide Holder, IsCommitted, Work;
  }

  lemma EnvironmentStepTrend(s: State, a: Action, s': State, r: RunId)
    requires r in s.runs && RunInv(s, r) && Step(s, a) == Some(s')
    requires !a.Invoke? && !a.Advance? && !a.Execute?
    ensures r in s'.runs
    ensures Trend(s.runs[r], IsCommitted(Holder(s, r)), s'.runs[r], IsCommitted(Holder(s', r)))
  {
    assert IsCommitted(Holder(s', r)) == IsCommitted(Holder(s, r)) && r in s'.runs by {
      hide MuOk, StatusOk, ChannelOk, LogOk, ReplyOk;
    }
    if a.run == r {
      EnvironmentTrend(s.runs[r], a, s'.runs[r], IsCommitted(Holder(s, r)));
    } else {
      StandStill(s, s', r);
    }
    hide RunInv, Trend, EnvironmentRun;
  }

  lemma ExecuteStepTrend(s: State, q: RunId, now: int, s': State, r: RunId)
    requires Inv(s) && q in s.runs && ExecuteStep(s, q, now) == Some(s') && r in s.runs
    ensures r in s'.runs
    ensures Trend(s.runs[r], IsCommitted(Holder(s, r)), s'.runs[r], IsCommitted(Holder(s', r)))
  {
    hide RunnerLockInv, CallInv, CancelOnce, Trend;
    assert RunInv(s, r);
    if q == r {
      var x := s.runs[r];
      ExecuteTrend(x, r, now, s'.runs[r], IsCommitted(Holder(s, r)), IsFiring(s, r));
      ExecuteMuOk(x, r, now, s'.runs[r], Holder(s, r));
      ExecuteEffects(x, r, now, s'.runs[r]);
      hide ExecuteRun, StatusOk, ChannelOk, LogOk, ReplyOk;
      assert IsCommitted(Holder(s', r)) == IsCommitted(Holder(s, r));
    } else {
      hide ExecuteRun, RunInv;
      StandStill(s, s', r);
    }
  }

  /** A step of call c either leaves run r alone or is a step under one of the two locks. */
  lemma CallStepTrend(s: State, c: CallId, s': State, r: RunId)
    requires Inv(s) && Step(s, Advance(c)) == Some(s') && r in s.runs
    ensures r in s'.runs
    ensures Trend(s.runs[r], IsCommitted(Holder(s, r)), s'.runs[r], IsCommitted(Holder(s', r)))
  {
    var call := s.calls[c];
    assert RunInv(s, r) && CallInv(s, c);
    var byInterrupt := call.run == r && InterruptMove(s.runs[r], c, call).Some?;
    var byCancel := call.run == r && CancelMove(s.runs[r], call).Some?;
    if byInterrupt {
      InterruptStepTrend(s, c, s');
    } else if byCancel {
      CancelStepTrend(s, c, s');
    } else {
      OtherStepTrend(s, c, s', r);
    }
  }

  lemma OtherStepTrend(s: State, c: CallId, s': State, r: RunId)
    requires Step(s, Advance(c)) == Some(s') && r in s.runs && c in s.calls && RunInv(s, r)
    requires s.calls[c].run == r ==>
               InterruptMove(s.runs[r], c, s.calls[c]).None? && CancelMove(s.runs[r], s.calls[c]).None?
    ensures r in s'.runs
    ensures Trend(s.runs[r], IsCommitted(Holder(s, r)), s'.runs[r], IsCommitted(Holder(s', r)))
  {
    assert MuOk(s.runs[r], r, Holder(s, r));
    hide StatusOk, ChannelOk, LogOk, ReplyOk, Trend, ExecHoldsState;
    assert r in s'.runs && s'.runs[r] == s.runs[r];
    assert IsCommitted(Holder(s', r)) == IsCommitted(Holder(s, r));
    StandStill(s, s', r);
  }

  lemma InterruptStepTrend(s: State, c: CallId, s': State)
    requires Inv(s) && Step(s, Advance(c)) == Some(s') && c in s.calls && s.calls[c].run in s.runs
    requires InterruptMove(s.runs[s.calls[c].run], c, s.calls[c]).Some?
    ensures var r := s.calls[c].run;
            && r in s'.runs
            && Trend(s.runs[r], IsCommitted(Holder(s, r)), s'.runs[r], IsCommitted(Holder(s', r)))
  {
    var call, r := s.calls[c], s.calls[c].run;
    var x, holder := s.runs[r], Holder(s, r);
    var m := InterruptMove(x, c, call).value;
    assert RunInv(s, r) && CallInv(s, c);
    hide RunnerLockInv, CancelOnce, LogOk, ReplyOk, Trend, Inv;
    InterruptHolder(x, r, c, call, m, holder);
    assert s' == SetRun(SetCall(s, c, m.call), r, m.run) by { hide RunInv, CallInv, InterruptMove; }
    hide Step;
    assert CallOk(call, c, x);
    assert CallHoldsState(call) ==> holder == Some(call) by { hide RunInv, InterruptMove; }
    InterruptTrend(x, r, c, call, m, holder, IsFiring(s, r));
    assert Holder(s', r) == HolderAfter(m) by { hide RunInv, CallInv, InterruptMove; }
  }

  lemma CancelStepTrend(s: State, c: CallId, s': State)
    requires Inv(s) && Step(s, Advance(c)) == Some(s') && c in s.calls && s.calls[c].run in s.runs
    requires CancelMove(s.runs[s.calls[c].run], s.calls[c]).Some?
    ensures var r := s.calls[c].run;
            && r in s'.runs
            && Trend(s.runs[r], IsCommitted(Holder(s, r)), s'.runs[r], IsCommitted(Holder(s', r)))
  {
    var call, r := s.calls[c], s.calls[c].run;
    var x, holder := s.runs[r], Holder(s, r);
    var m := CancelMove(x, call).value;
    assert RunInv(s, r) && CallInv(s, c);
    CancelMoveLock(x, call);
    CancelCallOk(x, c, call, m);
    assert !ExecHoldsRunner(x.exec) && s.writer == Some(Caller(c));
    hide RunnerLockInv, CancelOnce, LogOk, ReplyOk, Trend, ExecHoldsRunner;
    assert s' == SetRun(SetCall(s, c, m.call), r, m.run) by { hide RunInv, CallInv, CancelMove; }
    assert NeedsRun(call) ==> CallOk(call, 0, x);
    assert CallOk(call, 0, x);
    CancelTrend(x, r, call, m, IsCommitted(holder), IsFiring(s, r));
    assert m.run.mu == x.mu by { hide RunInv, CallInv; }
    assert MuOk(x, r, holder);
    assert Holder(s', r) == holder by { hide StatusOk, ChannelOk, CancelMove, CallOk; }
  }

  ghost predicate Moves(s: State, s': State, r: RunId) {
    && r in s.runs && r in s'.runs
    && Trend(s.runs[r], IsCommitted(Holder(s, r)), s'.runs[r], IsCommitted(Holder(s', r)))
  }

  lemma {:induction false} PlayTrend(s: State, schedule: seq<Action>, s': State, r: RunId)
    requires Inv(s) && Play(s, schedule) == Some(s') && r in s.runs
    ensures Moves(s, s', r)
    decreases |schedule|
  {
    hide Inv, Step, Trend, Holder, IsCommitted;
    if schedule == [] {
      StandStill(s, s', r);
    } else {
      var t := Step(s, schedule[0]).value;
      StepTrend(s, schedule[0], t, r);
      StepPreserves(s, schedule[0], t);
      PlayTrend(t, schedule[1..], s', r);
      TrendTransitive(s.runs[r], IsCommitted(Holder(s, r)), t.runs[r], IsCommitted(Holder(t, r)),
                      s'.runs[r], IsCommitted(Holder(s', r)));
    }
  }

  /** Runs are never removed; a status never returns to "running"; the end time is written once; and
      from the moment the outcome is published status, end time and error stay as they are. */
  lemma StatusOnlyMovesForward(schedule: seq<Action>, s: State, more: seq<Action>, s': State, r: RunId)
    requires Reaches(schedule, s) && r in s.runs && Play(s, more) == Some(s')
    ensures r in s'.runs
    ensures s.runs[r].status != Running ==> s'.runs[r].status != Running
    ensures s.runs[r].endedAt.Some? ==> s'.runs[r].endedAt == s.runs[r].endedAt
    ensures PastRecord(s.runs[r].exec) ==> Snapshot(s'.runs[r]) == Snapshot(s.runs[r])
  {
    ReachableInv(schedule, s);
    hide Inv;
    PlayTrend(s, more, s', r);
  }

  // ---------------------------------------------------------------- events behind the terminal event

  /** Lets the consumer make room if it must, then lets the committed interrupt send. */
  ghost function LateSchedule(s: State, r: RunId): seq<Action>
    requires r in s.runs && s.runs[r].mu.Some? && s.runs[r].mu.value.Caller?
  {
    (if HasRoom(s.runs[r]) then [] else [Receive(r)]) + [Advance(s.runs[r].mu.value.call)]
  }

  lemma CommittedCanSend(s: State, r: RunId, c: CallId)
    requires Inv(s) && r in s.runs && s.runs[r].mu == Some(Caller(c))
    requires c in s.calls && s.calls[c].InterruptCommitted? && s.calls[c].run == r && HasRoom(s.runs[r])
    ensures Step(s, Advance(c)).Some?
    ensures r in Step(s, Advance(c)).value.runs
    ensures Step(s, Advance(c)).value.runs[r].accepted ==
            s.runs[r].accepted + [Entry(FromInterrupt(c), s.calls[c].event)]
  {
    assert CallInv(s, c) && RunInv(s, r);
    hide RunnerLockInv, CancelOnce, LogOk, ReplyOk, StatusOk, MuOk;
  }

  lemma LateScheduleWorks(s: State, r: RunId) returns (s': State)
    requires Inv(s) && r in s.runs && IsCommitted(Holder(s, r))
    ensures Play(s, LateSchedule(s, r)) == Some(s') && r in s'.runs
    ensures s'.runs[r].accepted != s.runs[r].accepted
  {
    var c := s.runs[r].mu.value.call;
    assert s.calls[c].run == r by { assert RunInv(s, r); }
    if HasRoom(s.runs[r]) {
      CommittedCanSend(s, r, c);
      hide Step, Inv;
      assert LateSchedule(s, r) == [Advance(c)];
      s' := Step(s, Advance(c)).value;
      assert Play(s', []) == Some(s');
    } else {
      var t := RoomIsMade(s, r);
      CommittedCanSend(t, r, c);
      hide Step, Inv;
      s' := Step(t, Advance(c)).value;
      assert LateSchedule(s, r)[1..] == [Advance(c)];
      assert Play(s', []) == Some(s') && Play(t, [Advance(c)]) == Some(s');
    }
  }

  /** On a full channel the consumer can make room. */
  lemma RoomIsMade(s: State, r: RunId) returns (t: State)
    requires Inv(s) && r in s.runs && !HasRoom(s.runs[r])
    ensures Step(s, Receive(r)) == Some(t) && Inv(t) && t.calls == s.calls && r in t.runs
    ensures t.runs[r].mu == s.runs[r].mu && t.runs[r].accepted == s.runs[r].accepted && HasRoom(t.runs[r])
  {
    assert ChannelOk(s.runs[r]) by { assert RunInv(s, r); }
    hide Inv;
    t := Step(s, Receive(r)).value;
    StepPreserves(s, Receive(r), t);
  }

  ghost predicate LogGrows(s: State, r: RunId, more: seq<Action>)
    requires r in s.runs
  {
    var s' := Play(s, more);
    s'.Some? && r in s'.value.runs && s'.value.runs[r].accepted != s.runs[r].accepted
  }

  /** Behind the terminal event the log can still grow exactly when an Interrupt holds rs.mu having
      read status "running" before the outcome was recorded. */
  lemma LateEventIff(s: State, r: RunId)
    requires Inv(s) && r in s.runs && AfterSend(s.runs[r].exec)
    ensures (exists more :: LogGrows(s, r, more)) <==> IsCommitted(Holder(s, r))
  {
    if IsCommitted(Holder(s, r)) {
      var s' := LateScheduleWorks(s, r);
      assert LogGrows(s, r, LateSchedule(s, r));
    } else {
      forall more | LogGrows(s, r, more) ensures false {
        PlayTrend(s, more, Play(s, more).value, r);
      }
    }
  }

  // ---------------------------------------------------------------- the recorded outcome

  /** The status executeRun settles on, from the factory's error, the status and the context it finds. */
  ghost function Outcome(result: Option<string>, status: Status, context: Context): Status {
    if result.None? then Completed
    else if status == Cancelled && context == Canceled then Cancelled
    else Failed
  }

  /** The text kept with that status: the factory's, if the run failed. */
  ghost function ErrorText(result: Option<string>, status: Status, context: Context): string {
    if Outcome(result, status, context) == Failed && result.Some? then result.value else ""
  }

  /** The outcome is on its way to `o`, with the text `text`. */
  ghost predicate Decides(x: Run, o: Status, text: string) {
    match x.exec
    case Recording(result) => o == Outcome(result, x.status, x.context) && text == ErrorText(result, x.status, x.context)
    case Ended(result) => o == Outcome(result, x.status, x.context) && text == ErrorText(result, x.status, x.context)
    case Failing(message) => o == Failed && text == message
    case Unlocking(_) => o == x.status && text == x.err
    case _ => PastRecord(x.exec) && o == x.status && text == x.err
  }

  lemma ExecuteDecides(x: Run, r: RunId, now: int, x': Run, o: Status, text: string)
    requires Decides(x, o, text) && ExecuteRun(x, r, now) == Some(x')
    requires x.exec.Failing? ==> x.status == Failed
    requires x.exec.Recording? || x.exec.Ended? ==> x.err == ""
    ensures Decides(x', o, text)
  {
    hide Put, CloseChannel, HasRoom;
    if PastRecord(x.exec) || x.exec.Unlocking? {
      AfterRecordKeeps(x, r, now, x');
      hide ExecuteRun, Outcome, ErrorText;
    } else {
      match x.exec
      case Recording(_) =>
      case Ended(_) =>
      case Failing(_) =>
    }
  }

  lemma AfterRecordKeeps(x: Run, r: RunId, now: int, x': Run)
    requires (PastRecord(x.exec) || x.exec.Unlocking?) && ExecuteRun(x, r, now) == Some(x')
    ensures PastRecord(x'.exec) && x'.status == x.status && x'.err == x.err
  {
  }

  lemma EnvironmentDecides(x: Run, a: Action, x': Run, o: Status, text: string)
    requires Decides(x, o, text) && EnvironmentRun(x, a) == Some(x')
    requires x.status == Cancelled ==> x.context != Active || !ExecHoldsRunner(x.exec)
    ensures Decides(x', o, text)
  {
  }

  lemma CallDecides(x: Run, x': Run, o: Status, text: string)
    requires Decides(x, o, text) && x'.exec == x.exec
    requires ExecHoldsRunner(x.exec) ==> x'.status == x.status && x'.context == x.context && x'.err == x.err
    requires PastRecord(x.exec) ==> x'.status == x.status && x'.err == x.err
    ensures Decides(x', o, text)
  {
  }

  lemma StepDecides(s: State, a: Action, s': State, r: RunId, o: Status, text: string)
    requires Inv(s) && Step(s, a) == Some(s') && r in s.runs && Decides(s.runs[r], o, text)
    ensures r in s'.runs && Decides(s'.runs[r], o, text)
  {
    var x := s.runs[r];
    RecordFacts(s, r);
    hide Inv, Decides, ExecuteRun, ExecuteStep, EnvironmentRun, CallStep;
    match a
    case Invoke(_, _) =>
    case Execute(q, now) =>
      ExecuteStepRun(s, q, now, s', r);
      if q == r { ExecuteDecides(x, r, now, s'.runs[r], o, text); }
    case Advance(c) =>
      StepTrend(s, a, s', r);
      CallStepKeeps(s, c, s', r);
      CallDecides(x, s'.runs[r], o, text);
    case _ =>
      if a.run == r { EnvironmentDecides(x, a, s'.runs[r], o, text); }
  }

  lemma ExecuteStepRun(s: State, q: RunId, now: int, s': State, r: RunId)
    requires q in s.runs && ExecuteStep(s, q, now) == Some(s') && r in s.runs
    ensures r in s'.runs && (q != r ==> s'.runs[r] == s.runs[r])
    ensures q == r ==> ExecuteRun(s.runs[r], r, now) == Some(s'.runs[r])
  {
    hide ExecuteRun;
  }

  lemma RecordFacts(s: State, r: RunId)
    requires Inv(s) && r in s.runs
    ensures s.runs[r].exec.Failing? ==> s.runs[r].status == Failed
    ensures s.runs[r].exec.Recording? || s.runs[r].exec.Ended? ==> s.runs[r].err == ""
    ensures s.runs[r].status == Cancelled ==> s.runs[r].context != Active || !ExecHoldsRunner(s.runs[r].exec)
  {
    assert RunInv(s, r);
    hide CallInv, CancelOnce, MuOk, ChannelOk, LogOk, ReplyOk;
  }

  /** No API call touches the fields executeRun is deciding on while executeRun holds r.mu. */
  lemma CallStepKeeps(s: State, c: CallId, s': State, r: RunId)
    requires Inv(s) && Step(s, Advance(c)) == Some(s') && r in s.runs && r in s'.runs
    ensures s'.runs[r].exec == s.runs[r].exec
    ensures ExecHoldsRunner(s.runs[r].exec) ==>
              s'.runs[r].status == s.runs[r].status && s'.runs[r].context == s.runs[r].context
              && s'.runs[r].err == s.runs[r].err
  {
    var x, call := s.runs[r], s.calls[c];
    CallStepRun(s, c, s', r);
    InterruptKeeps(x, c, call);
    CancelMoveLock(x, call);
    hide Step, RunInv, CallInv, CancelOnce, InterruptMove, CancelMove, CallReads;
  }

  /** A step of call c leaves run r alone unless it works on r under rs.mu or under r.mu. */
  lemma CallStepRun(s: State, c: CallId, s': State, r: RunId)
    requires Step(s, Advance(c)) == Some(s') && r in s.runs && c in s.calls
    ensures var x, call := s.runs[r], s.calls[c];
            && r in s'.runs
            && (|| s'.runs[r] == x
                || (InterruptMove(x, c, call).Some? && s'.runs[r] == InterruptMove(x, c, call).value.run)
                || (CancelMove(x, call).Some? && s'.runs[r] == CancelMove(x, call).value.run))
  {
    hide InterruptMove, CancelMove;
  }

  lemma InterruptKeeps(x: Run, c: CallId, call: Call)
    ensures InterruptMove(x, c, call).Some? ==>
              var x' := InterruptMove(x, c, call).value.run;
              x'.exec == x.exec && x'.status == x.status && x'.context == x.context && x'.err == x.err
  {
  }

  /** Once executeRun holds r.mu the outcome is determined by the factory's result, the status and the
      context it then finds, whatever the other goroutines do: a factory that returned nil completes
      even a cancelled run, and a factory error ends a cancelled run as cancelled exactly when the
      context was ended by a cancellation and not by a deadline. */
  lemma {:induction false} OutcomeDetermined(
    s: State, more: seq<Action>, s': State, r: RunId, o: Status, text: string)
    requires Inv(s) && r in s.runs && Decides(s.runs[r], o, text) && Play(s, more) == Some(s')
    ensures r in s'.runs && Decides(s'.runs[r], o, text)
    decreases |more|
  {
    hide Inv, Step, Decides;
    if more != [] {
      var t := Step(s, more[0]).value;
      StepDecides(s, more[0], t, r, o, text);
      StepPreserves(s, more[0], t);
      OutcomeDetermined(t, more[1..], s', r, o, text);
    }
  }

  /** The three outcomes: a nil result completes the run; an error of a run that was cancelled by a
      cancellation ends it as cancelled; any other error fails it and is kept word for word. */
  lemma FinalStatus(schedule: seq<Action>, s: State, more: seq<Action>, s': State, r: RunId)
    requires Reaches(schedule, s) && r in s.runs && s.runs[r].exec.Recording? && Play(s, more) == Some(s')
    ensures r in s'.runs
    ensures PastRecord(s'.runs[r].exec) ==>
              var x, x', result := s.runs[r], s'.runs[r], s.runs[r].exec.result;
              if result.None? then x'.status == Completed && x'.err == ""
              else if x.status == Cancelled && x.context == Canceled then x'.status == Cancelled && x'.err == ""
              else x'.status == Failed && x'.err == result.value
    ensures s.runs[r].status == Cancelled ==> s.runs[r].context != Active
    ensures forall c :: c in s.calls && HasCancelled(s.calls[c]) && s.calls[c].run == r ==>
              s.runs[r].status == Cancelled
  {
    ReachableInv(schedule, s);
    assert RunInv(s, r);
    forall c | c in s.calls && HasCancelled(s.calls[c]) && s.calls[c].run == r
      ensures s.runs[r].status == Cancelled
    {
      assert CallInv(s, c);
    }
    assert !IsFiring(s, r);
    hide Inv, RunInv;
    var x := s.runs[r];
    OutcomeDetermined(s, more, s', r, Outcome(x.exec.result, x.status, x.context),
                      ErrorText(x.exec.result, x.status, x.context));
  }

  /** What the consumer gets to see in the end: behind whatever the factory returned, the one terminal event
      with the run's ID says how the run ended, word for word. */
  lemma TerminalEventTells(schedule: seq<Action>, s: State, more: seq<Action>, s': State, r: RunId)
    returns (j: nat)
    requires Reaches(schedule, s) && r in s.runs && s.runs[r].exec.Recording? && Play(s, more) == Some(s')
    requires r in s'.runs && AfterSend(s'.runs[r].exec)
    ensures var x, log, result := s.runs[r], s'.runs[r].accepted, s.runs[r].exec.result;
            && j < |log| && log[j].source == FromRunner
            && log[j].event ==
               if result.None? then Event("run.completed", "", r)
               else if x.status == Cancelled && x.context == Canceled then Event("error", "run cancelled", r)
               else Event("error", result.value, r)
  {
    PlayAppend(INITIAL, schedule, more);
    FinalStatus(schedule, s, more, s', r);
    var i;
    i, j := LogShape(schedule + more, s', r);
  }
}
