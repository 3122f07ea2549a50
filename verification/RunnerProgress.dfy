/** Progress of the run protocol: nobody waits for a lock whose holder is stuck, and a run whose
    outcome is recorded can always be driven to a closed and drained channel. */
module RunnerProgress {
  import opened Options
  import opened RunnerModel
  import opened RunnerInvariant
  import opened RunnerPreservation
  import opened RunnerTheorems

  // ---------------------------------------------------------------- lock holders are never blocked

  lemma ExecutorMoves(x: Run, r: RunId, now: int)
    requires ExecHoldsRunner(x.exec) || ExecHoldsState(x.exec)
    ensures ExecuteRun(x, r, now).Some? && !x.exec.WantRunner?
  {
  }

  lemma CallerMoves(s: State, c: CallId)
    requires c in s.calls && CallInv(s, c)
    requires CallWrites(s.calls[c]) || CallReads(s.calls[c]) || CallHoldsState(s.calls[c])
    ensures Step(s, Advance(c)).Some?
  {
    hide CallOk;
  }

  /** The next step of the goroutine that owns a lock. */
  ghost function MoveOf(owner: Owner): Action {
    match owner
    case Executor(r) => Execute(r, 0)
    case Caller(c) => Advance(c)
  }

  /** Whoever holds r.mu, be it the writer or any of the readers, has an enabled step: nobody waits for a
      second lock or for the channel while holding it. */
  lemma RunnerLockHolderMoves(s: State)
    requires Inv(s)
    ensures s.writer.Some? ==> Step(s, MoveOf(s.writer.value)).Some?
    ensures forall c :: c in s.readers ==> Step(s, Advance(c)).Some?
  {
    hide RunInv, CancelOnce, CallInv, CallStep, ExecuteRun, ExecHoldsRunner, CallWrites, CallReads;
    if s.writer.Some? {
      match s.writer.value {
        case Executor(r) => ExecutorMoves(s.runs[r], r, 0);
        case Caller(c) =>
          assert CallInv(s, c);
          CallerMoves(s, c);
      }
    }
    forall c | c in s.readers ensures Step(s, Advance(c)).Some? {
      assert CallInv(s, c);
      CallerMoves(s, c);
    }
  }

  /** Whoever holds rs.mu of a run has an enabled step. */
  lemma StateLockHolderMoves(s: State, r: RunId)
    requires Inv(s) && r in s.runs && s.runs[r].mu.Some?
    ensures Step(s, MoveOf(s.runs[r].mu.value)).Some?
    ensures s.runs[r].mu.value.Executor? ==> s.runs[r].mu.value.run == r
  {
    assert RunInv(s, r);
    hide RunnerLockInv, CallInv, CancelOnce, StatusOk, ChannelOk, LogOk, ReplyOk, CallStep, ExecuteRun;
    if s.runs[r].mu.value.Caller? {
      assert CallInv(s, s.runs[r].mu.value.call);
      CallerMoves(s, s.runs[r].mu.value.call);
    } else {
      ExecutorMoves(s.runs[r], r, 0);
    }
  }

  ghost predicate IsDone(c: Call) { c.DispatchDone? || c.InterruptDone? || c.CancelDone? || c.StatusDone? }

  ghost function Writers(s: State): set<Owner> { if s.writer.Some? then {s.writer.value} else {} }

  ghost function Readers(s: State): set<Owner> { set c | c in s.readers :: Caller(c) }

  ghost function StateOwners(s: State, r: RunId): set<Owner> {
    if r in s.runs && s.runs[r].mu.Some? then {s.runs[r].mu.value} else {}
  }

  /** The goroutines that hold the lock a call's next step needs. */
  ghost function BlockersOfCall(s: State, c: CallId): set<Owner>
    requires c in s.calls
  {
    match s.calls[c]
    case DispatchWant(_) => Writers(s) + Readers(s)
    case CancelWant(_) => Writers(s) + Readers(s)
    case InterruptWantRunner(_, _) => Writers(s)
    case StatusWant(_) => Writers(s)
    case InterruptWant(r, _) => StateOwners(s, r)
    case _ => {}
  }

  /** The same for an executor. */
  ghost function BlockersOfExecutor(s: State, r: RunId): set<Owner>
    requires r in s.runs
  {
    match s.runs[r].exec
    case WantRunner(_) => Writers(s) + Readers(s)
    case WantState => StateOwners(s, r)
    case _ => {}
  }

  lemma OwnersMove(s: State, owner: Owner)
    requires Inv(s)
    requires owner in Writers(s) + Readers(s) || exists r :: owner in StateOwners(s, r)
    ensures Step(s, MoveOf(owner)).Some?
  {
    RunnerLockHolderMoves(s);
    hide Inv, Step;
    if r :| owner in StateOwners(s, r) { StateLockHolderMoves(s, r); }
  }

  /** No deadlock among API calls: a call that has not returned can take its next step exactly when nobody
      holds the lock the step needs, and everyone who holds it can take a step.  A full or an empty channel
      never blocks a call. */
  lemma CallsNeverDeadlock(schedule: seq<Action>, s: State, c: CallId)
    requires Reaches(schedule, s) && c in s.calls && !IsDone(s.calls[c])
    ensures Step(s, Advance(c)).Some? <==> BlockersOfCall(s, c) == {}
    ensures forall owner :: owner in BlockersOfCall(s, c) ==> Step(s, MoveOf(owner)).Some?
  {
    ReachableInv(schedule, s);
    CallBlockedIff(s, c);
    hide Inv, Step, Writers, Readers, StateOwners;
    forall owner | owner in BlockersOfCall(s, c) ensures Step(s, MoveOf(owner)).Some? {
      OwnersMove(s, owner);
    }
  }

  lemma NoReaders(s: State)
    ensures Readers(s) == {} <==> s.readers == {}
  {
    if c :| c in s.readers { assert Caller(c) in Readers(s); }
  }

  lemma MoveEnabled(x: Run, c: CallId, call: Call)
    ensures call.InterruptWant? ==> (InterruptMove(x, c, call).Some? <==> x.mu.None?)
    ensures CallHoldsState(call) ==> InterruptMove(x, c, call).Some?
    ensures call.CancelHold? || call.CancelMark? || call.CancelFire? ==> CancelMove(x, call).Some?
  {
  }

  lemma CallBlockedIff(s: State, c: CallId)
    requires Inv(s) && c in s.calls && !IsDone(s.calls[c])
    ensures Step(s, Advance(c)).Some? <==> BlockersOfCall(s, c) == {}
  {
    assert NeedsRun(s.calls[c]) ==> s.calls[c].run in s.runs by {
      assert CallInv(s, c);
      hide CallOk;
    }
    NoReaders(s);
    hide Inv, Readers, InterruptMove, CancelMove, Snapshot;
    if s.calls[c].run in s.runs { MoveEnabled(s.runs[s.calls[c].run], c, s.calls[c]); }
  }

  /** Nor among executors: outside the factory, an executor that has not exited can take its next step
      exactly when nobody holds the lock it needs and the channel has room for the event it sends; who holds
      the lock can take a step, and on a full channel the consumer can. */
  lemma ExecutorsNeverDeadlock(schedule: seq<Action>, s: State, r: RunId)
    requires Reaches(schedule, s) && r in s.runs && !s.runs[r].exec.InFactory? && !s.runs[r].exec.Exited?
    ensures var x := s.runs[r];
            var full := (x.exec.Starting? || x.exec.Sending?) && |x.buffer| == 64;
            && (Step(s, Execute(r, 0)).Some? <==> BlockersOfExecutor(s, r) == {} && !full)
            && (full ==> Step(s, Receive(r)).Some?)
    ensures forall owner :: owner in BlockersOfExecutor(s, r) ==> Step(s, MoveOf(owner)).Some?
  {
    ReachableInv(schedule, s);
    ExecutorBlockedIff(s, r);
    hide Inv, Step, Writers, Readers, StateOwners;
    forall owner | owner in BlockersOfExecutor(s, r) ensures Step(s, MoveOf(owner)).Some? {
      OwnersMove(s, owner);
    }
  }

  lemma ExecutorBlockedIff(s: State, r: RunId)
    requires Inv(s) && r in s.runs && !s.runs[r].exec.InFactory? && !s.runs[r].exec.Exited?
    ensures var x := s.runs[r];
            var full := (x.exec.Starting? || x.exec.Sending?) && |x.buffer| == CAPACITY;
            && (Step(s, Execute(r, 0)).Some? <==> BlockersOfExecutor(s, r) == {} && !full)
            && (full ==> Step(s, Receive(r)).Some?)
  {
    assert RunInv(s, r);
    NoReaders(s);
    hide RunnerLockInv, CallInv, CancelOnce, MuOk, StatusOk, LogOk, ReplyOk, Readers;
  }

  // ---------------------------------------------------------------- draining a finished run

  /** Steps the holder of rs.mu still has to take before it lets go. */
  ghost function HoldRank(holder: Option<Call>): nat {
    if holder.None? then 0
    else match holder.value
      case InterruptHold(_, _) => 4
      case InterruptOpen(_, _) => 3
      case InterruptCommitted(_, _) => 2
      case InterruptUnlock(_, _, _) => 1
      case _ => 0
  }

  ghost function Measure(s: State, r: RunId): nat
    requires r in s.runs
  {
    Work(s.runs[r], IsCommitted(Holder(s, r))) + HoldRank(Holder(s, r))
  }

  ghost predicate IsDrained(x: Run) { x.exec.Exited? && x.buffer == [] }

  /** The step of executor, lock holder or consumer that brings run r nearer to its end. */
  ghost function Helpful(s: State, r: RunId): Action
    requires r in s.runs
  {
    var x := s.runs[r];
    match x.exec
    case Sending(_) => if HasRoom(x) then Execute(r, 0) else Receive(r)
    case WantState =>
      if x.mu.Some? && x.mu.value.Caller? then Advance(x.mu.value.call) else Execute(r, 0)
    case Exited => Receive(r)
    case _ => Execute(r, 0)
  }

  lemma HelpfulExecute(s: State, r: RunId, s': State)
    requires Inv(s) && r in s.runs && PastRecord(s.runs[r].exec) && ExecuteStep(s, r, 0) == Some(s')
    ensures r in s'.runs && PastRecord(s'.runs[r].exec) && Measure(s', r) < Measure(s, r)
  {
    var x := s.runs[r];
    assert RunInv(s, r);
    ExecuteMuOk(x, r, 0, s'.runs[r], Holder(s, r));
    assert ChannelOk(x);
    hide RunnerLockInv, RunInv, CallInv, CancelOnce;
    ExecuteLowersWork(x, r, 0, s'.runs[r], IsCommitted(Holder(s, r)));
    ExecuteEffects(x, r, 0, s'.runs[r]);
    assert Holder(s', r) == Holder(s, r) by { hide ChannelOk, Work, ExecRank; }
  }

  lemma ExecuteLowersWork(x: Run, r: RunId, now: int, x': Run, committed: bool)
    requires ChannelOk(x) && PastRecord(x.exec) && ExecuteRun(x, r, now) == Some(x')
    ensures PastRecord(x'.exec) && Work(x', committed) < Work(x, committed)
  {
  }

  lemma HelpfulReceive(s: State, r: RunId)
    requires r in s.runs && PastRecord(s.runs[r].exec) && s.runs[r].buffer != []
    ensures var s' := Step(s, Receive(r));
            && s'.Some? && r in s'.value.runs && PastRecord(s'.value.runs[r].exec)
            && Measure(s'.value, r) < Measure(s, r)
  {
    var s' := Step(s, Receive(r)).value;
    assert Holder(s', r) == Holder(s, r);
  }

  lemma HelpfulHolder(s: State, r: RunId, s': State)
    requires Inv(s) && r in s.runs && s.runs[r].mu.Some? && s.runs[r].mu.value.Caller?
    requires Step(s, Advance(s.runs[r].mu.value.call)) == Some(s')
    requires PastRecord(s.runs[r].exec)
    ensures r in s'.runs && PastRecord(s'.runs[r].exec) && Measure(s', r) < Measure(s, r)
  {
    var c := s.runs[r].mu.value.call;
    StepTrend(s, Advance(c), s', r);
    assert RunInv(s, r);
    hide RunnerLockInv, CallInv, CancelOnce, StatusOk, ChannelOk, LogOk, ReplyOk, Work;
    HoldRankFalls(s, r, c, s');
  }

  lemma HoldRankFalls(s: State, r: RunId, c: CallId, s': State)
    requires r in s.runs && s.runs[r].mu == Some(Caller(c)) && MuOk(s.runs[r], r, Holder(s, r))
    requires Step(s, Advance(c)) == Some(s')
    ensures r in s'.runs && HoldRank(Holder(s', r)) < HoldRank(Holder(s, r))
  {
    hide ExecHoldsState;
  }

  /** After the outcome is recorded, and until the channel is closed and drained, the helpful step is
      enabled and strictly lowers the measure. */
  lemma HelpfulStep(s: State, r: RunId) returns (s': State)
    requires Inv(s) && r in s.runs && PastRecord(s.runs[r].exec) && !IsDrained(s.runs[r])
    ensures Step(s, Helpful(s, r)) == Some(s') && r in s'.runs && PastRecord(s'.runs[r].exec)
    ensures Measure(s', r) < Measure(s, r)
  {
    var x := s.runs[r];
    assert RunInv(s, r);
    assert ChannelOk(x) && MuOk(x, r, Holder(s, r));
    if Helpful(s, r) == Receive(r) {
      assert x.buffer != [];
      HelpfulReceive(s, r);
    } else if Helpful(s, r).Advance? {
      StateLockHolderMoves(s, r);
      HelpfulHolder(s, r, Step(s, Helpful(s, r)).value);
    } else {
      assert ExecuteStep(s, r, 0).Some? by { hide Inv, RunInv, LogOk, StatusOk, ReplyOk; }
      HelpfulExecute(s, r, ExecuteStep(s, r, 0).value);
    }
    s' := Step(s, Helpful(s, r)).value;
  }

  /** From the recorded outcome on, every run can be driven to a closed and drained channel by at most
      Measure further steps of executor, lock holder and consumer. */
  lemma {:induction false} Drains(s: State, r: RunId) returns (more: seq<Action>, s': State)
    requires Inv(s) && r in s.runs && PastRecord(s.runs[r].exec)
    ensures Play(s, more) == Some(s') && r in s'.runs && IsDrained(s'.runs[r])
    ensures |more| <= Measure(s, r)
    decreases Measure(s, r)
  {
    hide Inv, Step, Measure;
    if IsDrained(s.runs[r]) {
      more, s' := [], s;
    } else {
      var t := HelpfulStep(s, r);
      StepPreserves(s, Helpful(s, r), t);
      var rest;
      rest, s' := Drains(t, r);
      more := [Helpful(s, r)] + rest;
      assert more[1..] == rest;
    }
  }

  /** No step of any goroutine adds work to a run whose outcome is recorded. */
  lemma NothingAddsWork(schedule: seq<Action>, s: State, a: Action, s': State, r: RunId)
    requires Reaches(schedule, s) && Step(s, a) == Some(s') && r in s.runs && PastRecord(s.runs[r].exec)
    ensures r in s'.runs
    ensures Work(s'.runs[r], IsCommitted(Holder(s', r))) <= Work(s.runs[r], IsCommitted(Holder(s, r)))
  {
    ReachableInv(schedule, s);
    hide Inv, Step, Work;
    StepTrend(s, a, s', r);
  }

  /** The steps of a schedule by which run r's executor and its consumer get on. */
  ghost function Gains(r: RunId, more: seq<Action>): nat {
    if more == [] then 0 else (if IsGain(r, more[0]) then 1 else 0) + Gains(r, more[1..])
  }

  ghost predicate IsGain(r: RunId, a: Action) { (a.Execute? || a.Receive?) && a.run == r }

  lemma GainLowersWork(s: State, a: Action, s': State, r: RunId)
    requires Inv(s) && r in s.runs && PastRecord(s.runs[r].exec) && Step(s, a) == Some(s') && IsGain(r, a)
    ensures r in s'.runs && PastRecord(s'.runs[r].exec)
    ensures Work(s'.runs[r], IsCommitted(Holder(s', r))) < Work(s.runs[r], IsCommitted(Holder(s, r)))
  {
    StepTrend(s, a, s', r);
    var x, k := s.runs[r], IsCommitted(Holder(s, r));
    assert ChannelOk(x) by { assert RunInv(s, r); }
    hide Inv, RunInv, ChannelOk, Holder, IsCommitted, ExecuteRun, PhaseOf;
    if a.Execute? {
      ExecuteLowersWork(x, r, a.now, s'.runs[r], k);
    }
    assert Work(s'.runs[r], k) < Work(x, k);
  }

  /** Whatever the schedule: from the recorded outcome on, the steps of executor and consumer are at most as
      many as the work there was, less the work that is left. */
  lemma {:induction false} WorkIsBounded(s: State, more: seq<Action>, s': State, r: RunId)
    requires Inv(s) && r in s.runs && PastRecord(s.runs[r].exec) && Play(s, more) == Some(s')
    ensures r in s'.runs && PastRecord(s'.runs[r].exec)
    ensures Gains(r, more) + Work(s'.runs[r], IsCommitted(Holder(s', r)))
            <= Work(s.runs[r], IsCommitted(Holder(s, r)))
    decreases |more|
  {
    hide Inv, Step, Work, Holder, IsCommitted, PastRecord, Snapshot;
    if more != [] {
      var t := Step(s, more[0]).value;
      StepTrend(s, more[0], t, r);
      if IsGain(r, more[0]) { GainLowersWork(s, more[0], t, r); }
      StepPreserves(s, more[0], t);
      WorkIsBounded(t, more[1..], s', r);
    }
  }

  // ---------------------------------------------------------------- interrupts that come too late

  /** The call got as far as the channel: its event was accepted, or the channel was full. */
  ghost predicate ReachedChannel(s: State, c: CallId, r: RunId) {
    && c in s.calls && s.calls[c].run == r && (s.calls[c].InterruptUnlock? || s.calls[c].InterruptDone?)
    && (s.calls[c].reply == Ok || s.calls[c].reply == ChannelFull)
  }

  lemma OnlyCommittedReaches(s: State, a: Action, s': State, c: CallId, r: RunId)
    requires Inv(s) && Step(s, a) == Some(s') && r in s.runs
    requires ReachedChannel(s', c, r) && !ReachedChannel(s, c, r)
    ensures IsCommitted(Holder(s, r))
  {
    if c in s.calls { assert CallInv(s, c); }
    hide RunInv, RunnerLockInv, CancelOnce, ExecuteRun, EnvironmentRun, DispatchStep, StatusStep, CancelMove;
    CommittedBefore(s, a, s', c, r);
  }

  lemma CommittedBefore(s: State, a: Action, s': State, c: CallId, r: RunId)
    requires Step(s, a) == Some(s') && ReachedChannel(s', c, r) && !ReachedChannel(s, c, r)
    ensures a == Advance(c) && c in s.calls && s.calls[c].InterruptCommitted? && s.calls[c].run == r
  {
    hide ExecuteRun, EnvironmentRun, HasRoom, Put;
  }

  /** Once the outcome is recorded and no Interrupt holds rs.mu with "running" already read, none will, and
      no further Interrupt gets to the channel: none returns nil, and none finds the channel full. */
  lemma {:induction false} LateInterruptsAreRefused(s: State, more: seq<Action>, s': State, r: RunId, c: CallId)
    requires Inv(s) && r in s.runs && PastRecord(s.runs[r].exec) && !IsCommitted(Holder(s, r))
    requires Play(s, more) == Some(s')
    ensures r in s'.runs && !IsCommitted(Holder(s', r))
    ensures ReachedChannel(s', c, r) ==> ReachedChannel(s, c, r)
    decreases |more|
  {
    hide Inv, Step, Holder, IsCommitted, PastRecord, ReachedChannel, Work, Snapshot;
    if more != [] {
      var t := Step(s, more[0]).value;
      StepTrend(s, more[0], t, r);
      StepPreserves(s, more[0], t);
      if ReachedChannel(t, c, r) && !ReachedChannel(s, c, r) { OnlyCommittedReaches(s, more[0], t, c, r); }
      LateInterruptsAreRefused(t, more[1..], s', r, c);
    }
  }

  lemma ClosedIsFinal(s: State, r: RunId)
    requires Inv(s) && r in s.runs && s.runs[r].channelClosed
    ensures AfterSend(s.runs[r].exec) && !IsCommitted(Holder(s, r))
  {
    var x := s.runs[r];
    assert RunInv(s, r);
    if x.mu.Some? && x.mu.value.Caller? && x.mu.value.call in s.calls {
      assert CallInv(s, x.mu.value.call);
    }
    hide RunnerLockInv, CancelOnce, StatusOk, LogOk, ReplyOk;
  }

  /** When Next reports io.EOF the consumer has received the whole log, and it never grows again. */
  lemma EndOfStream(schedule: seq<Action>, s: State, more: seq<Action>, s': State, r: RunId)
    requires Reaches(schedule, s) && r in s.runs && Play(s, more) == Some(s')
    requires s.runs[r].channelClosed && s.runs[r].buffer == []
    ensures s.runs[r].delivered == s.runs[r].accepted
    ensures PhaseOf(r, s.runs[r].delivered).After?
    ensures r in s'.runs && s'.runs[r].delivered == s.runs[r].delivered
  {
    ReachableInv(schedule, s);
    var x := s.runs[r];
    assert RunInv(s, r);
    ClosedIsFinal(s, r);
    PlayTrend(s, more, s', r);
    PlayPreserves(s, more);
    assert RunInv(s', r);
    hide RunnerLockInv, CallInv, CancelOnce, PhaseOf, ReplyOk;
    assert x.accepted == s'.runs[r].accepted == s'.runs[r].delivered + s'.runs[r].buffer;
  }
}
