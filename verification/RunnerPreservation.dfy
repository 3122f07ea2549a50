/** Every step of every goroutine keeps the invariant, whatever the schedule. */
module RunnerPreservation {
  import opened Options
  import opened RunnerModel
  import opened RunnerInvariant

  // ---------------------------------------------------------------- steps on one run

  /** Putting an entry on an open channel moves the phase and the posted events by that entry. */
  lemma PutLog(r: RunId, x: Run, e: Entry)
    requires !x.channelClosed
    ensures Put(x, e).accepted == x.accepted + [e]
    ensures PhaseOf(r, x.accepted + [e]) == AdvancePhase(r, PhaseOf(r, x.accepted), e)
    ensures forall c :: Posted(x.accepted + [e], c) ==
                        Posted(x.accepted, c) + (if e.source == FromInterrupt(c) then [e.event] else [])
  {
    PhaseSnoc(r, x.accepted, e);
    forall c ensures Posted(x.accepted + [e], c) ==
                     Posted(x.accepted, c) + (if e.source == FromInterrupt(c) then [e.event] else [])
    {
      PostedSnoc(x.accepted, e, c);
    }
  }

  lemma ExecuteMuOk(x: Run, r: RunId, now: int, x': Run, holder: Option<Call>)
    requires MuOk(x, r, holder) && ExecuteRun(x, r, now) == Some(x')
    ensures MuOk(x', r, holder)
  {
    match x.exec
    case Starting =>
    case WantRunner(_) =>
    case Recording(_) =>
    case Ended(_) =>
    case Failing(_) =>
    case Unlocking(_) =>
    case Sending(_) =>
    case WantState =>
    case Flagging =>
    case Closing =>
    case Releasing =>
  }

  lemma ExecuteRunnerLock(x: Run, r: RunId, now: int, x': Run)
    requires ExecuteRun(x, r, now) == Some(x')
    ensures ExecHoldsRunner(x'.exec) <==> x.exec.WantRunner? || (ExecHoldsRunner(x.exec) && !x.exec.Unlocking?)
  {
  }

  /** What a step may do to a run without breaking what call c knows about it. */
  ghost predicate Tolerates(call: Call, x: Run, x': Run) {
    && (CallHoldsState(call) ==> x'.mu == x.mu)
    && (CallHoldsState(call) ==> x'.closed == x.closed)
    && (call.CancelMark? || call.CancelFire? ==> x'.status == x.status)
    && (x.status != Running ==> x'.status != Running)
    && (PastRecord(x.exec) ==> PastRecord(x'.exec) && Snapshot(x') == Snapshot(x))
  }

  lemma ToleratesOk(call: Call, c: CallId, x: Run, x': Run)
    requires CallOk(call, c, x) && Tolerates(call, x, x')
    ensures CallOk(call, c, x')
  {
  }

  /** The executor takes rs.mu only when it is free, writes `closed` only under rs.mu and the outcome
      only under r.mu, and writes nothing a caller can see once the outcome is recorded. */
  lemma ExecuteEffects(x: Run, r: RunId, now: int, x': Run)
    requires ExecuteRun(x, r, now) == Some(x')
    ensures x'.mu == x.mu || x.mu.None? || x.exec.Releasing?
    ensures x'.closed == x.closed || x.exec.Flagging?
    ensures x'.status == x.status || (x.exec.Ended? && x'.status != Running)
    ensures PastRecord(x.exec) ==> PastRecord(x'.exec) && Snapshot(x') == Snapshot(x)
  {
    match x.exec
    case Starting =>
    case WantRunner(_) =>
    case Recording(_) =>
    case Ended(_) =>
    case Failing(_) =>
    case Unlocking(_) =>
    case Sending(_) =>
    case WantState =>
    case Flagging =>
    case Closing =>
    case Releasing =>
  }

  lemma ExecuteTolerated(x: Run, r: RunId, now: int, x': Run, call: Call, c: CallId, holder: Option<Call>)
    requires MuOk(x, r, holder) && CallOk(call, c, x) && ExecuteRun(x, r, now) == Some(x')
    requires ExecHoldsRunner(x.exec) ==> !CallWrites(call)
    ensures Tolerates(call, x, x')
  {
    ExecuteEffects(x, r, now, x');
    hide ExecuteRun, PastRecord, CallHoldsState;
  }

  lemma RecordStatusOk(x: Run, r: RunId, now: int, x': Run, firing: bool)
    requires StatusOk(x, r, firing) && ExecuteRun(x, r, now) == Some(x')
    requires ExecHoldsRunner(x.exec) && !firing
    ensures StatusOk(x', r, firing)
  {
    match x.exec
    case Recording(_) =>
    case Ended(_) =>
    case Failing(_) =>
    case Unlocking(_) =>
  }

  lemma ExecuteStatusOk(x: Run, r: RunId, now: int, x': Run, firing: bool)
    requires StatusOk(x, r, firing) && ExecuteRun(x, r, now) == Some(x')
    requires ExecHoldsRunner(x.exec) ==> !firing
    ensures StatusOk(x', r, firing)
  {
    if ExecHoldsRunner(x.exec) {
      RecordStatusOk(x, r, now, x', firing);
    } else {
      assert x'.status == x.status && x'.err == x.err && x'.endedAt == x.endedAt && x'.context == x.context;
      hide Agrees, IsOpen;
    }
  }

  lemma ExecuteChannelOk(x: Run, r: RunId, now: int, x': Run)
    requires ChannelOk(x) && ExecuteRun(x, r, now) == Some(x')
    ensures ChannelOk(x')
  {
  }

  lemma ExecuteLogOk(x: Run, r: RunId, now: int, x': Run, committed: bool, firing: bool)
    requires StatusOk(x, r, firing) && ChannelOk(x) && LogOk(x, r, committed)
    requires ExecuteRun(x, r, now) == Some(x')
    ensures LogOk(x', r, committed)
  {
    if x.exec.Starting? {
      PutLog(r, x, Entry(FromRunner, StartedEvent(r)));
    } else if x.exec.Sending? {
      PutLog(r, x, Entry(FromRunner, x.exec.terminal));
    }
  }

  lemma ExecutePosted(x: Run, r: RunId, now: int, x': Run)
    requires ChannelOk(x) && ExecuteRun(x, r, now) == Some(x')
    ensures forall c :: Posted(x'.accepted, c) == Posted(x.accepted, c)
  {
    if x.exec.Starting? {
      PutLog(r, x, Entry(FromRunner, StartedEvent(r)));
    } else if x.exec.Sending? {
      PutLog(r, x, Entry(FromRunner, x.exec.terminal));
    }
  }

  // ---------------------------------------------------------------- frames

  /** A run keeps its invariant when neither it nor what the calls claim of it changes. */
  lemma RunFrame(s: State, s': State, r: RunId)
    requires r in s.runs && RunInv(s, r)
    requires r in s'.runs && s'.runs[r] == s.runs[r]
    requires Holder(s', r) == Holder(s, r) && IsFiring(s', r) == IsFiring(s, r)
    requires forall c :: Claims(s', c, r) == Claims(s, c, r)
    ensures RunInv(s', r)
  {
    hide RunOk, Holder, IsFiring, Claims;
  }

  // ---------------------------------------------------------------- executor steps

  lemma ExecuteLock(s: State, r: RunId, now: int, s': State)
    requires RunnerLockInv(s) && r in s.runs && ExecuteStep(s, r, now) == Some(s')
    ensures RunnerLockInv(s')
  {
    ExecuteRunnerLock(s.runs[r], r, now, s'.runs[r]);
    hide ExecuteRun, ExecHoldsRunner, CallWrites, CallReads;
  }

  /** The executor's step changes neither which call holds rs.mu nor which Cancel is firing. */
  lemma ExecuteView(s: State, r: RunId, now: int, s': State)
    requires RunnerLockInv(s) && r in s.runs && ExecuteStep(s, r, now) == Some(s')
    requires MuOk(s.runs[r], r, Holder(s, r))
    ensures r in s'.runs && Holder(s', r) == Holder(s, r) && IsFiring(s', r) == IsFiring(s, r)
    ensures ExecHoldsRunner(s.runs[r].exec) ==> !IsFiring(s, r)
  {
    ExecuteMuOk(s.runs[r], r, now, s'.runs[r], Holder(s, r));
    ExecuteEffects(s.runs[r], r, now, s'.runs[r]);
    hide ExecuteRun, CallHoldsState, CallReads, PastRecord;
  }

  lemma ExecuteRunInv(s: State, r: RunId, now: int, s': State)
    requires RunnerLockInv(s) && r in s.runs && RunInv(s, r) && ExecuteStep(s, r, now) == Some(s')
    ensures r in s'.runs && RunInv(s', r)
  {
    var x, x' := s.runs[r], s'.runs[r];
    ExecuteView(s, r, now, s');
    hide RunnerLockInv, Holder, IsFiring;
    assert ExecuteRun(x, r, now) == Some(x') && s'.calls == s.calls by {
      hide RunInv, ExecuteRun;
    }
    hide ExecuteStep;
    ExecuteMuOk(x, r, now, x', Holder(s, r));
    ExecuteStatusOk(x, r, now, x', IsFiring(s, r));
    ExecuteChannelOk(x, r, now, x');
    ExecuteLogOk(x, r, now, x', IsCommitted(Holder(s, r)), IsFiring(s, r));
    ExecutePosted(x, r, now, x');
    hide ExecuteRun, MuOk, StatusOk, ChannelOk, LogOk;
  }

  lemma ExecuteCallInv(s: State, r: RunId, now: int, s': State, c: CallId)
    requires RunnerLockInv(s) && r in s.runs && RunInv(s, r) && ExecuteStep(s, r, now) == Some(s')
    requires c in s.calls && CallInv(s, c)
    ensures CallInv(s', c)
  {
    var call := s.calls[c];
    if NeedsRun(call) && call.run == r {
      ExecuteTolerated(s.runs[r], r, now, s'.runs[r], call, c, Holder(s, r));
      ToleratesOk(call, c, s.runs[r], s'.runs[r]);
    }
    hide ExecuteRun, RunOk, CallOk, Tolerates, NeedsRun;
  }

  lemma ExecuteOther(s: State, r: RunId, now: int, s': State, q: RunId)
    requires RunnerLockInv(s) && r in s.runs && ExecuteStep(s, r, now) == Some(s')
    requires q in s.runs && q != r && RunInv(s, q)
    ensures q in s'.runs && RunInv(s', q)
  {
    hide ExecuteRun, MuOk, StatusOk, ChannelOk, LogOk, ReplyOk, CallWrites, CallReads;
    assert s.writer.Some? && s.writer.value.Caller? ==> s'.writer == s.writer;
    hide RunnerLockInv, ExecHoldsRunner;
    RunFrame(s, s', q);
  }

  lemma ExecuteKeys(s: State, r: RunId, now: int, s': State)
    requires r in s.runs && ExecuteStep(s, r, now) == Some(s')
    ensures s'.calls == s.calls && s'.runs.Keys == s.runs.Keys
  {
    hide ExecuteRun;
  }

  lemma ExecutePreserves(s: State, r: RunId, now: int, s': State)
    requires Inv(s) && r in s.runs && ExecuteStep(s, r, now) == Some(s')
    ensures Inv(s')
  {
    ExecuteLock(s, r, now, s');
    ExecuteKeys(s, r, now, s');
    hide ExecuteStep, ExecuteRun, RunnerLockInv, CallInv, RunInv, HasCancelled;
    assert CancelOnce(s');
    hide CancelOnce;
    forall q | q in s'.runs ensures RunInv(s', q) {
      if q == r { ExecuteRunInv(s, r, now, s'); } else { ExecuteOther(s, r, now, s', q); }
    }
    forall c | c in s'.calls ensures CallInv(s', c) {
      ExecuteCallInv(s, r, now, s', c);
    }
  }

  // ---------------------------------------------------------------- steps of API calls

  /** The general form of a step of call c: it changes c, at most c's own run, and r.mu only for c. */
  ghost predicate StepsOnly(s: State, c: CallId, s': State) {
    && c in s.calls && c in s'.calls
    && s'.calls == s.calls[c := s'.calls[c]] && s'.calls[c].run == s.calls[c].run
    && (s'.writer == s.writer || (s.writer.None? && s'.writer == Some(Caller(c)))
        || (s.writer == Some(Caller(c)) && s'.writer.None?))
    && s.runs.Keys <= s'.runs.Keys <= s.runs.Keys + {s.calls[c].run}
    && (forall q :: q in s.runs && q != s.calls[c].run ==> s'.runs[q] == s.runs[q])
  }

  lemma MoveSteps(s: State, c: CallId, m: Move)
    requires c in s.calls && s.calls[c].run in s.runs && m.call.run == s.calls[c].run
    ensures StepsOnly(s, c, SetRun(SetCall(s, c, m.call), s.calls[c].run, m.run))
  {
  }

  lemma HolderKept(s: State, c: CallId, s': State, q: RunId)
    requires StepsOnly(s, c, s') && q in s.runs && q in s'.runs && s'.runs[q] == s.runs[q]
    requires MuOk(s.runs[q], q, Holder(s, q))
    requires s.calls[c].run != q || !CallHoldsState(s.calls[c])
    ensures Holder(s', q) == Holder(s, q)
  {
    hide CallHoldsState, ExecHoldsState;
  }

  lemma FiringKept(s: State, c: CallId, s': State, q: RunId)
    requires StepsOnly(s, c, s')
    requires s.calls[c].run != q || (!s.calls[c].CancelFire? && !s'.calls[c].CancelFire?)
    ensures IsFiring(s', q) == IsFiring(s, q)
  {
  }

  lemma OtherRun(s: State, c: CallId, s': State, q: RunId)
    requires StepsOnly(s, c, s') && q in s.runs && RunInv(s, q) && q != s.calls[c].run
    ensures RunInv(s', q)
  {
    HolderKept(s, c, s', q);
    FiringKept(s, c, s', q);
    hide MuOk, StatusOk, ChannelOk, LogOk, ReplyOk, Holder, IsFiring, ClaimOf;
    RunFrame(s, s', q);
  }

  lemma OtherCall(s: State, c: CallId, s': State, d: CallId)
    requires StepsOnly(s, c, s') && d in s.calls && d != c && CallInv(s, d)
    requires s.calls[d].run in s.runs && s.calls[d].run == s.calls[c].run ==>
               Tolerates(s.calls[d], s.runs[s.calls[d].run], s'.runs[s.calls[d].run])
    ensures CallInv(s', d)
  {
    var call := s.calls[d];
    if NeedsRun(call) && call.run == s.calls[c].run {
      ToleratesOk(call, d, s.runs[call.run], s'.runs[call.run]);
    }
    hide CallOk, Tolerates, NeedsRun;
  }

  lemma CancelOnceKept(s: State, c: CallId, s': State)
    requires StepsOnly(s, c, s') && CancelOnce(s)
    requires HasCancelled(s'.calls[c]) && !HasCancelled(s.calls[c]) ==>
               s.calls[c].run in s.runs && s.runs[s.calls[c].run].status == Running
    requires forall d :: d in s.calls ==> CallInv(s, d)
    ensures CancelOnce(s')
  {
    forall d, e | d in s'.calls && e in s'.calls && d != e && s'.calls[d].run == s'.calls[e].run
      ensures !(HasCancelled(s'.calls[d]) && HasCancelled(s'.calls[e]))
    {
      assert CallInv(s, d) && CallInv(s, e);
    }
  }

  /** Putting the pieces together for a step of call c. */
  lemma CallPreserves(s: State, c: CallId, s': State)
    requires Inv(s) && RunnerLockInv(s') && StepsOnly(s, c, s')
    requires s.calls[c].run in s'.runs ==> RunInv(s', s.calls[c].run)
    requires CallInv(s', c)
    requires forall d :: d in s.calls && d != c && s.calls[d].run == s.calls[c].run && s.calls[d].run in s.runs ==>
               Tolerates(s.calls[d], s.runs[s.calls[d].run], s'.runs[s.calls[d].run])
    requires HasCancelled(s'.calls[c]) && !HasCancelled(s.calls[c]) ==>
               s.calls[c].run in s.runs && s.runs[s.calls[c].run].status == Running
    ensures Inv(s')
  {
    hide RunnerLockInv, RunInv, CallInv, Tolerates, HasCancelled, CancelOnce;
    forall q | q in s'.runs ensures RunInv(s', q) {
      if q != s.calls[c].run { OtherRun(s, c, s', q); }
    }
    forall d | d in s'.calls ensures CallInv(s', d) {
      if d != c { OtherCall(s, c, s', d); }
    }
    CancelOnceKept(s, c, s');
  }

  lemma NeutralRun(s: State, c: CallId, s': State)
    requires StepsOnly(s, c, s') && s'.runs == s.runs && s.calls[c].run in s.runs
    requires RunInv(s, s.calls[c].run)
    requires !CallHoldsState(s.calls[c]) && !s.calls[c].CancelFire? && !s'.calls[c].CancelFire?
    requires ClaimOf(s'.calls[c]) == ClaimOf(s.calls[c])
    ensures RunInv(s', s.calls[c].run)
  {
    var r := s.calls[c].run;
    HolderKept(s, c, s', r);
    FiringKept(s, c, s', r);
    hide MuOk, StatusOk, ChannelOk, LogOk, ReplyOk, Holder, IsFiring, ClaimOf, CallHoldsState;
    RunFrame(s, s', r);
  }

  lemma ToleratesSame(call: Call, x: Run)
    ensures Tolerates(call, x, x)
  {
  }

  /** A step of call c that leaves its run alone and keeps its claims on it. */
  lemma NeutralPreserves(s: State, c: CallId, s': State)
    requires Inv(s) && RunnerLockInv(s') && StepsOnly(s, c, s') && s'.runs == s.runs
    requires !CallHoldsState(s.calls[c]) && !s.calls[c].CancelFire? && !s'.calls[c].CancelFire?
    requires ClaimOf(s'.calls[c]) == ClaimOf(s.calls[c])
    requires HasCancelled(s'.calls[c]) ==> HasCancelled(s.calls[c])
    requires CallInv(s', c)
    ensures Inv(s')
  {
    hide RunnerLockInv, RunInv, CallInv, HasCancelled, CancelOnce, Tolerates, CallHoldsState, ClaimOf;
    if s.calls[c].run in s.runs { NeutralRun(s, c, s'); }
    forall d | d in s.calls && d != c && s.calls[d].run == s.calls[c].run && s.calls[d].run in s.runs
      ensures Tolerates(s.calls[d], s.runs[s.calls[d].run], s'.runs[s.calls[d].run])
    {
      ToleratesSame(s.calls[d], s.runs[s.calls[d].run]);
    }
    CallPreserves(s, c, s');
  }

  lemma InvokePreserves(s: State, c: CallId, request: Call, s': State)
    requires Inv(s) && c !in s.calls && IsRequest(request) && s' == SetCall(s, c, request)
    ensures Inv(s')
  {
    hide RunInv, CallOk, NeedsRun, HasCancelled, CallWrites, CallReads;
    assert RunnerLockInv(s') by { InvokeLock(s, c, request, s'); }
    assert !NeedsRun(request) && !HasCancelled(request) by { RequestIsIdle(request); }
    forall q | q in s'.runs ensures RunInv(s', q) {
      InvokeRun(s, c, request, s', q);
    }
  }

  lemma RequestIsIdle(request: Call)
    requires IsRequest(request)
    ensures !NeedsRun(request) && !HasCancelled(request) && !CallWrites(request) && !CallReads(request)
  {
  }

  lemma InvokeLock(s: State, c: CallId, request: Call, s': State)
    requires RunnerLockInv(s) && c !in s.calls && IsRequest(request) && s' == SetCall(s, c, request)
    ensures RunnerLockInv(s')
  {
    RequestIsIdle(request);
    hide CallWrites, CallReads, ExecHoldsRunner, IsRequest;
  }

  lemma InvokeRun(s: State, c: CallId, request: Call, s': State, q: RunId)
    requires c !in s.calls && IsRequest(request) && s' == SetCall(s, c, request)
    requires RunnerLockInv(s) && q in s.runs && RunInv(s, q)
    ensures RunInv(s', q)
  {
    assert MuOk(s.runs[q], q, Holder(s, q));
    hide StatusOk, ChannelOk, LogOk, ReplyOk;
    RunFrame(s, s', q);
  }

  lemma DispatchLock(s: State, c: CallId, s': State)
    requires RunnerLockInv(s) && c in s.calls && DispatchStep(s, c, s.calls[c]) == Some(s')
    ensures RunnerLockInv(s')
  {
  }

  lemma DispatchPreserves(s: State, c: CallId, s': State)
    requires Inv(s) && c in s.calls && DispatchStep(s, c, s.calls[c]) == Some(s')
    ensures Inv(s')
  {
    DispatchLock(s, c, s');
    DispatchShape(s, c, s');
    hide DispatchStep, RunInv, RunnerLockInv, CallInv, CancelOnce, StepsOnly, HasCancelled, Tolerates;
    if s.calls[c].DispatchHold? && s.calls[c].run !in s.runs {
      NewRun(s, c, s');
      CallPreserves(s, c, s');
    } else {
      NeutralPreserves(s, c, s');
    }
  }

  lemma DispatchShape(s: State, c: CallId, s': State)
    requires RunnerLockInv(s) && c in s.calls && DispatchStep(s, c, s.calls[c]) == Some(s')
    ensures StepsOnly(s, c, s') && CallInv(s', c) && !HasCancelled(s'.calls[c])
    ensures ClaimOf(s'.calls[c]) == ClaimOf(s.calls[c]) == []
    ensures !CallHoldsState(s.calls[c]) && !s.calls[c].CancelFire? && !s'.calls[c].CancelFire?
    ensures s'.runs == s.runs || (s.calls[c].DispatchHold? && s.calls[c].run !in s.runs)
  {
  }

  lemma NewRun(s: State, c: CallId, s': State)
    requires Inv(s) && c in s.calls && s.calls[c].DispatchHold? && s.calls[c].run !in s.runs
    requires DispatchStep(s, c, s.calls[c]) == Some(s')
    ensures RunInv(s', s.calls[c].run)
  {
    var r := s.calls[c].run;
    assert s.writer == Some(Caller(c));
    forall d ensures Claims(s', d, r) == [] {
      if d in s.calls { assert CallInv(s, d); }
    }
  }

  lemma StatusLock(s: State, c: CallId, s': State)
    requires RunnerLockInv(s) && c in s.calls && StatusStep(s, c, s.calls[c]) == Some(s')
    ensures RunnerLockInv(s')
  {
  }

  lemma StatusPreserves(s: State, c: CallId, s': State)
    requires Inv(s) && c in s.calls && StatusStep(s, c, s.calls[c]) == Some(s')
    ensures Inv(s')
  {
    StatusLock(s, c, s');
    StatusCallInv(s, c, s');
    hide RunInv, RunnerLockInv, CallInv, CancelOnce, StepsOnly;
    ReaderSteps(s, c, s'.calls[c], s'.readers);
    NeutralPreserves(s, c, s');
  }

  /** A reader sees a recorded end only after the executor has let go of r.mu. */
  lemma StatusCallInv(s: State, c: CallId, s': State)
    requires Inv(s) && c in s.calls && StatusStep(s, c, s.calls[c]) == Some(s')
    ensures CallInv(s', c)
  {
    var r := s.calls[c].run;
    assert CallInv(s, c);
    if r in s.runs && s.calls[c].StatusHold? {
      assert RunInv(s, r);
      assert s.writer.None?;
      SnapshotFacts(s.runs[r], r, IsFiring(s, r));
    }
    hide RunInv, CancelOnce, IsFiring, CallReads, CallWrites;
  }

  /** While no executor holds r.mu, a snapshot with an end time is the published outcome. */
  lemma SnapshotFacts(x: Run, r: RunId, firing: bool)
    requires StatusOk(x, r, firing) && !ExecHoldsRunner(x.exec)
    ensures x.endedAt.Some? ==> PastRecord(x.exec)
    ensures x.endedAt.None? ==> (x.status == Running || x.status == Cancelled) && x.err == ""
  {
  }

  lemma InterruptLock(s: State, c: CallId, s': State)
    requires RunnerLockInv(s) && c in s.calls && InterruptStep(s, c, s.calls[c]) == Some(s')
    ensures RunnerLockInv(s')
  {
    var call := s.calls[c];
    hide InterruptMove, ExecHoldsRunner;
    if call.InterruptWantRunner? || call.InterruptLookup? || call.InterruptLooked? {
      LookupLock(s, c, s');
    } else {
      InterruptMoveLock(s.runs[call.run], c, call);
      hide CallWrites, CallReads;
    }
  }

  lemma LookupLock(s: State, c: CallId, s': State)
    requires RunnerLockInv(s) && c in s.calls && InterruptStep(s, c, s.calls[c]) == Some(s')
    requires s.calls[c].InterruptWantRunner? || s.calls[c].InterruptLookup? || s.calls[c].InterruptLooked?
    ensures RunnerLockInv(s')
  {
    hide InterruptMove, ExecHoldsRunner;
  }

  lemma InterruptMoveLock(x: Run, c: CallId, call: Call)
    ensures InterruptMove(x, c, call).Some? ==>
            var m := InterruptMove(x, c, call).value;
            && !CallWrites(call) && !CallReads(call) && !CallWrites(m.call) && !CallReads(m.call)
            && m.run.exec == x.exec && m.call.run == call.run
  {
  }

  lemma CancelLock(s: State, c: CallId, s': State)
    requires RunnerLockInv(s) && c in s.calls && CancelStep(s, c, s.calls[c]) == Some(s')
    ensures RunnerLockInv(s')
  {
    var call := s.calls[c];
    if call.run in s.runs { CancelMoveLock(s.runs[call.run], call); }
    hide CancelMove;
  }

  lemma CancelMoveLock(x: Run, call: Call)
    ensures CancelMove(x, call).Some? ==>
            var m := CancelMove(x, call).value;
            && CallWrites(call) && CallWrites(m.call) && !CallReads(call) && !CallReads(m.call)
            && m.run.exec == x.exec && m.call.run == call.run
  {
  }

  // ---------------------------------------------------------------- Interrupt under rs.mu

  /** Who holds rs.mu after call c has moved. */
  ghost function HolderAfter(m: Move): Option<Call> {
    if m.run.mu.Some? && m.run.mu.value.Caller? then Some(m.call) else None
  }

  lemma InterruptMuOk(x: Run, r: RunId, c: CallId, call: Call, m: Move, holder: Option<Call>)
    requires MuOk(x, r, holder) && call.run == r && CallOk(call, c, x)
    requires InterruptMove(x, c, call) == Some(m)
    ensures MuOk(m.run, r, HolderAfter(m))
  {
  }

  lemma InterruptStatusOk(x: Run, r: RunId, c: CallId, call: Call, m: Move, firing: bool)
    requires StatusOk(x, r, firing) && InterruptMove(x, c, call) == Some(m)
    ensures StatusOk(m.run, r, firing)
  {
    assert m.run.exec == x.exec && m.run.status == x.status && m.run.err == x.err;
    assert m.run.endedAt == x.endedAt && m.run.context == x.context;
    hide InterruptMove, Agrees;
  }

  lemma InterruptChannelOk(x: Run, r: RunId, c: CallId, call: Call, m: Move)
    requires ChannelOk(x) && CallOk(call, c, x) && InterruptMove(x, c, call) == Some(m)
    ensures ChannelOk(m.run)
    ensures forall d :: Posted(m.run.accepted, d) ==
                        Posted(x.accepted, d) + (if d == c && !call.InterruptUnlock? then ClaimOf(m.call) else [])
  {
    if call.InterruptCommitted? {
      PutLog(r, x, Entry(FromInterrupt(c), call.event));
    }
  }

  /** An interrupt can still commit only while the status is "running", that is before the terminal
      event; so of all interrupts at most one lands behind it. */
  lemma InterruptLogOk(x: Run, r: RunId, c: CallId, call: Call, m: Move, holder: Option<Call>, firing: bool)
    requires StatusOk(x, r, firing) && ChannelOk(x) && LogOk(x, r, IsCommitted(holder))
    requires CallOk(call, c, x) && InterruptMove(x, c, call) == Some(m)
    requires CallHoldsState(call) ==> holder == Some(call)
    ensures LogOk(m.run, r, IsCommitted(HolderAfter(m)))
  {
    if call.InterruptCommitted? {
      PutLog(r, x, Entry(FromInterrupt(c), call.event));
    }
  }

  lemma InterruptCallOk(x: Run, r: RunId, c: CallId, call: Call, m: Move)
    requires CallOk(call, c, x) && InterruptMove(x, c, call) == Some(m)
    ensures CallOk(m.call, c, m.run) && !HasCancelled(m.call)
  {
  }

  lemma InterruptTolerated(x: Run, r: RunId, c: CallId, call: Call, m: Move, d: CallId, other: Call)
    requires CallOk(call, c, x) && InterruptMove(x, c, call) == Some(m)
    requires CallOk(other, d, x) && c != d
    ensures Tolerates(other, x, m.run)
  {
  }

  /** The part of an Interrupt call under rs.mu, lifted to its run. */
  lemma InterruptRunInv(s: State, c: CallId, s': State, m: Move)
    requires c in s.calls && s.calls[c].run in s.runs && RunInv(s, s.calls[c].run)
    requires CallOk(s.calls[c], c, s.runs[s.calls[c].run]) && RunnerLockInv(s)
    requires InterruptMove(s.runs[s.calls[c].run], c, s.calls[c]) == Some(m)
    requires s' == SetRun(SetCall(s, c, m.call), s.calls[c].run, m.run)
    ensures RunInv(s', s.calls[c].run)
  {
    var call, r := s.calls[c], s.calls[c].run;
    var x, holder, firing := s.runs[r], Holder(s, r), IsFiring(s, r);
    InterruptView(s, c, s', m);
    hide RunnerLockInv, Holder, IsFiring;
    InterruptMuOk(x, r, c, call, m, holder);
    InterruptStatusOk(x, r, c, call, m, firing);
    InterruptLogOk(x, r, c, call, m, holder, firing);
    InterruptChannelOk(x, r, c, call, m);
    hide MuOk, StatusOk, ChannelOk, LogOk, InterruptMove, CallOk, CallHoldsState;
    InterruptClaims(x, c, call, m);
  }

  lemma InterruptView(s: State, c: CallId, s': State, m: Move)
    requires c in s.calls && s.calls[c].run in s.runs && RunnerLockInv(s)
    requires CallOk(s.calls[c], c, s.runs[s.calls[c].run])
    requires InterruptMove(s.runs[s.calls[c].run], c, s.calls[c]) == Some(m)
    requires s' == SetRun(SetCall(s, c, m.call), s.calls[c].run, m.run)
    ensures var r := s.calls[c].run;
            && IsFiring(s', r) == IsFiring(s, r) && Holder(s', r) == HolderAfter(m)
            && (CallHoldsState(s.calls[c]) ==> Holder(s, r) == Some(s.calls[c]))
  {
    var call, r := s.calls[c], s.calls[c].run;
    InterruptMoveLock(s.runs[r], c, call);
    InterruptHolder(s.runs[r], r, c, call, m, Holder(s, r));
    hide InterruptMove, ExecHoldsRunner, CallReads;
  }

  lemma InterruptClaims(x: Run, c: CallId, call: Call, m: Move)
    requires InterruptMove(x, c, call) == Some(m)
    ensures m.call.run == call.run
    ensures ClaimOf(m.call) == ClaimOf(call) + (if !call.InterruptUnlock? then ClaimOf(m.call) else [])
  {
  }

  lemma InterruptHolder(x: Run, r: RunId, c: CallId, call: Call, m: Move, holder: Option<Call>)
    requires CallOk(call, c, x) && InterruptMove(x, c, call) == Some(m)
    ensures m.run.mu.Some? && m.run.mu.value.Caller? ==> m.run.mu == Some(Caller(c))
    ensures CallHoldsState(call) || x.mu.None?
  {
  }

  lemma InterruptPreserves(s: State, c: CallId, s': State)
    requires Inv(s) && c in s.calls && InterruptStep(s, c, s.calls[c]) == Some(s')
    ensures Inv(s')
  {
    InterruptLock(s, c, s');
    var call := s.calls[c];
    if call.InterruptWantRunner? || call.InterruptLookup? || call.InterruptLooked? {
      assert CallInv(s, c);
      InterruptShape(s, c, s');
      InterruptIdle(s, c, s');
      hide InterruptStep, RunInv, RunnerLockInv, CallInv, CancelOnce, StepsOnly;
      NeutralPreserves(s, c, s');
    } else {
      InterruptMovePreserves(s, c, s');
    }
  }

  lemma InterruptShape(s: State, c: CallId, s': State)
    requires c in s.calls && InterruptStep(s, c, s.calls[c]) == Some(s') && CallInv(s, c)
    requires s.calls[c].InterruptWantRunner? || s.calls[c].InterruptLookup? || s.calls[c].InterruptLooked?
    ensures StepsOnly(s, c, s') && s'.runs == s.runs && CallInv(s', c)
  {
    hide InterruptMove, StepsOnly;
    assert s'.runs == s.runs && CallInv(s', c);
    hide CallInv;
    ReaderSteps(s, c, s'.calls[c], s'.readers);
  }

  lemma InterruptIdle(s: State, c: CallId, s': State)
    requires c in s.calls && InterruptStep(s, c, s.calls[c]) == Some(s')
    requires s.calls[c].InterruptWantRunner? || s.calls[c].InterruptLookup? || s.calls[c].InterruptLooked?
    ensures !HasCancelled(s'.calls[c]) && ClaimOf(s'.calls[c]) == ClaimOf(s.calls[c])
    ensures !CallHoldsState(s.calls[c]) && !s.calls[c].CancelFire? && !s'.calls[c].CancelFire?
  {
  }

  lemma ReaderSteps(s: State, c: CallId, next: Call, readers: set<CallId>)
    requires c in s.calls && next.run == s.calls[c].run
    ensures StepsOnly(s, c, SetCall(s, c, next).(readers := readers))
  {
  }

  lemma InterruptMovePreserves(s: State, c: CallId, s': State)
    requires Inv(s) && c in s.calls && InterruptStep(s, c, s.calls[c]) == Some(s') && RunnerLockInv(s')
    requires !(s.calls[c].InterruptWantRunner? || s.calls[c].InterruptLookup? || s.calls[c].InterruptLooked?)
    ensures Inv(s')
  {
    var call, r := s.calls[c], s.calls[c].run;
    var x := s.runs[r];
    var m := InterruptMove(x, c, call).value;
    assert CallOk(call, c, x) by {
      assert CallInv(s, c);
      hide RunInv, RunnerLockInv, CancelOnce, CallOk;
    }
    InterruptMoveLock(x, c, call);
    InterruptRunInv(s, c, s', m);
    InterruptCallOk(x, r, c, call, m);
    MoveSteps(s, c, m);
    hide InterruptMove, RunInv, RunnerLockInv, CallOk, CancelOnce, HasCancelled, NeedsRun, StepsOnly;
    forall d | d in s.calls && d != c && s.calls[d].run == r ensures Tolerates(s.calls[d], x, s'.runs[r]) {
      assert CallInv(s, d);
      InterruptTolerates(x, r, c, call, m, d, s.calls[d]);
    }
    hide Tolerates;
    CallPreserves(s, c, s');
  }

  lemma InterruptTolerates(x: Run, r: RunId, c: CallId, call: Call, m: Move, d: CallId, other: Call)
    requires CallOk(call, c, x) && InterruptMove(x, c, call) == Some(m)
    requires NeedsRun(other) ==> CallOk(other, d, x)
    requires c != d
    ensures Tolerates(other, x, m.run)
  {
    if NeedsRun(other) { InterruptTolerated(x, r, c, call, m, d, other); }
  }

  // ---------------------------------------------------------------- Cancel under r.mu

  /** Under r.mu no executor is recording, so a Cancel call that read "running" marks a run whose
      outcome is still open; the mark and the cancelled context reach the executor together. */
  lemma CancelRunOk(x: Run, r: RunId, call: Call, m: Move, holder: Option<Call>)
    requires RunOk(x, r, holder, call.CancelFire?) && call.run == r && CallOk(call, 0, x)
    requires !ExecHoldsRunner(x.exec) && CancelMove(x, call) == Some(m)
    ensures RunOk(m.run, r, holder, m.call.CancelFire?)
    ensures m.run.accepted == x.accepted && m.run.mu == x.mu && m.run.closed == x.closed
    ensures x.status != Running ==> m.run.status != Running
    ensures PastRecord(x.exec) ==> PastRecord(m.run.exec) && Snapshot(m.run) == Snapshot(x)
  {
    assert m.run.accepted == x.accepted;
    hide PhaseOf;
  }

  lemma CancelCallOk(x: Run, c: CallId, call: Call, m: Move)
    requires CallOk(call, c, x) && CancelMove(x, call) == Some(m)
    ensures CallOk(m.call, c, m.run) && ClaimOf(m.call) == ClaimOf(call) == []
    ensures HasCancelled(m.call) && !HasCancelled(call) ==> x.status == Running
    ensures m.call.CancelFire? ==> m.call == CancelFire(call.run)
    ensures call.CancelFire? ==> call == CancelFire(call.run)
    ensures !CallHoldsState(call) && !CallHoldsState(m.call)
  {
  }

  lemma CancelRunInv(s: State, c: CallId, s': State, m: Move)
    requires c in s.calls && s.calls[c].run in s.runs && RunInv(s, s.calls[c].run)
    requires CallOk(s.calls[c], c, s.runs[s.calls[c].run]) && RunnerLockInv(s)
    requires CancelMove(s.runs[s.calls[c].run], s.calls[c]) == Some(m)
    requires s' == SetRun(SetCall(s, c, m.call), s.calls[c].run, m.run)
    ensures RunInv(s', s.calls[c].run)
  {
    var call, r := s.calls[c], s.calls[c].run;
    var x, holder, firing := s.runs[r], Holder(s, r), IsFiring(s, r);
    CancelMoveLock(x, call);
    CancelCallOk(x, c, call, m);
    assert s.writer == Some(Caller(c)) && !ExecHoldsRunner(x.exec);
    assert firing == call.CancelFire? && IsFiring(s', r) == m.call.CancelFire? by {
      hide RunInv, CancelMove, RunnerLockInv, ClaimOf, CallOk, CallHoldsState;
    }
    assert CallOk(call, 0, x) by { hide RunInv, RunnerLockInv, Holder, IsFiring; }
    CancelRunOk(x, r, call, m, holder);
    assert Holder(s', r) == holder by {
      assert MuOk(x, r, holder);
      hide StatusOk, ChannelOk, LogOk, ReplyOk, CancelMove, IsFiring;
    }
    hide RunOk, CancelMove, Holder, IsFiring, CallOk, RunnerLockInv, ClaimOf;
  }

  lemma CancelTolerates(x: Run, c: CallId, call: Call, m: Move, d: CallId, other: Call, r: RunId, holder: Option<Call>)
    requires RunOk(x, r, holder, call.CancelFire?) && call.run == r && CallOk(call, 0, x)
    requires !ExecHoldsRunner(x.exec) && CancelMove(x, call) == Some(m)
    requires !CallWrites(other)
    ensures Tolerates(other, x, m.run)
  {
    CancelRunOk(x, r, call, m, holder);
    hide RunOk, CallOk, CancelMove, PastRecord, CallHoldsState, ExecHoldsRunner;
  }

  lemma CancelShape(s: State, c: CallId, s': State)
    requires Inv(s) && c in s.calls && CancelStep(s, c, s.calls[c]) == Some(s')
    requires s.calls[c].CancelWant? || s.calls[c].CancelUnlock? || s.calls[c].run !in s.runs
    ensures StepsOnly(s, c, s') && s'.runs == s.runs && CallInv(s', c)
    ensures HasCancelled(s'.calls[c]) ==> HasCancelled(s.calls[c])
    ensures ClaimOf(s'.calls[c]) == ClaimOf(s.calls[c])
    ensures !CallHoldsState(s.calls[c]) && !s.calls[c].CancelFire? && !s'.calls[c].CancelFire?
  {
    assert CallInv(s, c);
    hide RunInv, CancelOnce;
  }

  lemma CancelPreserves(s: State, c: CallId, s': State)
    requires Inv(s) && c in s.calls && CancelStep(s, c, s.calls[c]) == Some(s')
    ensures Inv(s')
  {
    CancelLock(s, c, s');
    var call := s.calls[c];
    if call.CancelWant? || call.CancelUnlock? || call.run !in s.runs {
      CancelShape(s, c, s');
      hide CancelStep, RunInv, RunnerLockInv, CallInv, CancelOnce, StepsOnly, HasCancelled;
      NeutralPreserves(s, c, s');
    } else {
      CancelMovePreserves(s, c, s');
    }
  }

  lemma CancelMovePreserves(s: State, c: CallId, s': State)
    requires Inv(s) && c in s.calls && CancelStep(s, c, s.calls[c]) == Some(s') && RunnerLockInv(s')
    requires !s.calls[c].CancelWant? && !s.calls[c].CancelUnlock? && s.calls[c].run in s.runs
    ensures Inv(s')
  {
    var call, r := s.calls[c], s.calls[c].run;
    var x := s.runs[r];
    var m := CancelMove(x, call).value;
    assert CallOk(call, c, x) by {
      assert CallInv(s, c);
      hide RunInv, RunnerLockInv, CancelOnce;
    }
    CancelMoveLock(x, call);
    CancelRunInv(s, c, s', m);
    CancelCallOk(x, c, call, m);
    forall d | d in s.calls && d != c && s.calls[d].run == r ensures Tolerates(s.calls[d], x, s'.runs[r]) {
      CancelOthers(s, c, d, m);
    }
    MoveSteps(s, c, m);
    hide CancelMove, RunInv, RunnerLockInv, CallOk, CancelOnce, HasCancelled, NeedsRun, Tolerates, ClaimOf, StepsOnly;
    CallPreserves(s, c, s');
  }

  lemma CancelOthers(s: State, c: CallId, d: CallId, m: Move)
    requires RunnerLockInv(s) && c in s.calls && d in s.calls && c != d && s.calls[d].run == s.calls[c].run
    requires s.calls[c].run in s.runs && RunInv(s, s.calls[c].run)
    requires CallOk(s.calls[c], c, s.runs[s.calls[c].run])
    requires CancelMove(s.runs[s.calls[c].run], s.calls[c]) == Some(m)
    ensures Tolerates(s.calls[d], s.runs[s.calls[c].run], m.run)
  {
    var call, r := s.calls[c], s.calls[c].run;
    var x := s.runs[r];
    CancelMoveLock(x, call);
    CancelCallOk(x, c, call, m);
    assert s.writer == Some(Caller(c)) && !ExecHoldsRunner(x.exec) && !CallWrites(s.calls[d]);
    assert IsFiring(s, r) == call.CancelFire? by { hide RunInv, CancelMove, RunnerLockInv, CallOk; }
    assert CallOk(call, 0, x) by { hide RunInv, RunnerLockInv; }
    hide RunOk, CallOk, ReplyOk, RunnerLockInv, CancelMove, Tolerates, IsFiring;
    CancelTolerates(x, c, call, m, d, s.calls[d], r, Holder(s, r));
  }

  // ---------------------------------------------------------------- factory, consumer, context

  lemma EnvironmentRunOk(x: Run, r: RunId, a: Action, x': Run, holder: Option<Call>, firing: bool)
    requires RunOk(x, r, holder, firing) && EnvironmentRun(x, a) == Some(x')
    ensures MuOk(x', r, holder) && StatusOk(x', r, firing) && ChannelOk(x')
    ensures LogOk(x', r, IsCommitted(holder))
    ensures ExecHoldsRunner(x'.exec) <==> ExecHoldsRunner(x.exec)
    ensures forall c :: Posted(x'.accepted, c) == Posted(x.accepted, c)
    ensures x'.mu == x.mu && x'.closed == x.closed && x'.status == x.status
    ensures PastRecord(x.exec) ==> PastRecord(x'.exec) && Snapshot(x') == Snapshot(x)
  {
    if a.FactorySend? {
      PutLog(r, x, Entry(FromFactory, a.event));
    }
    hide PhaseOf, Agrees, Posted;
  }

  lemma EnvironmentTolerated(call: Call, x: Run, x': Run)
    requires x'.mu == x.mu && x'.closed == x.closed && x'.status == x.status
    requires PastRecord(x.exec) ==> PastRecord(x'.exec) && Snapshot(x') == Snapshot(x)
    ensures Tolerates(call, x, x')
  {
  }

  lemma EnvironmentLock(s: State, r: RunId, x': Run)
    requires RunnerLockInv(s) && r in s.runs && (ExecHoldsRunner(x'.exec) <==> ExecHoldsRunner(s.runs[r].exec))
    ensures RunnerLockInv(SetRun(s, r, x'))
  {
    hide ExecHoldsRunner, CallWrites, CallReads;
  }

  lemma EnvironmentCallInv(s: State, r: RunId, x': Run, c: CallId)
    requires r in s.runs && c in s.calls && CallInv(s, c) && Tolerates(s.calls[c], s.runs[r], x')
    ensures CallInv(SetRun(s, r, x'), c)
  {
    if NeedsRun(s.calls[c]) && s.calls[c].run == r { ToleratesOk(s.calls[c], c, s.runs[r], x'); }
    hide CallOk, Tolerates, NeedsRun;
  }

  lemma EnvironmentOther(s: State, r: RunId, x': Run, q: RunId)
    requires r in s.runs && q in s.runs && q != r && RunInv(s, q)
    ensures RunInv(SetRun(s, r, x'), q)
  {
    hide RunOk, ReplyOk;
    RunFrame(s, SetRun(s, r, x'), q);
  }

  lemma EnvironmentPreserves(s: State, r: RunId, a: Action, x': Run, s': State)
    requires Inv(s) && r in s.runs && EnvironmentRun(s.runs[r], a) == Some(x') && s' == SetRun(s, r, x')
    ensures Inv(s')
  {
    assert RunInv(s, r);
    EnvironmentRunOk(s.runs[r], r, a, x', Holder(s, r), IsFiring(s, r));
    EnvironmentRunInv(s, r, a, x', s');
    EnvironmentLock(s, r, x');
    hide RunOk, ReplyOk, CallOk, CancelOnce;
    assert CancelOnce(s') by { assert s'.calls == s.calls; }
    hide EnvironmentRun, RunnerLockInv, RunInv, Holder, IsFiring, CallInv, HasCancelled, PastRecord, Snapshot;
    forall q | q in s'.runs ensures RunInv(s', q) {
      if q != r { EnvironmentOther(s, r, x', q); }
    }
    forall c | c in s'.calls ensures CallInv(s', c) {
      EnvironmentTolerated(s.calls[c], s.runs[r], x');
      EnvironmentCallInv(s, r, x', c);
    }
  }

  lemma EnvironmentRunInv(s: State, r: RunId, a: Action, x': Run, s': State)
    requires r in s.runs && RunInv(s, r) && EnvironmentRun(s.runs[r], a) == Some(x') && s' == SetRun(s, r, x')
    ensures RunInv(s', r)
  {
    EnvironmentRunOk(s.runs[r], r, a, x', Holder(s, r), IsFiring(s, r));
    hide EnvironmentRun, MuOk, StatusOk, ChannelOk, LogOk;
  }

  // ---------------------------------------------------------------- every step, every schedule

  lemma StepPreserves(s: State, a: Action, s': State)
    requires Inv(s) && Step(s, a) == Some(s')
    ensures Inv(s')
  {
    hide Inv, ExecuteStep, DispatchStep, CancelStep, StatusStep, InterruptStep, EnvironmentRun;
    match a
    case Invoke(c, request) => InvokePreserves(s, c, request, s');
    case Execute(r, now) => ExecutePreserves(s, r, now, s');
    case Advance(c) =>
      var call := s.calls[c];
      if DispatchStep(s, c, call) == Some(s') { DispatchPreserves(s, c, s'); }
      else if CancelStep(s, c, call) == Some(s') { CancelPreserves(s, c, s'); }
      else if StatusStep(s, c, call) == Some(s') { StatusPreserves(s, c, s'); }
      else { InterruptPreserves(s, c, s'); }
    case _ => EnvironmentPreserves(s, a.run, a, EnvironmentRun(s.runs[a.run], a).value, s');
  }

  lemma {:induction false} PlayPreserves(s: State, schedule: seq<Action>)
    requires Inv(s) && Play(s, schedule).Some?
    ensures Inv(Play(s, schedule).value)
    decreases |schedule|
  {
    hide Inv, Step;
    if schedule != [] {
      StepPreserves(s, schedule[0], Step(s, schedule[0]).value);
      PlayPreserves(Step(s, schedule[0]).value, schedule[1..]);
    }
  }

  lemma InitialInv()
    ensures Inv(INITIAL)
  {
  }
}
