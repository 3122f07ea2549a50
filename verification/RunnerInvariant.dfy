/** What every interleaving of the run protocol keeps. */
module RunnerInvariant {
  import opened Options
  import opened RunnerModel

  /** The shape an event log can have, as an automaton over its entries: interrupts before the run
      has started, then run.started, then factory events and interrupts, then the terminal event,
      then `late` further interrupts. */
  datatype Phase = Before | During | After(terminal: Event, late: nat) | Malformed

  ghost predicate IsTerminal(r: RunId, e: Event) {
    e == CompletedEvent(r) || (e.kind == ERROR && e.id == r)
  }

  ghost function AdvancePhase(r: RunId, p: Phase, e: Entry): Phase {
    match p
    case Before =>
      if e.source.FromInterrupt? then Before
      else if e == Entry(FromRunner, StartedEvent(r)) then During
      else Malformed
    case During =>
      if !e.source.FromRunner? then During
      else if IsTerminal(r, e.event) then After(e.event, 0)
      else Malformed
    case After(t, late) => if e.source.FromInterrupt? then After(t, late + 1) else Malformed
    case Malformed => Malformed
  }

  ghost function PhaseOf(r: RunId, log: seq<Entry>): Phase {
    if log == [] then Before else AdvancePhase(r, PhaseOf(r, log[..|log| - 1]), log[|log| - 1])
  }

  /** The events interrupt call c put on the channel, in order. */
  ghost function Posted(log: seq<Entry>, c: CallId): seq<Event> {
    if log == [] then []
    else
      var last := log[|log| - 1];
      Posted(log[..|log| - 1], c) + (if last.source == FromInterrupt(c) then [last.event] else [])
  }

  lemma PhaseSnoc(r: RunId, log: seq<Entry>, e: Entry)
    ensures PhaseOf(r, log + [e]) == AdvancePhase(r, PhaseOf(r, log), e)
  {
    assert (log + [e])[..|log|] == log;
  }

  lemma PostedSnoc(log: seq<Entry>, e: Entry, c: CallId)
    ensures Posted(log + [e], c) ==
            Posted(log, c) + (if e.source == FromInterrupt(c) then [e.event] else [])
  {
    assert (log + [e])[..|log|] == log;
  }

  // ---------------------------------------------------------------- program counters and locks

  ghost predicate ExecHoldsRunner(x: ExecPc) {
    x.Recording? || x.Ended? || x.Failing? || x.Unlocking?
  }

  ghost predicate ExecHoldsState(x: ExecPc) { x.Flagging? || x.Closing? || x.Releasing? }

  /** The outcome is recorded and published: r.mu has been released. */
  ghost predicate PastRecord(x: ExecPc) { x.Sending? || AfterSend(x) }

  ghost predicate AfterSend(x: ExecPc) { x.WantState? || ExecHoldsState(x) || x.Exited? }

  ghost predicate CallWrites(c: Call) {
    || c.DispatchHold? || c.DispatchUnlock?
    || c.CancelHold? || c.CancelMark? || c.CancelFire? || c.CancelUnlock?
  }

  ghost predicate CallReads(c: Call) {
    c.InterruptLookup? || c.InterruptLooked? || c.StatusHold? || c.StatusUnlock?
  }

  ghost predicate CallHoldsState(c: Call) {
    c.InterruptHold? || c.InterruptOpen? || c.InterruptCommitted? || c.InterruptUnlock?
  }

  /** The call that holds rs.mu of run r, if any. */
  ghost function Holder(s: State, r: RunId): Option<Call>
    requires r in s.runs
  {
    var mu := s.runs[r].mu;
    if mu.Some? && mu.value.Caller? && mu.value.call in s.calls then Some(s.calls[mu.value.call]) else None
  }

  /** Some Cancel call has marked run r but not yet cancelled its context. */
  ghost predicate IsFiring(s: State, r: RunId) {
    && s.writer.Some? && s.writer.value.Caller? && s.writer.value.call in s.calls
    && s.calls[s.writer.value.call] == CancelFire(r)
  }

  /** r.mu belongs to exactly the goroutine whose program counter lies in its critical section. */
  ghost predicate RunnerLockInv(s: State) {
    && (forall r :: r in s.runs ==> (ExecHoldsRunner(s.runs[r].exec) <==> s.writer == Some(Executor(r))))
    && (forall c :: c in s.calls ==> (CallWrites(s.calls[c]) <==> s.writer == Some(Caller(c))))
    && (forall c :: c in s.calls ==> (CallReads(s.calls[c]) <==> c in s.readers))
    && s.readers <= s.calls.Keys
    && (s.writer.Some? ==> s.readers == {})
    && (s.writer.Some? && s.writer.value.Executor? ==> s.writer.value.run in s.runs)
    && (s.writer.Some? && s.writer.value.Caller? ==> s.writer.value.call in s.calls)
  }

  // ---------------------------------------------------------------- one run

  ghost predicate MuOk(x: Run, r: RunId, holder: Option<Call>) {
    && (ExecHoldsState(x.exec) <==> x.mu == Some(Executor(r)))
    && (x.mu.Some? && x.mu.value.Executor? ==> x.mu.value.run == r)
    && (x.mu.Some? && x.mu.value.Caller? ==>
          holder.Some? && CallHoldsState(holder.value) && holder.value.run == r)
    && (holder.Some? ==> x.mu.Some? && x.mu.value.Caller?)
  }

  ghost predicate IsCommitted(holder: Option<Call>) { holder.Some? && holder.value.InterruptCommitted? }

  /** The terminal event tells the recorded outcome. */
  ghost predicate Agrees(r: RunId, status: Status, err: string, terminal: Event) {
    match status
    case Running => false
    case Completed => terminal == CompletedEvent(r) && err == ""
    case Failed => terminal == ErrorEvent(r, err)
    case Cancelled => terminal == ErrorEvent(r, CANCELLED_TEXT) && err == ""
  }

  ghost predicate IsOpen(x: Run) { (x.status == Running || x.status == Cancelled) && x.err == "" }

  ghost predicate StatusOk(x: Run, r: RunId, firing: bool) {
    && (x.status == Cancelled ==> x.context != Active || firing)
    && match x.exec
       case Starting | InFactory | WantRunner(_) | Recording(_) => x.endedAt.None? && IsOpen(x)
       case Ended(_) => x.endedAt.Some? && IsOpen(x)
       case Failing(_) => x.endedAt.Some? && x.status == Failed && x.err == ""
       case Unlocking(terminal) => x.endedAt.Some? && Agrees(r, x.status, x.err, terminal)
       case Sending(terminal) => x.endedAt.Some? && Agrees(r, x.status, x.err, terminal)
       case _ => x.endedAt.Some? && x.status != Running
  }

  ghost predicate ChannelOk(x: Run) {
    && !x.panicked
    && x.accepted == x.delivered + x.buffer
    && |x.buffer| <= CAPACITY
    && (x.closed <==> x.exec.Closing? || x.exec.Releasing? || x.exec.Exited?)
    && (x.channelClosed <==> x.exec.Releasing? || x.exec.Exited?)
  }

  ghost predicate LogOk(x: Run, r: RunId, committed: bool) {
    var p := PhaseOf(r, x.accepted);
    && (x.exec.Starting? ==> p == Before)
    && (!x.exec.Starting? && !AfterSend(x.exec) ==> p == During)
    && (AfterSend(x.exec) ==>
          && p.After? && Agrees(r, x.status, x.err, p.terminal)
          && p.late + (if committed then 1 else 0) <= 1)
  }

  ghost predicate RunOk(x: Run, r: RunId, holder: Option<Call>, firing: bool) {
    MuOk(x, r, holder) && StatusOk(x, r, firing) && ChannelOk(x) && LogOk(x, r, IsCommitted(holder))
  }

  // ---------------------------------------------------------------- one call

  /** The events call c has put on run r's channel, by its program counter. */
  ghost function Claims(s: State, c: CallId, r: RunId): seq<Event> {
    if c in s.calls && s.calls[c].run == r then ClaimOf(s.calls[c]) else []
  }

  ghost function ClaimOf(call: Call): seq<Event> {
    if (call.InterruptUnlock? || call.InterruptDone?) && call.reply == Ok then [call.event] else []
  }

  ghost predicate ReplyOk(s: State, r: RunId)
    requires r in s.runs
  {
    forall c :: Posted(s.runs[r].accepted, c) == Claims(s, c, r)
  }

  /** Calls that have found their run. */
  ghost predicate NeedsRun(c: Call) {
    || CallHoldsState(c) || c.InterruptWant? || c.CancelMark? || HasCancelled(c)
    || (c.InterruptLooked? && c.found)
    || (c.InterruptDone? && c.reply != NotFound)
    || ((c.StatusUnlock? || c.StatusDone?) && c.answer.Some?)
  }

  /** This Cancel call has changed the run's status. */
  ghost predicate HasCancelled(c: Call) {
    c.CancelFire? || ((c.CancelUnlock? || c.CancelDone?) && c.reply == Ok)
  }

  /** What call c knows about the run it has found. */
  ghost predicate CallOk(call: Call, c: CallId, x: Run) {
    && (CallHoldsState(call) ==> x.mu == Some(Caller(c)))
    && (call.InterruptOpen? || call.InterruptCommitted? ==> !x.closed)
    && (call.CancelMark? ==> x.status == Running)
    && (call.CancelFire? ==> x.status == Cancelled)
    && (HasCancelled(call) ==> x.status != Running)
    && ((call.StatusUnlock? || call.StatusDone?) && call.answer.Some? && call.answer.value.endedAt.Some? ==>
          call.answer.value == Snapshot(x) && PastRecord(x.exec))
    && ((call.StatusUnlock? || call.StatusDone?) && call.answer.Some? && call.answer.value.endedAt.None? ==>
          (call.answer.value.status == Running || call.answer.value.status == Cancelled)
          && call.answer.value.err == "")
  }

  ghost predicate CallInv(s: State, c: CallId)
    requires c in s.calls
  {
    NeedsRun(s.calls[c]) ==> s.calls[c].run in s.runs && CallOk(s.calls[c], c, s.runs[s.calls[c].run])
  }

  /** Two Cancel calls cannot both change the status of one run. */
  ghost predicate CancelOnce(s: State) {
    forall c, d :: c in s.calls && d in s.calls && c != d && s.calls[c].run == s.calls[d].run ==>
      !(HasCancelled(s.calls[c]) && HasCancelled(s.calls[d]))
  }

  ghost predicate RunInv(s: State, r: RunId)
    requires r in s.runs
  {
    RunOk(s.runs[r], r, Holder(s, r), IsFiring(s, r)) && ReplyOk(s, r)
  }

  ghost predicate Inv(s: State) {
    && RunnerLockInv(s)
    && (forall r :: r in s.runs ==> RunInv(s, r))
    && (forall c :: c in s.calls ==> CallInv(s, c))
    && CancelOnce(s)
  }
}
