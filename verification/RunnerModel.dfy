/** The run protocol of LiteRunner as a step machine.
    One step is one shared-memory access, lock operation or channel operation of one goroutine;
    the scheduler may pick any enabled step.  Fields are sequentially consistent. */
module RunnerModel {
  import opened Options

  const CAPACITY: nat := 64
  const RUN_STARTED := "run.started"
  const RUN_COMPLETED := "run.completed"
  const ERROR := "error"
  const CANCELLED_TEXT := "run cancelled"

  type RunId = string
  type CallId = nat

  datatype Event = Event(kind: string, content: string, id: string)

  /** Who put an event on the channel.  Event kinds are chosen by the sender, so they cannot tell. */
  datatype Source = FromRunner | FromFactory | FromInterrupt(call: CallId)
  datatype Entry = Entry(source: Source, event: Event)

  datatype Status = Running | Cancelled | Failed | Completed
  /** What ctx.Err() answers. */
  datatype Context = Active | Canceled | DeadlineExceeded

  /** Program counter of executeRun; `result` is the error the factory returned, None for nil. */
  datatype ExecPc =
    | Starting                            // about to send run.started
    | InFactory
    | WantRunner(result: Option<string>)  // blocked on r.mu
    | Recording(result: Option<string>)   // holds r.mu
    | Ended(result: Option<string>)       // holds r.mu, endedAt written
    | Failing(message: string)            // holds r.mu, status written, err not yet
    | Unlocking(terminal: Event)          // holds r.mu, everything recorded
    | Sending(terminal: Event)            // holds nothing, about to send the terminal event
    | WantState                           // deferred function, blocked on rs.mu
    | Flagging                            // holds rs.mu
    | Closing                             // holds rs.mu, rs.closed written
    | Releasing                           // holds rs.mu, channel closed
    | Exited

  datatype Owner = Executor(run: RunId) | Caller(call: CallId)

  /** A runState with its channel.  `accepted` and `delivered` are histories: everything ever put on
      the channel and everything ever taken off it. */
  datatype Run = Run(
    status: Status, context: Context, closed: bool, endedAt: Option<int>, err: string,
    mu: Option<Owner>, buffer: seq<Entry>, channelClosed: bool, panicked: bool,
    exec: ExecPc, accepted: seq<Entry>, delivered: seq<Entry>)

  datatype Reply = Ok | NotFound | NotActive | Conflict | ChannelFull
  datatype RunStatus = RunStatus(status: Status, endedAt: Option<int>, err: string)

  /** Program counter of one API call; a call keeps its identity after it has returned. */
  datatype Call =
    | DispatchWant(run: RunId)                                 // blocked on r.mu
    | DispatchHold(run: RunId)                                 // holds r.mu
    | DispatchUnlock(run: RunId, reply: Reply)                 // holds r.mu
    | DispatchDone(run: RunId, reply: Reply)
    | InterruptWantRunner(run: RunId, event: Event)            // blocked on r.mu (read)
    | InterruptLookup(run: RunId, event: Event)                // holds r.mu (read)
    | InterruptLooked(run: RunId, event: Event, found: bool)   // holds r.mu (read)
    | InterruptWant(run: RunId, event: Event)                  // blocked on rs.mu
    | InterruptHold(run: RunId, event: Event)                  // holds rs.mu
    | InterruptOpen(run: RunId, event: Event)                  // holds rs.mu, read closed == false
    | InterruptCommitted(run: RunId, event: Event)             // holds rs.mu, read status == "running"
    | InterruptUnlock(run: RunId, event: Event, reply: Reply)  // holds rs.mu
    | InterruptDone(run: RunId, event: Event, reply: Reply)
    | CancelWant(run: RunId)                                   // blocked on r.mu
    | CancelHold(run: RunId)                                   // holds r.mu
    | CancelMark(run: RunId)                                   // holds r.mu, read status == "running"
    | CancelFire(run: RunId)                                   // holds r.mu, status written
    | CancelUnlock(run: RunId, reply: Reply)                   // holds r.mu
    | CancelDone(run: RunId, reply: Reply)
    | StatusWant(run: RunId)                                   // blocked on r.mu (read)
    | StatusHold(run: RunId)                                   // holds r.mu (read)
    | StatusUnlock(run: RunId, answer: Option<RunStatus>)      // holds r.mu (read)
    | StatusDone(run: RunId, answer: Option<RunStatus>)

  /** The shared state: r.mu (a writer or a set of readers), the runs map and all API calls so far. */
  datatype State = State(
    writer: Option<Owner>, readers: set<CallId>, runs: map<RunId, Run>, calls: map<CallId, Call>)

  const INITIAL := State(None, {}, map[], map[])

  datatype Action =
    | Invoke(call: CallId, request: Call)              // a client starts an API call
    | Advance(call: CallId)                            // the call's next step
    | Execute(run: RunId, now: int)                    // executeRun's next step outside the factory
    | FactorySend(run: RunId, event: Event)
    | FactoryReturn(run: RunId, result: Option<string>)
    | Receive(run: RunId)                              // chanEventStream.Next takes one event
    | ParentDone(run: RunId, reason: Context)          // the caller's context ends

  function Fresh(run: RunId): Run {
    Run(Running, Active, false, None, "", None, [], false, false, Starting, [], [])
  }

  function StartedEvent(run: RunId): Event { Event(RUN_STARTED, "", run) }
  function CompletedEvent(run: RunId): Event { Event(RUN_COMPLETED, "", run) }
  function ErrorEvent(run: RunId, message: string): Event { Event(ERROR, message, run) }

  predicate IsRequest(c: Call) {
    c.DispatchWant? || c.InterruptWantRunner? || c.CancelWant? || c.StatusWant?
  }

  /** Appending to a channel that has room; sending on a closed channel panics. */
  function Put(x: Run, e: Entry): Run {
    if x.channelClosed then x.(panicked := true)
    else x.(buffer := x.buffer + [e], accepted := x.accepted + [e])
  }

  predicate HasRoom(x: Run) { x.channelClosed || |x.buffer| < CAPACITY }

  function CloseChannel(x: Run): Run {
    if x.channelClosed then x.(panicked := true) else x.(channelClosed := true)
  }

  predicate WriteFree(s: State) { s.writer.None? && s.readers == {} }

  function SetRun(s: State, r: RunId, x: Run): State { s.(runs := s.runs[r := x]) }
  function SetCall(s: State, c: CallId, call: Call): State { s.(calls := s.calls[c := call]) }

  /** What executeRun's next step does to its run, once r.mu is granted where it is needed. */
  function ExecuteRun(x: Run, r: RunId, now: int): Option<Run> {
    match x.exec
    case Starting =>
      if HasRoom(x) then Some(Put(x, Entry(FromRunner, StartedEvent(r))).(exec := InFactory)) else None
    case InFactory => None
    case WantRunner(result) => Some(x.(exec := Recording(result)))
    case Recording(result) => Some(x.(endedAt := Some(now), exec := Ended(result)))
    case Ended(result) =>
      Some(
        if result.None? then x.(status := Completed, exec := Unlocking(CompletedEvent(r)))
        else if x.context == Canceled && x.status == Cancelled then
          x.(exec := Unlocking(ErrorEvent(r, CANCELLED_TEXT)))
        else x.(status := Failed, exec := Failing(result.value)))
    case Failing(message) => Some(x.(err := message, exec := Unlocking(ErrorEvent(r, message))))
    case Unlocking(terminal) => Some(x.(exec := Sending(terminal)))
    case Sending(terminal) =>
      if HasRoom(x) then Some(Put(x, Entry(FromRunner, terminal)).(exec := WantState)) else None
    case WantState =>
      if x.mu.None? then Some(x.(mu := Some(Executor(r)), exec := Flagging)) else None
    case Flagging => Some(x.(closed := true, exec := Closing))
    case Closing => Some(CloseChannel(x).(exec := Releasing))
    case Releasing => Some(x.(mu := None, exec := Exited))
    case Exited => None
  }

  function ExecuteStep(s: State, r: RunId, now: int): Option<State>
    requires r in s.runs
  {
    var x := s.runs[r];
    var x' := ExecuteRun(x, r, now);
    if x'.None? || (x.exec.WantRunner? && !WriteFree(s)) then None
    else if x.exec.WantRunner? then Some(SetRun(s, r, x'.value).(writer := Some(Executor(r))))
    else if x.exec.Unlocking? then Some(SetRun(s, r, x'.value).(writer := None))
    else Some(SetRun(s, r, x'.value))
  }

  function DispatchStep(s: State, c: CallId, call: Call): Option<State> {
    match call
    case DispatchWant(r) =>
      if WriteFree(s) then Some(SetCall(s, c, DispatchHold(r)).(writer := Some(Caller(c)))) else None
    case DispatchHold(r) =>
      if r in s.runs then Some(SetCall(s, c, DispatchUnlock(r, Conflict)))
      else Some(SetRun(SetCall(s, c, DispatchUnlock(r, Ok)), r, Fresh(r)))
    case DispatchUnlock(r, reply) => Some(SetCall(s, c, DispatchDone(r, reply)).(writer := None))
    case _ => None
  }

  /** The effect of an API call's step on the call itself and on the run it found. */
  datatype Move = Move(call: Call, run: Run)

  function Apply(s: State, c: CallId, r: RunId, m: Option<Move>): Option<State> {
    if m.None? then None else Some(SetRun(SetCall(s, c, m.value.call), r, m.value.run))
  }

  function InterruptMove(x: Run, c: CallId, call: Call): Option<Move> {
    match call
    case InterruptWant(r, e) =>
      if x.mu.None? then Some(Move(InterruptHold(r, e), x.(mu := Some(Caller(c))))) else None
    case InterruptHold(r, e) =>
      Some(Move(if x.closed then InterruptUnlock(r, e, NotActive) else InterruptOpen(r, e), x))
    case InterruptOpen(r, e) =>
      Some(Move(if x.status != Running then InterruptUnlock(r, e, NotActive) else InterruptCommitted(r, e), x))
    case InterruptCommitted(r, e) =>
      if HasRoom(x) then Some(Move(InterruptUnlock(r, e, Ok), Put(x, Entry(FromInterrupt(c), e))))
      else Some(Move(InterruptUnlock(r, e, ChannelFull), x))
    case InterruptUnlock(r, e, reply) => Some(Move(InterruptDone(r, e, reply), x.(mu := None)))
    case _ => None
  }

  /** Reading the runs map under r.mu, then working on the run under rs.mu.  Runs are never removed,
      so the run a call has found stays the one under its key. */
  function InterruptStep(s: State, c: CallId, call: Call): Option<State> {
    match call
    case InterruptWantRunner(r, e) =>
      if s.writer.None? then
        Some(SetCall(s, c, InterruptLookup(r, e)).(readers := s.readers + {c}))
      else None
    case InterruptLookup(r, e) => Some(SetCall(s, c, InterruptLooked(r, e, r in s.runs)))
    case InterruptLooked(r, e, found) =>
      Some(SetCall(s, c, if found then InterruptWant(r, e) else InterruptDone(r, e, NotFound))
           .(readers := s.readers - {c}))
    case _ =>
      if call.run !in s.runs then None
      else Apply(s, c, call.run, InterruptMove(s.runs[call.run], c, call))
  }

  function CancelMove(x: Run, call: Call): Option<Move> {
    match call
    case CancelHold(r) => Some(Move(if x.status != Running then CancelUnlock(r, NotActive) else CancelMark(r), x))
    case CancelMark(r) => Some(Move(CancelFire(r), x.(status := Cancelled)))
    case CancelFire(r) =>
      Some(Move(CancelUnlock(r, Ok), if x.context == Active then x.(context := Canceled) else x))
    case _ => None
  }

  function CancelStep(s: State, c: CallId, call: Call): Option<State> {
    match call
    case CancelWant(r) =>
      if WriteFree(s) then Some(SetCall(s, c, CancelHold(r)).(writer := Some(Caller(c)))) else None
    case CancelUnlock(r, reply) => Some(SetCall(s, c, CancelDone(r, reply)).(writer := None))
    case _ =>
      if call.run !in s.runs then
        if call.CancelHold? then Some(SetCall(s, c, CancelUnlock(call.run, NotFound))) else None
      else Apply(s, c, call.run, CancelMove(s.runs[call.run], call))
  }

  function Snapshot(x: Run): RunStatus { RunStatus(x.status, x.endedAt, x.err) }

  function StatusStep(s: State, c: CallId, call: Call): Option<State> {
    match call
    case StatusWant(r) =>
      if s.writer.None? then Some(SetCall(s, c, StatusHold(r)).(readers := s.readers + {c})) else None
    case StatusHold(r) =>
      Some(SetCall(s, c, StatusUnlock(r, if r in s.runs then Some(Snapshot(s.runs[r])) else None)))
    case StatusUnlock(r, answer) =>
      Some(SetCall(s, c, StatusDone(r, answer)).(readers := s.readers - {c}))
    case _ => None
  }

  function CallStep(s: State, c: CallId, call: Call): Option<State> {
    if call.DispatchWant? || call.DispatchHold? || call.DispatchUnlock? then DispatchStep(s, c, call)
    else if call.CancelWant? || call.CancelHold? || call.CancelMark? || call.CancelFire? || call.CancelUnlock?
    then CancelStep(s, c, call)
    else if call.StatusWant? || call.StatusHold? || call.StatusUnlock? then StatusStep(s, c, call)
    else InterruptStep(s, c, call)
  }

  /** Steps of the factory, the consumer and the caller's context on one run: an empty buffer blocks
      the consumer, or ends its stream when the channel is closed. */
  function EnvironmentRun(x: Run, a: Action): Option<Run> {
    match a
    case FactorySend(_, e) =>
      if x.exec == InFactory && HasRoom(x) then Some(Put(x, Entry(FromFactory, e))) else None
    case FactoryReturn(_, result) =>
      if x.exec == InFactory then Some(x.(exec := WantRunner(result))) else None
    case Receive(_) =>
      if x.buffer == [] then None
      else Some(x.(buffer := x.buffer[1..], delivered := x.delivered + [x.buffer[0]]))
    case ParentDone(_, reason) =>
      if x.context == Active && reason != Active then Some(x.(context := reason)) else None
    case _ => None
  }

  /** One step of the machine; None when the chosen action is not enabled. */
  function Step(s: State, a: Action): Option<State> {
    match a
    case Invoke(c, request) =>
      if c in s.calls || !IsRequest(request) then None else Some(SetCall(s, c, request))
    case Advance(c) => if c in s.calls then CallStep(s, c, s.calls[c]) else None
    case Execute(r, now) => if r in s.runs then ExecuteStep(s, r, now) else None
    case _ =>
      if a.run !in s.runs then None
      else
        var x := EnvironmentRun(s.runs[a.run], a);
        if x.None? then None else Some(SetRun(s, a.run, x.value))
  }

  /** A whole schedule; None as soon as one of its actions is not enabled. */
  function Play(s: State, schedule: seq<Action>): Option<State>
    decreases |schedule|
  {
    if schedule == [] then Some(s)
    else
      var next := Step(s, schedule[0]);
      if next.None? then None else Play(next.value, schedule[1..])
  }

  lemma {:induction false} PlayAppend(s: State, first: seq<Action>, second: seq<Action>)
    requires Play(s, first).Some?
    ensures Play(s, first + second) == Play(Play(s, first).value, second)
    decreases |first|
  {
    if first == [] {
      assert first + second == second;
    } else {
      assert (first + second)[1..] == first[1..] + second;
      PlayAppend(Step(s, first[0]).value, first[1..], second);
    }
  }
}
