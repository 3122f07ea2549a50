/** LiteRunner and runState as the objects they are, updated in place.  Each method is the code between
    taking and releasing the locks, and is proved to do what the step machine does in as many steps. */
module RunnerObjects {
  import opened Options
  import opened RunnerModel
  import opened RunnerTheorems

  /** executeRun's steps under r.mu, up to the point where it lets go. */
  function RecordSection(x: Run, r: RunId, now: int): Option<Run>
    decreases if x.exec.Recording? then 3 else if x.exec.Ended? then 2 else if x.exec.Failing? then 1 else 0
  {
    if x.exec.Unlocking? then Some(x)
    else if x.exec.Recording? || x.exec.Ended? || x.exec.Failing? then
      var next := ExecuteRun(x, r, now);
      if next.None? then None else RecordSection(next.value, r, now)
    else None
  }

  /** An Interrupt call's steps under rs.mu, up to the point where it lets go. */
  function InterruptSection(x: Run, c: CallId, call: Call): Option<Move>
    decreases if call.InterruptHold? then 3 else if call.InterruptOpen? then 2
              else if call.InterruptCommitted? then 1 else 0
  {
    if call.InterruptUnlock? then Some(Move(call, x))
    else if call.InterruptHold? || call.InterruptOpen? || call.InterruptCommitted? then
      var m := InterruptMove(x, c, call);
      if m.None? then None else InterruptSection(m.value.run, c, m.value.call)
    else None
  }

  /** A Cancel call's steps under r.mu on a run it has found. */
  function CancelSection(x: Run, call: Call): Option<Move>
    decreases if call.CancelHold? then 3 else if call.CancelMark? then 2 else if call.CancelFire? then 1 else 0
  {
    if call.CancelUnlock? then Some(Move(call, x))
    else if call.CancelHold? || call.CancelMark? || call.CancelFire? then
      var m := CancelMove(x, call);
      if m.None? then None else CancelSection(m.value.run, m.value.call)
    else None
  }

  /** Unrolled: the whole critical section of executeRun settles on Outcome and its matching event. */
  lemma RecordSectionIs(x: Run, r: RunId, result: Option<string>, now: int)
    requires x.exec == Recording(result)
    ensures RecordSection(x, r, now) == Some(
              if result.None? then
                x.(status := Completed, endedAt := Some(now), exec := Unlocking(Event("run.completed", "", r)))
              else if x.status == Cancelled && x.context == Canceled then
                x.(endedAt := Some(now), exec := Unlocking(Event("error", "run cancelled", r)))
              else
                x.(status := Failed, endedAt := Some(now), err := result.value,
                   exec := Unlocking(Event("error", result.value, r))))
  {
    var x1 := ExecuteRun(x, r, now).value;
    var x2 := ExecuteRun(x1, r, now).value;
    assert RecordSection(x, r, now) == RecordSection(x1, r, now) == RecordSection(x2, r, now);
    if x2.exec.Failing? {
      var x3 := ExecuteRun(x2, r, now).value;
      assert RecordSection(x2, r, now) == RecordSection(x3, r, now) == Some(x3);
    }
  }

  lemma InterruptSectionIs(x: Run, c: CallId, r: RunId, e: Event)
    ensures InterruptSection(x, c, InterruptHold(r, e)) ==
            if x.closed || x.status != Running then Some(Move(InterruptUnlock(r, e, NotActive), x))
            else if x.channelClosed then Some(Move(InterruptUnlock(r, e, Ok), x.(panicked := true)))
            else if |x.buffer| < 64 then
              var entry := Entry(FromInterrupt(c), e);
              Some(Move(InterruptUnlock(r, e, Ok), x.(buffer := x.buffer + [entry], accepted := x.accepted + [entry])))
            else Some(Move(InterruptUnlock(r, e, ChannelFull), x))
  {
    if !x.closed {
      assert InterruptSection(x, c, InterruptHold(r, e)) == InterruptSection(x, c, InterruptOpen(r, e));
      if x.status == Running {
        assert InterruptSection(x, c, InterruptOpen(r, e)) == InterruptSection(x, c, InterruptCommitted(r, e));
        var m := InterruptMove(x, c, InterruptCommitted(r, e)).value;
        assert InterruptSection(x, c, InterruptCommitted(r, e)) == InterruptSection(m.run, c, m.call) == Some(m);
      } else {
        assert InterruptSection(x, c, InterruptOpen(r, e)) ==
               InterruptSection(x, c, InterruptUnlock(r, e, NotActive));
      }
    }
  }

  lemma CancelSectionIs(x: Run, r: RunId)
    ensures CancelSection(x, CancelHold(r)) ==
            if x.status != Running then Some(Move(CancelUnlock(r, NotActive), x))
            else Some(Move(CancelUnlock(r, Ok),
                           x.(status := Cancelled, context := if x.context == Active then Canceled else x.context)))
  {
    if x.status == Running {
      var marked := x.(status := Cancelled);
      assert CancelSection(x, CancelHold(r)) == CancelSection(x, CancelMark(r)) == CancelSection(marked, CancelFire(r));
      var m := CancelMove(marked, CancelFire(r)).value;
      assert CancelSection(marked, CancelFire(r)) == CancelSection(m.run, m.call) == Some(m);
    }
  }

  class RunState {
    var status: Status
    var context: Context
    var closed: bool
    var endedAt: Option<int>
    var err: string
    var events: seq<Entry>
    var channelClosed: bool
    ghost var mu: Option<Owner>
    ghost var panicked: bool
    ghost var exec: ExecPc
    ghost var accepted: seq<Entry>
    ghost var delivered: seq<Entry>

    ghost function View(): Run
      reads this
    {
      Run(status, context, closed, endedAt, err, mu, events, channelClosed, panicked, exec, accepted, delivered)
    }

    constructor (ghost run: RunId)
      ensures View() == Fresh(run)
    {
      status, context, closed, endedAt, err := Running, Active, false, None, "";
      events, channelClosed := [], false;
      mu, panicked, exec, accepted, delivered := None, false, Starting, [], [];
    }

    /** The part of executeRun that records how the factory ended. */
    method RecordOutcome(run: RunId, result: Option<string>, now: int) returns (terminal: Event)
      requires exec == Recording(result)
      modifies this
      ensures RecordSection(old(View()), run, now) == Some(View()) && exec == Unlocking(terminal)
      ensures endedAt == Some(now)
      ensures if result.None? then status == Completed && terminal == Event("run.completed", "", run)
              else if old(status) == Cancelled && old(context) == Canceled then
                status == Cancelled && terminal == Event("error", "run cancelled", run)
              else status == Failed && err == result.value && terminal == Event("error", result.value, run)
    {
      RecordSectionIs(View(), run, result, now);
      endedAt := Some(now);
      if result.Some? {
        if context == Canceled && status == Cancelled {
          terminal := ErrorEvent(run, CANCELLED_TEXT);
        } else {
          status := Failed;
          err := result.value;
          terminal := ErrorEvent(run, result.value);
        }
      } else {
        status := Completed;
        terminal := CompletedEvent(run);
      }
      exec := Unlocking(terminal);
    }

    /** The non-blocking send of Interrupt, behind its two checks. */
    method Post(ghost run: RunId, c: CallId, event: Event) returns (reply: Reply)
      modifies this
      ensures InterruptSection(old(View()), c, InterruptHold(run, event)) ==
              Some(Move(InterruptUnlock(run, event, reply), View()))
      ensures (reply == Ok && !old(channelClosed)) ==> events == old(events) + [Entry(FromInterrupt(c), event)]
      ensures reply != Ok ==> View() == old(View())
    {
      InterruptSectionIs(View(), c, run, event);
      if closed {
        return NotActive;
      }
      if status != Running {
        return NotActive;
      }
      if channelClosed {
        panicked := true;
        return Ok;
      }
      if |events| < CAPACITY {
        events := events + [Entry(FromInterrupt(c), event)];
        accepted := accepted + [Entry(FromInterrupt(c), event)];
        return Ok;
      }
      return ChannelFull;
    }

    method Cancel(ghost run: RunId) returns (reply: Reply)
      modifies this`status, this`context
      ensures CancelSection(old(View()), CancelHold(run)) == Some(Move(CancelUnlock(run, reply), View()))
      ensures reply == (if old(status) == Running then Ok else NotActive)
    {
      CancelSectionIs(View(), run);
      if status != Running {
        return NotActive;
      }
      status := Cancelled;
      if context == Active {
        context := Canceled;
      }
      return Ok;
    }

    /** chanEventStream.Next: None while the call would block, Some(None) for io.EOF. */
    method Next() returns (next: Option<Option<Entry>>)
      modifies this`events, this`delivered
      ensures old(events) != [] ==>
                && next == Some(Some(old(events)[0]))
                && EnvironmentRun(old(View()), Receive("")) == Some(View())
      ensures old(events) == [] ==> next == (if channelClosed then Some(None) else None) && View() == old(View())
    {
      if events == [] {
        return if channelClosed then Some(None) else None;
      }
      next := Some(Some(events[0]));
      delivered := delivered + [events[0]];
      events := events[1..];
    }
  }

  class LiteRunner {
    var runs: map<RunId, RunState>

    /** Every run has its own runState. */
    ghost predicate Valid()
      reads this
    {
      forall q, r :: q in runs && r in runs && runs[q] == runs[r] ==> q == r
    }

    constructor ()
      ensures Valid() && runs == map[]
    {
      runs := map[];
    }

    method Dispatch(runID: RunId) returns (reply: Reply, rs: RunState?)
      requires Valid()
      modifies this
      ensures Valid()
      ensures runID in old(runs) ==> reply == Conflict && runs == old(runs)
      ensures runID !in old(runs) ==>
                reply == Ok && rs != null && fresh(rs) && rs.View() == Fresh(runID) && runs == old(runs)[runID := rs]
    {
      if runID in runs {
        return Conflict, null;
      }
      rs := new RunState(runID);
      runs := runs[runID := rs];
      return Ok, rs;
    }

    method Interrupt(c: CallId, runID: RunId, event: Event) returns (reply: Reply)
      requires Valid()
      modifies if runID in runs then {runs[runID]} else {}
      ensures runID !in runs ==> reply == NotFound
      ensures runID in runs ==>
                InterruptSection(old(runs[runID].View()), c, InterruptHold(runID, event)) ==
                Some(Move(InterruptUnlock(runID, event, reply), runs[runID].View()))
      ensures forall q :: q in runs && q != runID ==> runs[q].View() == old(runs[q].View())
    {
      if runID !in runs {
        return NotFound;
      }
      reply := runs[runID].Post(runID, c, event);
    }

    method Cancel(runID: RunId) returns (reply: Reply)
      requires Valid()
      modifies if runID in runs then {runs[runID]} else {}
      ensures runID !in runs ==> reply == NotFound
      ensures runID in runs ==>
                CancelSection(old(runs[runID].View()), CancelHold(runID)) ==
                Some(Move(CancelUnlock(runID, reply), runs[runID].View()))
      ensures forall q :: q in runs && q != runID ==> runs[q].View() == old(runs[q].View())
    {
      if runID !in runs {
        return NotFound;
      }
      reply := runs[runID].Cancel(runID);
    }

    method Status(runID: RunId) returns (answer: Option<RunStatus>)
      requires Valid()
      ensures runID !in runs ==> answer.None?
      ensures runID in runs ==>
                var x := runs[runID].View();
                answer.Some? && answer.value.status == x.status && answer.value.endedAt == x.endedAt
                && answer.value.err == x.err
    {
      if runID !in runs {
        return None;
      }
      var rs := runs[runID];
      return Some(RunStatus(rs.status, rs.endedAt, rs.err));
    }
  }
}
