/** Schedules that show where LiteRunner's guarantees end. */
module RunnerWitnesses {
  import opened Options
  import opened RunnerModel
  import opened RunnerInvariant
  import opened RunnerTheorems

  lemma Extend(schedule: seq<Action>, s: State, a: Action, s': State) returns (longer: seq<Action>)
    requires Reaches(schedule, s) && Step(s, a).Some?
    requires Step(s, a).value.writer == s'.writer && Step(s, a).value.readers == s'.readers
    requires Step(s, a).value.runs == s'.runs && Step(s, a).value.calls == s'.calls
    ensures longer == schedule + [a] && Reaches(longer, s')
  {
    hide Step;
    longer := schedule + [a];
    PlayAppend(INITIAL, schedule, [a]);
    assert [a][1..] == [];
    assert Play(s, [a]) == Play(s', []);
  }

  /** A state with the single run r, whose r.mu is free. */
  ghost function Lone(r: RunId, x: Run, calls: map<CallId, Call>): State {
    State(None, {}, map[r := x], calls)
  }

  ghost function Started(r: RunId): Run {
    var log := [Entry(FromRunner, StartedEvent(r))];
    Fresh(r).(exec := InFactory, buffer := log, accepted := log)
  }

  /** A run that call 0 has dispatched and that is now inside its factory. */
  lemma InsideFactory(r: RunId) returns (schedule: seq<Action>, s: State)
    ensures Reaches(schedule, s) && s == Lone(r, Started(r), map[0 := DispatchDone(r, Ok)])
  {
    s := INITIAL;
    var s1 := State(None, {}, map[], map[0 := DispatchWant(r)]);
    schedule := Extend([], s, Invoke(0, DispatchWant(r)), s1);
    var s2 := State(Some(Caller(0)), {}, map[], map[0 := DispatchHold(r)]);
    schedule := Extend(schedule, s1, Advance(0), s2);
    var s3 := State(Some(Caller(0)), {}, map[r := Fresh(r)], map[0 := DispatchUnlock(r, Ok)]);
    schedule := Extend(schedule, s2, Advance(0), s3);
    var s4 := Lone(r, Fresh(r), map[0 := DispatchDone(r, Ok)]);
    schedule := Extend(schedule, s3, Advance(0), s4);
    s := Lone(r, Started(r), s4.calls);
    assert [] + Started(r).buffer == Started(r).buffer;
    schedule := Extend(schedule, s4, Execute(r, 0), s);
  }

  /** executeRun from the factory's return to the moment it holds r.mu ... */
  lemma TakeRunner(schedule: seq<Action>, r: RunId, x: Run, calls: map<CallId, Call>, result: Option<string>)
    returns (longer: seq<Action>)
    requires Reaches(schedule, Lone(r, x, calls)) && x.exec == InFactory
    ensures Reaches(longer, Lone(r, x.(exec := Recording(result)), calls).(writer := Some(Executor(r))))
  {
    hide CallStep, Reaches;
    var s1 := Lone(r, x.(exec := WantRunner(result)), calls);
    longer := Extend(schedule, Lone(r, x, calls), FactoryReturn(r, result), s1);
    var s2 := Lone(r, x.(exec := Recording(result)), calls).(writer := Some(Executor(r)));
    longer := Extend(longer, s1, Execute(r, 0), s2);
  }

  /** ... and to the moment it has decided under it. */
  lemma Decide(schedule: seq<Action>, r: RunId, x: Run, calls: map<CallId, Call>, result: Option<string>, x': Run)
    returns (longer: seq<Action>)
    requires Reaches(schedule, Lone(r, x, calls)) && x.exec == InFactory
    requires ExecuteRun(x.(exec := Ended(result), endedAt := Some(0)), r, 0) == Some(x')
    ensures Reaches(longer, Lone(r, x', calls).(writer := Some(Executor(r))))
  {
    longer := TakeRunner(schedule, r, x, calls, result);
    hide CallStep, Reaches, EnvironmentRun;
    var s2 := Lone(r, x.(exec := Recording(result)), calls).(writer := Some(Executor(r)));
    var s3 := Lone(r, x.(exec := Ended(result), endedAt := Some(0)), calls).(writer := Some(Executor(r)));
    longer := Extend(longer, s2, Execute(r, 0), s3);
    longer := Extend(longer, s3, Execute(r, 0), Lone(r, x', calls).(writer := Some(Executor(r))));
  }

  lemma Complete(schedule: seq<Action>, r: RunId, x: Run, calls: map<CallId, Call>)
    returns (longer: seq<Action>, x': Run)
    requires Reaches(schedule, Lone(r, x, calls)) && x.exec == InFactory && HasRoom(x) && !x.channelClosed
    ensures Reaches(longer, Lone(r, x', calls))
    ensures x' == Put(x, Entry(FromRunner, CompletedEvent(r)))
                  .(exec := WantState, endedAt := Some(0), status := Completed)
  {
    var done := x.(exec := Unlocking(CompletedEvent(r)), endedAt := Some(0), status := Completed);
    longer := Decide(schedule, r, x, calls, None, done);
    var s := Lone(r, done, calls).(writer := Some(Executor(r)));
    var sending := done.(exec := Sending(CompletedEvent(r)));
    longer := Extend(longer, s, Execute(r, 0), Lone(r, sending, calls));
    x' := Put(x, Entry(FromRunner, CompletedEvent(r))).(exec := WantState, endedAt := Some(0), status := Completed);
    longer := Extend(longer, Lone(r, sending, calls), Execute(r, 0), Lone(r, x', calls));
  }

  /** Call 1's next step, from one program counter to the next. */
  lemma AdvanceCall(schedule: seq<Action>, s: State, next: Call, s': State) returns (longer: seq<Action>)
    requires Reaches(schedule, s) && 1 in s.calls && CallStep(s, 1, s.calls[1]).Some?
    requires var t := CallStep(s, 1, s.calls[1]).value;
             t.calls == s.calls[1 := next] && t.runs == s'.runs
             && t.writer == s'.writer && t.readers == s'.readers
    requires s'.calls == s.calls[1 := next]
    ensures Reaches(longer, s')
  {
    hide CallStep;
    longer := Extend(schedule, s, Advance(1), s');
  }

  ghost function Marked(x: Run): Run { x.(status := Cancelled) }

  ghost function Fired(x: Run): Run {
    x.(status := Cancelled, context := if x.context == Active then Canceled else x.context)
  }

  /** A Cancel call cancels the run with success while its factory is at work. */
  lemma CancelInsideFactory(schedule: seq<Action>, r: RunId, x: Run, d: map<CallId, Call>)
    returns (longer: seq<Action>)
    requires Reaches(schedule, Lone(r, x, d)) && x.status == Running && 1 !in d
    ensures Reaches(longer, Lone(r, Fired(x), d[1 := CancelDone(r, Ok)]))
  {
    hide DispatchStep, StatusStep, InterruptStep, ExecuteStep, EnvironmentRun, Reaches;
    longer := CancelMarks(schedule, r, x, d);
    var s := Lone(r, Marked(x), d[1 := CancelFire(r)]).(writer := Some(Caller(1)));
    var s1 := Lone(r, Fired(x), d[1 := CancelUnlock(r, Ok)]).(writer := Some(Caller(1)));
    longer := AdvanceCall(longer, s, CancelUnlock(r, Ok), s1);
    var s2 := Lone(r, Fired(x), d[1 := CancelDone(r, Ok)]);
    longer := AdvanceCall(longer, s1, CancelDone(r, Ok), s2);
  }

  lemma CancelStarts(schedule: seq<Action>, r: RunId, x: Run, d: map<CallId, Call>) returns (longer: seq<Action>)
    requires Reaches(schedule, Lone(r, x, d)) && 1 !in d
    ensures Reaches(longer, Lone(r, x, d[1 := CancelHold(r)]).(writer := Some(Caller(1))))
  {
    hide DispatchStep, StatusStep, InterruptStep, ExecuteStep, EnvironmentRun, Reaches;
    var s1 := Lone(r, x, d[1 := CancelWant(r)]);
    longer := Extend(schedule, Lone(r, x, d), Invoke(1, CancelWant(r)), s1);
    var s2 := Lone(r, x, d[1 := CancelHold(r)]).(writer := Some(Caller(1)));
    longer := AdvanceCall(longer, s1, CancelHold(r), s2);
  }

  lemma CancelMarks(schedule: seq<Action>, r: RunId, x: Run, d: map<CallId, Call>) returns (longer: seq<Action>)
    requires Reaches(schedule, Lone(r, x, d)) && x.status == Running && 1 !in d
    ensures Reaches(longer, Lone(r, Marked(x), d[1 := CancelFire(r)]).(writer := Some(Caller(1))))
  {
    hide DispatchStep, StatusStep, InterruptStep, ExecuteStep, EnvironmentRun, Reaches;
    longer := CancelStarts(schedule, r, x, d);
    var s2 := Lone(r, x, d[1 := CancelHold(r)]).(writer := Some(Caller(1)));
    var s3 := Lone(r, x, d[1 := CancelMark(r)]).(writer := Some(Caller(1)));
    longer := AdvanceCall(longer, s2, CancelMark(r), s3);
    var s4 := Lone(r, Marked(x), d[1 := CancelFire(r)]).(writer := Some(Caller(1)));
    longer := AdvanceCall(longer, s3, CancelFire(r), s4);
  }

  /** A Cancel that answered nil does not make the run end as cancelled: a factory that returns nil
      all the same completes it. */
  lemma CancelledRunCanComplete(r: RunId) returns (schedule: seq<Action>, s: State)
    ensures Reaches(schedule, s) && r in s.runs
    ensures 1 in s.calls && s.calls[1] == CancelDone(r, Ok)
    ensures PastRecord(s.runs[r].exec) && s.runs[r].status == Completed
  {
    schedule, s := InsideFactory(r);
    var calls := s.calls[1 := CancelDone(r, Ok)];
    schedule := CancelInsideFactory(schedule, r, Started(r), s.calls);
    var x;
    schedule, x := Complete(schedule, r, Fired(Started(r)), calls);
    s := Lone(r, x, calls);
  }

  /** Nor when the run's deadline had passed before: then the factory's error overwrites the mark. */
  lemma CancelledRunCanFail(r: RunId) returns (schedule: seq<Action>, s: State)
    ensures Reaches(schedule, s) && r in s.runs
    ensures 1 in s.calls && s.calls[1] == CancelDone(r, Ok)
    ensures s.runs[r].status == Failed
  {
    schedule, s := InsideFactory(r);
    var late := Started(r).(context := DeadlineExceeded);
    schedule := Extend(schedule, s, ParentDone(r, DeadlineExceeded), Lone(r, late, s.calls));
    var calls := s.calls[1 := CancelDone(r, Ok)];
    schedule := CancelInsideFactory(schedule, r, late, s.calls);
    var x := Fired(late);
    var failing := x.(status := Failed, endedAt := Some(0), exec := Failing("deadline"));
    schedule := Decide(schedule, r, x, calls, Some("deadline"), failing);
    s := Lone(r, failing, calls).(writer := Some(Executor(r)));
  }

  /** An Interrupt that read "running" in time can put its event behind the terminal one. */
  lemma TerminalEventNeedNotBeLast(r: RunId, e: Event) returns (schedule: seq<Action>, s: State)
    ensures Reaches(schedule, s) && r in s.runs
    ensures s.runs[r].accepted == [Entry(FromRunner, StartedEvent(r)), Entry(FromRunner, CompletedEvent(r)),
                                   Entry(FromInterrupt(1), e)]
    ensures 1 in s.calls && s.calls[1] == InterruptUnlock(r, e, Ok)
  {
    schedule, s := InsideFactory(r);
    var calls := s.calls[1 := InterruptCommitted(r, e)];
    schedule := CommitInsideFactory(schedule, r, e, s.calls);
    var x := Started(r).(mu := Some(Caller(1)));
    schedule, x := Complete(schedule, r, x, calls);
    var late := Entry(FromInterrupt(1), e);
    s := Lone(r, Put(x, late), calls[1 := InterruptUnlock(r, e, Ok)]);
    schedule := Extend(schedule, Lone(r, x, calls), Advance(1), s);
  }

  lemma FindInsideFactory(schedule: seq<Action>, r: RunId, e: Event, d: map<CallId, Call>)
    returns (longer: seq<Action>)
    requires Reaches(schedule, Lone(r, Started(r), d)) && 1 !in d
    ensures Reaches(longer, Lone(r, Started(r), d[1 := InterruptWant(r, e)]))
  {
    hide DispatchStep, StatusStep, CancelStep, ExecuteStep, EnvironmentRun, InterruptMove, Reaches;
    var x := Started(r);
    var s1 := Lone(r, x, d[1 := InterruptWantRunner(r, e)]);
    longer := Extend(schedule, Lone(r, x, d), Invoke(1, InterruptWantRunner(r, e)), s1);
    var s2 := Lone(r, x, d[1 := InterruptLookup(r, e)]).(readers := {1});
    longer := AdvanceCall(longer, s1, InterruptLookup(r, e), s2);
    var s3 := Lone(r, x, d[1 := InterruptLooked(r, e, true)]).(readers := {1});
    longer := AdvanceCall(longer, s2, InterruptLooked(r, e, true), s3);
    longer := AdvanceCall(longer, s3, InterruptWant(r, e), Lone(r, x, d[1 := InterruptWant(r, e)]));
  }

  lemma HoldInsideFactory(schedule: seq<Action>, r: RunId, e: Event, d: map<CallId, Call>)
    returns (longer: seq<Action>)
    requires Reaches(schedule, Lone(r, Started(r), d)) && 1 !in d
    ensures Reaches(longer, Lone(r, Started(r).(mu := Some(Caller(1))), d[1 := InterruptHold(r, e)]))
  {
    longer := FindInsideFactory(schedule, r, e, d);
    hide DispatchStep, StatusStep, CancelStep, ExecuteStep, EnvironmentRun, Reaches;
    var s4 := Lone(r, Started(r), d[1 := InterruptWant(r, e)]);
    var s5 := Lone(r, Started(r).(mu := Some(Caller(1))), d[1 := InterruptHold(r, e)]);
    longer := AdvanceCall(longer, s4, InterruptHold(r, e), s5);
  }

  lemma CommitInsideFactory(schedule: seq<Action>, r: RunId, e: Event, d: map<CallId, Call>)
    returns (longer: seq<Action>)
    requires Reaches(schedule, Lone(r, Started(r), d)) && 1 !in d
    ensures Reaches(longer, Lone(r, Started(r).(mu := Some(Caller(1))), d[1 := InterruptCommitted(r, e)]))
  {
    hide DispatchStep, StatusStep, CancelStep, ExecuteStep, EnvironmentRun, Reaches;
    longer := HoldInsideFactory(schedule, r, e, d);
    var x := Started(r).(mu := Some(Caller(1)));
    var s5 := Lone(r, x, d[1 := InterruptHold(r, e)]);
    var s6 := Lone(r, x, d[1 := InterruptOpen(r, e)]);
    longer := AdvanceCall(longer, s5, InterruptOpen(r, e), s6);
    longer := AdvanceCall(longer, s6, InterruptCommitted(r, e), Lone(r, x, d[1 := InterruptCommitted(r, e)]));
  }
}
