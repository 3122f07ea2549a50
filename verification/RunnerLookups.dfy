/** Which runs there are, and what the calls that look for one are told. */
module RunnerLookups {
  import opened Options
  import opened RunnerModel
  import opened RunnerTheorems

  /** The call is a Dispatch of run r that has been given this reply. */
  ghost predicate Answered(c: Call, r: RunId, reply: Reply) {
    (c.DispatchUnlock? || c.DispatchDone?) && c.run == r && c.reply == reply
  }

  ghost predicate HasDispatch(s: State, r: RunId) { exists c :: c in s.calls && Answered(s.calls[c], r, Ok) }

  /** Every run was dispatched, once; a Dispatch that was answered names a run, and an error says it was there. */
  ghost predicate RunsAreDispatched(s: State) {
    && (forall r :: r in s.runs ==> HasDispatch(s, r))
    && (forall c, r, reply :: c in s.calls && Answered(s.calls[c], r, reply) ==>
          r in s.runs && (reply == Ok || reply == Conflict))
    && (forall c, d, r :: c in s.calls && d in s.calls && Answered(s.calls[c], r, Ok) && Answered(s.calls[d], r, Ok) ==>
          c == d)
  }

  /** What a step does as far as dispatching goes: nothing ... */
  ghost predicate NothingAnswered(s: State, s': State) {
    && s'.runs.Keys == s.runs.Keys && s.calls.Keys <= s'.calls.Keys
    && (forall c, r, reply :: c in s'.calls ==>
          (Answered(s'.calls[c], r, reply) <==> c in s.calls && Answered(s.calls[c], r, reply)))
  }

  /** ... or one Dispatch is answered. */
  ghost predicate OneAnswered(s: State, c: CallId, s': State) {
    && c in s.calls && s'.calls.Keys == s.calls.Keys
    && (forall d :: d in s.calls && d != c ==> s'.calls[d] == s.calls[d])
    && var mine := s.calls[c].run;
       && s'.runs.Keys == s.runs.Keys + {mine}
       && forall r, reply ::
            !Answered(s.calls[c], r, reply)
            && (Answered(s'.calls[c], r, reply) <==> r == mine && reply == if mine in s.runs then Conflict else Ok)
  }

  lemma CallOnly(s: State, c: CallId, s': State)
    requires c in s.calls && CallStep(s, c, s.calls[c]) == Some(s') && !s.calls[c].DispatchHold?
    ensures c in s'.calls && s'.calls == s.calls[c := s'.calls[c]] && s'.runs.Keys == s.runs.Keys
    ensures var call, next := s.calls[c], s'.calls[c];
            && next.run == call.run
            && ((next.DispatchUnlock? || next.DispatchDone?) <==> (call.DispatchUnlock? || call.DispatchDone?))
            && (next.DispatchUnlock? || next.DispatchDone? ==> next.reply == call.reply)
  {
    hide HasRoom, Put, Snapshot;
    var call := s.calls[c];
    if call.DispatchWant? || call.DispatchUnlock? {
      hide CancelStep, StatusStep, InterruptStep;
    } else if call.run in s.runs {
      MovesStay(s.runs[call.run], c, call);
      hide InterruptMove, CancelMove, DispatchStep;
    } else {
      hide InterruptMove, CancelMove, DispatchStep;
    }
  }

  /** A call stays the call it is. */
  lemma MovesStay(x: Run, c: CallId, call: Call)
    ensures InterruptMove(x, c, call).Some? ==>
              var next := InterruptMove(x, c, call).value.call;
              next.run == call.run && !next.DispatchUnlock? && !next.DispatchDone?
              && !call.DispatchUnlock? && !call.DispatchDone?
    ensures CancelMove(x, call).Some? ==>
              var next := CancelMove(x, call).value.call;
              next.run == call.run && !next.DispatchUnlock? && !next.DispatchDone?
              && !call.DispatchUnlock? && !call.DispatchDone?
  {
  }

  lemma OtherCallEffect(s: State, c: CallId, s': State)
    requires c in s.calls && CallStep(s, c, s.calls[c]) == Some(s') && !s.calls[c].DispatchHold?
    ensures NothingAnswered(s, s')
  {
    CallOnly(s, c, s');
    hide CallStep;
  }

  lemma DispatchEffect(s: State, c: CallId, s': State)
    requires c in s.calls && CallStep(s, c, s.calls[c]) == Some(s') && s.calls[c].DispatchHold?
    ensures OneAnswered(s, c, s')
  {
    hide CancelStep, StatusStep, InterruptStep;
  }

  lemma StepEffect(s: State, a: Action, s': State)
    requires Step(s, a) == Some(s')
    ensures NothingAnswered(s, s') || (a.Advance? && OneAnswered(s, a.call, s'))
  {
    match a
    case Advance(c) =>
      if s.calls[c].DispatchHold? { DispatchEffect(s, c, s'); } else { OtherCallEffect(s, c, s'); }
      hide CallStep;
    case Execute(_, _) => hide ExecuteRun;
    case _ => hide EnvironmentRun;
  }

  lemma NothingKeeps(s: State, s': State)
    requires RunsAreDispatched(s) && NothingAnswered(s, s')
    ensures RunsAreDispatched(s')
  {
    hide Answered;
    forall r | r in s'.runs ensures HasDispatch(s', r) {
      var c :| c in s.calls && Answered(s.calls[c], r, Ok);
      assert c in s'.calls && Answered(s'.calls[c], r, Ok);
    }
  }

  lemma OneKeeps(s: State, c: CallId, s': State)
    requires RunsAreDispatched(s) && OneAnswered(s, c, s')
    ensures RunsAreDispatched(s')
  {
    hide Answered;
    forall r | r in s'.runs ensures HasDispatch(s', r) {
      if r in s.runs {
        var d :| d in s.calls && Answered(s.calls[d], r, Ok);
        assert d in s'.calls && Answered(s'.calls[d], r, Ok);
      } else {
        assert Answered(s'.calls[c], r, Ok);
      }
    }
  }

  lemma StepKeeps(s: State, a: Action, s': State)
    requires RunsAreDispatched(s) && Step(s, a) == Some(s')
    ensures RunsAreDispatched(s')
  {
    StepEffect(s, a, s');
    hide Step, RunsAreDispatched, Answered;
    if NothingAnswered(s, s') { NothingKeeps(s, s'); } else { OneKeeps(s, a.call, s'); }
  }

  lemma {:induction false} PlayKeeps(s: State, schedule: seq<Action>, s': State)
    requires RunsAreDispatched(s) && Play(s, schedule) == Some(s')
    ensures RunsAreDispatched(s')
    decreases |schedule|
  {
    hide Step, RunsAreDispatched;
    if schedule != [] {
      var t := Step(s, schedule[0]).value;
      StepKeeps(s, schedule[0], t);
      PlayKeeps(t, schedule[1..], s');
    }
  }

  /** In every interleaving a run exists if and only if a Dispatch for its ID has succeeded; only one ever does,
      and every other is refused because the ID is taken. */
  lemma DispatchSucceedsOnce(schedule: seq<Action>, s: State, r: RunId)
    requires Reaches(schedule, s)
    ensures r in s.runs <==> exists c :: c in s.calls && Answered(s.calls[c], r, Ok)
    ensures forall c, d :: c in s.calls && d in s.calls && Answered(s.calls[c], r, Ok) && Answered(s.calls[d], r, Ok) ==>
              c == d
    ensures forall c, reply :: c in s.calls && Answered(s.calls[c], r, reply) && reply != Ok ==>
              r in s.runs && reply == Conflict
  {
    PlayKeeps(INITIAL, schedule, s);
    hide Answered;
    assert HasDispatch(s, r) <==> exists c :: c in s.calls && Answered(s.calls[c], r, Ok);
  }

  /** The other calls look a run up under r.mu and report what they see: not found exactly when it is not there
      at that moment, and for Status the fields as they are. */
  lemma LookupsTellTheTruth(s: State, c: CallId, s': State)
    requires c in s.calls && Step(s, Advance(c)) == Some(s')
    ensures var call, next := s.calls[c], s'.calls[c];
            && (call.CancelHold? ==> (next == CancelUnlock(call.run, NotFound) <==> call.run !in s.runs))
            && (call.InterruptLookup? ==> next == InterruptLooked(call.run, call.event, call.run in s.runs))
            && (call.InterruptLooked? ==>
                  next == if call.found then InterruptWant(call.run, call.event)
                          else InterruptDone(call.run, call.event, NotFound))
            && (call.StatusHold? ==>
                  next == StatusUnlock(call.run,
                                       if call.run !in s.runs then None
                                       else var x := s.runs[call.run]; Some(RunStatus(x.status, x.endedAt, x.err))))
  {
    hide InterruptMove;
  }
}
