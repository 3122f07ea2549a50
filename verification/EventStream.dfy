/** StoreBackedEventStream: a cursor over an append-only event log that other parties keep appending to
    and that anyone may close at any moment. */
module EventStream {
  import opened Options

  datatype Event = Event(kind: string, content: string, position: int)

  predicate IsTerminal(e: Event) { e.kind == "run.completed" || e.kind == "error" }

  /** Positions start at 0 or later and grow strictly; gaps are allowed. */
  predicate Ordered(log: seq<Event>) {
    && (forall i :: 0 <= i < |log| ==> log[i].position >= 0)
    && (forall i, j :: 0 <= i < j < |log| ==> log[i].position < log[j].position)
  }

  /** The events at fromPos or later, in log order. */
  function From(log: seq<Event>, fromPos: int): seq<Event> {
    if log == [] then []
    else From(log[..|log| - 1], fromPos)
         + (if log[|log| - 1].position >= fromPos then [log[|log| - 1]] else [])
  }

  /** What the stream is to deliver: the log up to and including its first terminal event. */
  function Visible(log: seq<Event>): seq<Event> {
    if log == [] then []
    else if IsTerminal(log[0]) then [log[0]]
    else [log[0]] + Visible(log[1..])
  }

  /** The cursor behind the first n events. */
  function Cursor(log: seq<Event>, n: nat): int
    requires n <= |log|
  {
    if n == 0 then 0 else log[n - 1].position + 1
  }

  /** From its cursor the store answers with exactly the events not yet delivered. */
  lemma {:induction false} FromCursor(log: seq<Event>, n: nat)
    requires Ordered(log) && n <= |log|
    ensures From(log, Cursor(log, n)) == log[n..]
  {
    FromAfter(log, n, Cursor(log, n));
  }

  lemma {:induction false} FromAfter(log: seq<Event>, n: nat, pos: int)
    requires Ordered(log) && n <= |log|
    requires forall i :: 0 <= i < n ==> log[i].position < pos
    requires forall i :: n <= i < |log| ==> log[i].position >= pos
    ensures From(log, pos) == log[n..]
    decreases |log|
  {
    if log != [] {
      var init := log[..|log| - 1];
      assert log == init + [log[|log| - 1]];
      if n < |log| {
        FromAfter(init, n, pos);
        assert log[n..] == init[n..] + [log[|log| - 1]];
      } else {
        FromAfter(init, n - 1, pos);
        assert log[n..] == [] && init[n - 1..] == [];
      }
    }
  }

  /** Visible is the log cut behind its first terminal event. */
  lemma {:induction false} VisibleIs(log: seq<Event>)
    ensures Visible(log) <= log
    ensures forall i :: 0 <= i < |Visible(log)| - 1 ==>
              Visible(log)[i].kind != "run.completed" && Visible(log)[i].kind != "error"
    ensures |Visible(log)| < |log| ==>
              && Visible(log) != []
              && var last := Visible(log)[|Visible(log)| - 1]; last.kind == "run.completed" || last.kind == "error"
  {
    if log != [] && !IsTerminal(log[0]) { VisibleIs(log[1..]); }
  }

  /** The first n events are visible when none but the last of them is terminal. */
  lemma {:induction false} PrefixVisible(log: seq<Event>, n: nat)
    requires n <= |log| && forall i :: 0 <= i < n - 1 ==> !IsTerminal(log[i])
    ensures log[..n] <= Visible(log)
    ensures n > 0 && IsTerminal(log[n - 1]) ==> log[..n] == Visible(log)
    ensures n < |Visible(log)| ==> n == 0 || !IsTerminal(log[n - 1])
    decreases |log|
  {
    VisibleIs(log);
    if n > 0 && !IsTerminal(log[0]) {
      PrefixVisible(log[1..], n - 1);
      assert log[..n] == [log[0]] + log[1..][..n - 1];
    }
  }

  /** Appending never takes back what was visible, and a finished log shows nothing new. */
  lemma {:induction false} VisibleGrows(log: seq<Event>, more: seq<Event>)
    ensures Visible(log) <= Visible(log + more)
    ensures log != [] && Visible(log) != [] && IsTerminal(Visible(log)[|Visible(log)| - 1]) ==>
              Visible(log + more) == Visible(log)
  {
    if log != [] {
      assert (log + more)[0] == log[0] && (log + more)[1..] == log[1..] + more;
      if !IsTerminal(log[0]) {
        VisibleGrows(log[1..], more);
        assert Visible(log) == [log[0]] + Visible(log[1..]);
      }
    }
  }

  datatype Answer = Ok(events: seq<Event>) | Failed(error: string)

  class SessionStore {
    var events: seq<Event>

    constructor ()
      ensures events == []
    {
      events := [];
    }

    /** The store's query; it may also fail. */
    method GetEvents(fromPos: int) returns (answer: Answer)
      ensures answer.Ok? ==> answer.events == From(events, fromPos)
    {
      if * {
        return Failed("store unavailable");
      }
      var result: seq<Event> := [];
      for i := 0 to |events|
        invariant result == From(events[..i], fromPos)
      {
        assert events[..i + 1][..i] == events[..i];
        if events[i].position >= fromPos {
          result := result + [events[i]];
        }
      }
      assert events[..|events|] == events;
      return Ok(result);
    }
  }

  /** What Next returns; StillWaiting when it has not returned after the given number of polls. */
  datatype Next = Got(event: Event) | Eof | StoreError(error: string) | ContextError | StillWaiting

  class StoreBackedEventStream {
    const store: SessionStore
    var lastPos: int
    var done: bool
    var cancelled: bool
    ghost var delivered: seq<Event>
    ghost var closed: bool

    constructor (store: SessionStore)
      requires Ordered(store.events)
      ensures Valid() && delivered == [] && !closed && !done && this.store == store
    {
      this.store := store;
      lastPos, done, cancelled := 0, false, false;
      delivered, closed := [], false;
    }

    ghost predicate DeliveredTerminal()
      reads this
    {
      delivered != [] && IsTerminal(delivered[|delivered| - 1])
    }

    /** The cursor and what has been delivered, with a terminal event possibly not yet acted on. */
    ghost predicate Tracks()
      reads this, store
    {
      && Ordered(store.events)
      && delivered <= store.events
      && (forall i :: 0 <= i < |delivered| - 1 ==> !IsTerminal(delivered[i]))
      && lastPos == Cursor(store.events, |delivered|)
      && (closed ==> done && cancelled)
    }

    ghost predicate Valid()
      reads this, store
    {
      Tracks() && (done <==> closed || DeliveredTerminal())
    }

    /** Whenever the stream is valid, what it has delivered is a prefix of what it is to deliver, in
        order, without loss or duplicates; and all of it once a terminal event was among it. */
    lemma DeliversPrefix()
      requires Valid()
      ensures delivered <= Visible(store.events)
      ensures DeliveredTerminal() ==> delivered == Visible(store.events)
      ensures done ==> closed || delivered == Visible(store.events)
    {
      PrefixVisible(store.events, |delivered|);
      assert store.events[..|delivered|] == delivered;
    }

    /** The other goroutines take any number of steps: they append to the log, close the stream or end
        the context, but never touch the cursor. */
    method Interfere()
      requires Tracks()
      modifies store, this`done, this`cancelled, this`closed
      ensures Tracks() && old(store.events) <= store.events
      ensures old(done) ==> done
      ensures old(closed) ==> closed
      ensures old(cancelled) ==> cancelled
      ensures done != old(done) ==> closed
    {
      var batch: seq<Event> := *;
      if Ordered(store.events + batch) {
        store.events := store.events + batch;
      }
      if * {
        Close();
      }
      if * {
        cancelled := true;
      }
    }

    method Close()
      requires Tracks()
      modifies this`done, this`cancelled, this`closed
      ensures Tracks() && done && cancelled && closed
    {
      done := true;
      cancelled := true;
      closed := true;
    }

    /** Next's last steps with a non-empty answer: advance the cursor, then note a terminal event. */
    method Accept(ev: Event)
      requires Valid() && |delivered| < |store.events| && ev == store.events[|delivered|]
      requires !DeliveredTerminal()
      modifies this, store
      ensures Valid() && old(store.events) <= store.events && delivered == old(delivered) + [ev]
      ensures old(closed) ==> closed
    {
      lastPos := ev.position + 1;
      delivered := delivered + [ev];
      assert Tracks();
      Interfere();
      if IsTerminal(ev) {
        done := true;
      }
    }

    /** One round of Next's loop; None when it goes on polling. */
    method Poll() returns (next: Option<Next>)
      requires Valid()
      modifies this, store
      ensures Valid() && old(store.events) <= store.events
      ensures old(closed) ==> closed
      ensures old(done) <==> next == Some(Eof)
      ensures next.Some? && next.value.Got? ==>
                var kind := next.value.event.kind;
                if kind == "run.completed" || kind == "error" then done else done ==> closed
      ensures next.Some? && next.value.Got? ==> delivered == old(delivered) + [next.value.event]
      ensures !(next.Some? && next.value.Got?) ==> delivered == old(delivered) && lastPos == old(lastPos)
      ensures next == Some(ContextError) ==> cancelled
      ensures next.None? || next == Some(ContextError) ==> |Visible(old(store.events))| <= |delivered|
      ensures next != Some(StillWaiting)
    {
      hide Visible, From, Cursor, Ordered;
      if done {
        return Some(Eof);
      }
      Interfere();
      var answer := store.GetEvents(lastPos);
      FromCursor(store.events, |delivered|);
      NothingMissed(old(store.events), store.events, |delivered|);
      Interfere();
      if answer.Failed? {
        return Some(StoreError(answer.error));
      }
      if answer.events != [] {
        Accept(answer.events[0]);
        return Some(Got(answer.events[0]));
      }
      Interfere();
      if cancelled {
        if * {
          return Some(ContextError);
        }
      }
      return None;
    }

    /** One call of Next with at most `polls` queries, and interference at every point where the lock is
        not held. */
    method Next(polls: nat) returns (next: Next)
      requires Valid()
      modifies this, store
      ensures Valid() && old(store.events) <= store.events
      ensures old(closed) ==> closed
      ensures old(done) && polls > 0 ==> next == Eof
      ensures next.Got? ==> delivered == old(delivered) + [next.event]
      ensures next.Got? && (next.event.kind == "run.completed" || next.event.kind == "error") ==> done
      ensures next.Got? && next.event.kind != "run.completed" && next.event.kind != "error" ==> (done ==> closed)
      ensures !next.Got? ==> delivered == old(delivered) && lastPos == old(lastPos)
      ensures next == Eof ==> done
      ensures next == ContextError ==> cancelled
      ensures next == StillWaiting && polls > 0 ==> |Visible(old(store.events))| <= |delivered|
    {
      for i := 0 to polls
        invariant Valid() && old(store.events) <= store.events
        invariant delivered == old(delivered) && lastPos == old(lastPos)
        invariant old(closed) ==> closed
        invariant old(done) ==> i == 0 && done
        invariant i > 0 ==> |Visible(old(store.events))| <= |delivered|
      {
        ghost var before := store.events;
        var result := Poll();
        if result.Some? {
          return result.value;
        }
        assert before == old(store.events) + before[|old(store.events)|..];
        VisibleGrows(old(store.events), before[|old(store.events)|..]);
      }
      return StillWaiting;
    }

    /** A consumer that calls Next again and again, through errors and while everyone else goes on:
        the events it gets are those the stream is to deliver, none skipped and none twice. */
    method Consume(calls: nat, polls: nat) returns (got: seq<Event>)
      requires Valid() && delivered == []
      modifies this, store
      ensures Valid() && got <= Visible(store.events) <= store.events
      ensures forall i :: 0 <= i < |got| - 1 ==> got[i].kind != "run.completed" && got[i].kind != "error"
      ensures got != [] && (got[|got| - 1].kind == "run.completed" || got[|got| - 1].kind == "error") ==>
                got == Visible(store.events)
    {
      got := [];
      for i := 0 to calls
        invariant Valid() && got == delivered
      {
        var next := Next(polls);
        if next.Got? {
          got := got + [next.event];
        }
      }
      DeliversPrefix();
      VisibleIs(store.events);
    }
  }

  lemma NothingMissed(before: seq<Event>, seen: seq<Event>, n: nat)
    requires before <= seen && n <= |seen|
    ensures seen[n..] == [] ==> |Visible(before)| <= n
  {
    VisibleIs(before);
  }
}
