/** LiteAgentStore: versioned agent definitions with compare-and-swap updates.  Slices and maps inside a
    definition are references, as they are in the program, so that sharing between an agent and its clone
    can be seen. */
module AgentStore {
  import opened Options
  import Decimal

  class StringMap {
    var entries: map<string, string>

    constructor (entries: map<string, string>)
      ensures this.entries == entries
    {
      this.entries := entries;
    }
  }

  datatype SkillRef = SkillRef(skill: string, version: int)
  datatype Server = Server(name: string, command: string, args: array?<string>, env: StringMap?)
  datatype Persona = Persona(soul: string, identity: string, agents: string, user: string, bootstrap: string)

  datatype Agent = Agent(
    id: string, tenant: string, name: string, description: string, model: string, harnessVersion: string,
    systemPrompt: string, persona: Persona, tools: array?<string>, skills: array?<SkillRef>,
    servers: array?<Server>, autonomy: string, runner: string, fallbackRunner: string, agentType: string,
    callable: array?<string>, metadata: StringMap?, version: int, createdAt: int, updatedAt: int,
    archivedAt: Option<int>)

  /** Fields that are None are not updated. */
  datatype Patch = Patch(
    name: Option<string>, description: Option<string>, model: Option<string>, harnessVersion: Option<string>,
    systemPrompt: Option<string>, persona: Option<Persona>, tools: Option<array?<string>>,
    skills: Option<array?<SkillRef>>, autonomy: Option<string>, metadata: Option<StringMap?>)

  datatype Reply = Done(agent: Agent) | NotFound | Archived | Conflict

  function Or<T>(change: Option<T>, current: T): T { if change.Some? then change.value else current }

  /** A definition with a patch applied: the next version. */
  function Patched(a: Agent, p: Patch, now: int): Agent {
    a.(name := Or(p.name, a.name), description := Or(p.description, a.description),
       model := Or(p.model, a.model), harnessVersion := Or(p.harnessVersion, a.harnessVersion),
       systemPrompt := Or(p.systemPrompt, a.systemPrompt), persona := Or(p.persona, a.persona),
       tools := Or(p.tools, a.tools), skills := Or(p.skills, a.skills), autonomy := Or(p.autonomy, a.autonomy),
       metadata := Or(p.metadata, a.metadata), version := a.version + 1, updatedAt := now)
  }

  function AgentId(n: nat): string { "agent-" + Decimal.Format(n) }

  lemma AgentIdInjective(m: nat, n: nat)
    requires AgentId(m) == AgentId(n)
    ensures m == n
  {
    assert AgentId(m)[6..] == Decimal.Format(m) && AgentId(n)[6..] == Decimal.Format(n);
    Decimal.FormatInjective(m, n);
  }

  // ---------------------------------------------------------------- the store as a value

  datatype Store = Store(agents: map<string, Agent>, counter: nat)

  /** Every key is its agent's ID, and an ID the counter has already given out. */
  ghost predicate Issued(key: string, counter: nat) { exists n: nat :: 1 <= n <= counter && key == AgentId(n) }

  ghost predicate Valid(s: Store) {
    forall key :: key in s.agents ==> s.agents[key].id == key && Issued(key, s.counter)
  }

  /** The five references a clone gets: null where the source has null, fresh copies elsewhere. */
  datatype Copies = Copies(
    tools: array?<string>, skills: array?<SkillRef>, servers: array?<Server>, callable: array?<string>,
    metadata: StringMap?)

  datatype Operation =
    | Create(tenant: string, agent: Agent, now: int)
    | Update(id: string, version: int, patch: Patch, now: int)
    | Archive(id: string, now: int)
    | Clone(id: string, name: string, now: int, copies: Copies)

  function Put(s: Store, a: Agent): Store { s.(agents := s.agents[a.id := a]) }

  function Created(s: Store, tenant: string, a: Agent, now: int): Agent {
    a.(id := AgentId(s.counter + 1), tenant := tenant, version := 1, createdAt := now, updatedAt := now,
       archivedAt := None)
  }

  function Cloned(s: Store, source: Agent, name: string, now: int, c: Copies): Agent {
    source.(id := AgentId(s.counter + 1), name := name, version := 1, createdAt := now, updatedAt := now,
            archivedAt := None, tools := c.tools, skills := c.skills, servers := c.servers,
            callable := c.callable, metadata := c.metadata)
  }

  datatype Outcome = Outcome(store: Store, reply: Reply)

  /** What one operation does, and what it answers. */
  function Perform(s: Store, op: Operation): Outcome {
    match op
    case Create(tenant, agent, now) =>
      var a := Created(s, tenant, agent, now);
      Outcome(Put(s.(counter := s.counter + 1), a), Done(a))
    case Update(id, version, patch, now) =>
      if id !in s.agents then Outcome(s, NotFound)
      else if s.agents[id].archivedAt.Some? then Outcome(s, Archived)
      else if s.agents[id].version != version then Outcome(s, Conflict)
      else
        var a := Patched(s.agents[id], patch, now);
        Outcome(s.(agents := s.agents[id := a]), Done(a))
    case Archive(id, now) =>
      if id !in s.agents then Outcome(s, NotFound)
      else if s.agents[id].archivedAt.Some? then Outcome(s, Archived)
      else
        var a := s.agents[id].(archivedAt := Some(now), updatedAt := now);
        Outcome(s.(agents := s.agents[id := a]), Done(a))
    case Clone(id, name, now, copies) =>
      if id !in s.agents then Outcome(s, NotFound)
      else
        var a := Cloned(s, s.agents[id], name, now, copies);
        Outcome(Put(s.(counter := s.counter + 1), a), Done(a))
  }

  function PerformAll(s: Store, ops: seq<Operation>): Store
    decreases |ops|
  {
    if ops == [] then s else PerformAll(Perform(s, ops[0]).store, ops[1..])
  }

  // ---------------------------------------------------------------- what each operation does

  /** A created agent is the given definition under a new ID, at version 1, live, and dated now. */
  lemma CreateMeans(s: Store, tenant: string, agent: Agent, now: int)
    ensures var r, id := Perform(s, Create(tenant, agent, now)), "agent-" + Decimal.Format(s.counter + 1);
            var a := agent.(id := id, tenant := tenant, version := 1, createdAt := now, updatedAt := now,
                            archivedAt := None);
            && r.reply == Done(a) && r.store == Store(s.agents[id := a], s.counter + 1)
  {
  }

  /** Why an operation is refused, and that a refused one changes nothing. */
  lemma RefusedIff(s: Store, op: Operation)
    requires !op.Create?
    ensures Perform(s, op).reply == NotFound <==> op.id !in s.agents
    ensures Perform(s, op).reply == Archived <==>
            op.id in s.agents && s.agents[op.id].archivedAt.Some? && !op.Clone?
    ensures Perform(s, op).reply == Conflict <==>
            op.Update? && op.id in s.agents && s.agents[op.id].archivedAt.None? && s.agents[op.id].version != op.version
    ensures !Perform(s, op).reply.Done? ==> Perform(s, op).store == s
  {
  }

  /** A successful update sets each field the patch names to the value it names, and leaves the other patch
      fields ... */
  lemma UpdateSets(s: Store, id: string, version: int, patch: Patch, now: int)
    requires Perform(s, Update(id, version, patch, now)).reply.Done?
    ensures id in s.agents && id in Perform(s, Update(id, version, patch, now)).store.agents
    ensures var a, b := s.agents[id], Perform(s, Update(id, version, patch, now)).store.agents[id];
            && b.name == (if patch.name.Some? then patch.name.value else a.name)
            && b.description == (if patch.description.Some? then patch.description.value else a.description)
            && b.model == (if patch.model.Some? then patch.model.value else a.model)
            && b.harnessVersion == (if patch.harnessVersion.Some? then patch.harnessVersion.value else a.harnessVersion)
            && b.systemPrompt == (if patch.systemPrompt.Some? then patch.systemPrompt.value else a.systemPrompt)
            && b.persona == (if patch.persona.Some? then patch.persona.value else a.persona)
            && b.tools == (if patch.tools.Some? then patch.tools.value else a.tools)
            && b.skills == (if patch.skills.Some? then patch.skills.value else a.skills)
            && b.autonomy == (if patch.autonomy.Some? then patch.autonomy.value else a.autonomy)
            && b.metadata == (if patch.metadata.Some? then patch.metadata.value else a.metadata)
  {
  }

  /** ... and everything else: the version grows by one, the update is dated now, the rest stays. */
  lemma UpdateKeeps(s: Store, id: string, version: int, patch: Patch, now: int)
    requires Perform(s, Update(id, version, patch, now)).reply.Done?
    ensures id in s.agents && id in Perform(s, Update(id, version, patch, now)).store.agents
    ensures var r, before := Perform(s, Update(id, version, patch, now)), s.agents[id];
            var a := r.store.agents[id];
            && r.reply == Done(a) && r.store.counter == s.counter
            && r.store.agents.Keys == s.agents.Keys
            && (forall key :: key in s.agents && key != id ==> r.store.agents[key] == s.agents[key])
            && a.version == before.version + 1 == version + 1 && a.updatedAt == now
            && a.id == before.id && a.tenant == before.tenant && a.servers == before.servers
            && a.runner == before.runner && a.fallbackRunner == before.fallbackRunner
            && a.agentType == before.agentType && a.callable == before.callable
            && a.createdAt == before.createdAt && a.archivedAt == before.archivedAt
  {
  }

  /** Archiving dates the record and changes nothing else. */
  lemma ArchiveMeans(s: Store, id: string, now: int)
    requires Perform(s, Archive(id, now)).reply.Done?
    ensures id in s.agents
    ensures var a := s.agents[id].(archivedAt := Some(now), updatedAt := now);
            Perform(s, Archive(id, now)) == Outcome(Store(s.agents[id := a], s.counter), Done(a))
  {
  }

  /** A clone is the source under a new ID and name, at version 1, live, dated now, on the copies; the source
      stays. */
  lemma CloneMeans(s: Store, id: string, name: string, now: int, c: Copies)
    requires id in s.agents
    ensures var r, key := Perform(s, Clone(id, name, now, c)), "agent-" + Decimal.Format(s.counter + 1);
            var a := s.agents[id].(id := key, name := name, version := 1, createdAt := now, updatedAt := now,
                                   archivedAt := None, tools := c.tools, skills := c.skills,
                                   servers := c.servers, callable := c.callable, metadata := c.metadata);
            r == Outcome(Store(s.agents[key := a], s.counter + 1), Done(a))
  {
  }

  /** The next generated ID is new. */
  lemma NextIdIsFresh(s: Store)
    requires Valid(s)
    ensures AgentId(s.counter + 1) !in s.agents
  {
    if AgentId(s.counter + 1) in s.agents {
      var n: nat :| 1 <= n <= s.counter && AgentId(s.counter + 1) == AgentId(n);
      AgentIdInjective(s.counter + 1, n);
    }
  }

  /** Every operation keeps the store valid, removes no agent, and touches at most one: a fresh one, or
      the one it names. */
  lemma PerformKeeps(s: Store, op: Operation)
    requires Valid(s)
    ensures Valid(Perform(s, op).store) && s.agents.Keys <= Perform(s, op).store.agents.Keys
    ensures forall key :: key in s.agents && !((op.Update? || op.Archive?) && op.id == key) ==>
              Perform(s, op).store.agents[key] == s.agents[key]
  {
    hide AgentId;
    NextIdIsFresh(s);
    var t := Perform(s, op).store;
    forall key | key in t.agents ensures t.agents[key].id == key && Issued(key, t.counter) {
      if key in s.agents {
        var n: nat :| 1 <= n <= s.counter && key == AgentId(n);
        assert 1 <= n <= t.counter;
      } else {
        assert key == AgentId(s.counter + 1);
      }
    }
  }

  /** An archived agent's record never changes again. */
  lemma {:induction false} ArchivedStays(s: Store, ops: seq<Operation>, id: string)
    requires Valid(s) && id in s.agents && s.agents[id].archivedAt.Some?
    ensures id in PerformAll(s, ops).agents && PerformAll(s, ops).agents[id] == s.agents[id]
    decreases |ops|
  {
    if ops != [] {
      PerformKeeps(s, ops[0]);
      ArchivedStays(Perform(s, ops[0]).store, ops[1..], id);
    }
  }

  // ---------------------------------------------------------------- no update is lost

  ghost predicate Wins(s: Store, op: Operation, id: string) {
    op.Update? && op.id == id && Perform(s, op).reply.Done?
  }

  /** The updates of agent id that succeed, in the order in which they do. */
  ghost function Winners(s: Store, ops: seq<Operation>, id: string): seq<Operation>
    decreases |ops|
  {
    if ops == [] then []
    else
      (if Wins(s, ops[0], id) then [ops[0]] else []) + Winners(Perform(s, ops[0]).store, ops[1..], id)
  }

  /** The patches of the winning updates, one after the other. */
  ghost function Fold(a: Agent, wins: seq<Operation>): Agent
    requires forall k :: 0 <= k < |wins| ==> wins[k].Update?
    decreases |wins|
  {
    if wins == [] then a else Fold(Patched(a, wins[0].patch, wins[0].now), wins[1..])
  }

  ghost predicate AllUpdates(wins: seq<Operation>) { forall k :: 0 <= k < |wins| ==> wins[k].Update? }

  lemma {:induction false} WinnersAreUpdates(s: Store, ops: seq<Operation>, id: string)
    ensures AllUpdates(Winners(s, ops, id))
    decreases |ops|
  {
    if ops != [] { WinnersAreUpdates(Perform(s, ops[0]).store, ops[1..], id); }
  }

  /** The agent is what its winning updates made of it, perhaps archived since. */
  ghost predicate IsResult(final: Agent, folded: Agent) {
    final == folded
    || (final.archivedAt.Some? &&
        final == folded.(archivedAt := final.archivedAt, updatedAt := final.archivedAt.value))
  }

  /** What one operation makes of a live agent: a winning update expects its version and applies the patch,
      an archiving only sets the two times, anything else leaves it alone. */
  lemma StepOfAgent(s: Store, op: Operation, id: string)
    requires Valid(s) && id in s.agents && s.agents[id].archivedAt.None?
    ensures id in Perform(s, op).store.agents
    ensures var after := Perform(s, op).store.agents[id];
            if Wins(s, op, id) then
              && op.version == s.agents[id].version && after == Patched(s.agents[id], op.patch, op.now)
              && after.version == op.version + 1 && after.archivedAt.None?
            else if after.archivedAt.None? then after == s.agents[id]
            else IsResult(after, s.agents[id])
  {
    hide AgentId;
    NextIdIsFresh(s);
  }

  /** Whatever operations run on the store, the winning updates of one agent expected its version, its
      version plus one, and so on; its version counts them; and its definition is their patches applied
      in that order. */
  lemma {:induction false} UpdatesAreSerial(s: Store, ops: seq<Operation>, id: string)
    requires Valid(s) && id in s.agents && s.agents[id].archivedAt.None?
    ensures var wins := Winners(s, ops, id);
            && AllUpdates(wins)
            && (forall k :: 0 <= k < |wins| ==> wins[k].version == s.agents[id].version + k)
            && id in PerformAll(s, ops).agents
            && PerformAll(s, ops).agents[id].version == s.agents[id].version + |wins|
            && IsResult(PerformAll(s, ops).agents[id], Fold(s.agents[id], wins))
    decreases |ops|
  {
    hide Perform, Patched;
    WinnersAreUpdates(s, ops, id);
    if ops != [] {
      var t, rest := Perform(s, ops[0]).store, ops[1..];
      PerformKeeps(s, ops[0]);
      StepOfAgent(s, ops[0], id);
      WinnersAreUpdates(t, rest, id);
      if t.agents[id].archivedAt.None? {
        UpdatesAreSerial(t, rest, id);
        var wins := Winners(t, rest, id);
        if Wins(s, ops[0], id) {
          assert Winners(s, ops, id) == [ops[0]] + wins;
          assert ([ops[0]] + wins)[1..] == wins;
        } else {
          assert Winners(s, ops, id) == wins;
        }
      } else {
        ArchivedStays(t, rest, id);
        ArchivedWinsNothing(t, rest, id);
        assert Winners(s, ops, id) == [];
      }
    }
  }

  lemma {:induction false} ArchivedWinsNothing(s: Store, ops: seq<Operation>, id: string)
    requires Valid(s) && id in s.agents && s.agents[id].archivedAt.Some?
    ensures Winners(s, ops, id) == []
    decreases |ops|
  {
    if ops != [] {
      PerformKeeps(s, ops[0]);
      ArchivedWinsNothing(Perform(s, ops[0]).store, ops[1..], id);
    }
  }

  /** From its creation on, an agent's winning updates expected versions 1, 2, 3, ... */
  lemma CreatedAgentHistory(s: Store, tenant: string, a: Agent, now: int, ops: seq<Operation>)
    requires Valid(s)
    ensures var created := Perform(s, Create(tenant, a, now));
            var id := AgentId(s.counter + 1);
            var wins := Winners(created.store, ops, id);
            && id !in s.agents
            && AllUpdates(wins)
            && (forall k :: 0 <= k < |wins| ==> wins[k].version == k + 1)
            && id in PerformAll(created.store, ops).agents
            && PerformAll(created.store, ops).agents[id].version == 1 + |wins|
            && IsResult(PerformAll(created.store, ops).agents[id], Fold(Created(s, tenant, a, now), wins))
  {
    NextIdIsFresh(s);
    PerformKeeps(s, Create(tenant, a, now));
    UpdatesAreSerial(Perform(s, Create(tenant, a, now)).store, ops, AgentId(s.counter + 1));
  }

  // ---------------------------------------------------------------- the last write wins

  /** The k-th operation of the run is an update of the agent that succeeds. */
  ghost predicate WinsAt(s: Store, ops: seq<Operation>, id: string, k: nat) {
    k < |ops| && ops[k].Update? && ops[k].id == id && Perform(PerformAll(s, ops[..k]), ops[k]).reply.Done?
  }

  /** The fields of a patch, one by one. */
  function NewName(p: Patch): Option<string> { p.name }

  function NewDescription(p: Patch): Option<string> { p.description }

  function NewModel(p: Patch): Option<string> { p.model }

  function NewHarnessVersion(p: Patch): Option<string> { p.harnessVersion }

  function NewSystemPrompt(p: Patch): Option<string> { p.systemPrompt }

  function NewPersona(p: Patch): Option<Persona> { p.persona }

  function NewTools(p: Patch): Option<array?<string>> { p.tools }

  function NewSkills(p: Patch): Option<array?<SkillRef>> { p.skills }

  function NewAutonomy(p: Patch): Option<string> { p.autonomy }

  function NewMetadata(p: Patch): Option<StringMap?> { p.metadata }

  /** The k-th operation names the field, and no later one does. */
  ghost predicate IsLastWrite<T>(s: Store, ops: seq<Operation>, id: string, change: Patch -> Option<T>, k: nat) {
    && WinsAt(s, ops, id, k) && change(ops[k].patch).Some?
    && forall j: nat :: k < j && WinsAt(s, ops, id, j) ==> change(ops[j].patch).None?
  }

  /** Which updates succeed and name a field, and what they give it: the last of them gives the field its
      final value, and with none of them the field keeps its first. */
  ghost predicate LastWriteWins<T>(s: Store, ops: seq<Operation>, id: string, change: Patch -> Option<T>,
                                   first: T, final: T)
  {
    && (forall k: nat :: IsLastWrite(s, ops, id, change, k) ==> final == change(ops[k].patch).value)
    && ((forall k: nat :: WinsAt(s, ops, id, k) ==> change(ops[k].patch).None?) ==> final == first)
  }

  lemma {:induction false} PerformOneMore(s: Store, ops: seq<Operation>, op: Operation)
    ensures PerformAll(s, ops + [op]) == Perform(PerformAll(s, ops), op).store
    decreases |ops|
  {
    if ops == [] {
      assert [op][1..] == [];
    } else {
      assert (ops + [op])[1..] == ops[1..] + [op];
      PerformOneMore(Perform(s, ops[0]).store, ops[1..], op);
    }
  }

  lemma {:induction false} RunKeeps(s: Store, ops: seq<Operation>)
    requires Valid(s)
    ensures Valid(PerformAll(s, ops)) && s.agents.Keys <= PerformAll(s, ops).agents.Keys
    decreases |ops|
  {
    if ops != [] {
      PerformKeeps(s, ops[0]);
      RunKeeps(Perform(s, ops[0]).store, ops[1..]);
    }
  }

  /** The updates that succeeded still do when the run goes on. */
  lemma WinsStay(s: Store, ops: seq<Operation>, op: Operation, id: string, k: nat)
    ensures k < |ops| ==> (WinsAt(s, ops + [op], id, k) <==> WinsAt(s, ops, id, k))
    ensures k == |ops| ==>
              (WinsAt(s, ops + [op], id, k) <==>
               op.Update? && op.id == id && Perform(PerformAll(s, ops), op).reply.Done?)
  {
    hide Perform, PerformAll;
    if k <= |ops| { assert (ops + [op])[..k] == ops[..k]; }
    assert ops[..|ops|] == ops;
  }

  lemma WriteNone<T>(s: Store, id: string, change: Patch -> Option<T>, first: T)
    ensures LastWriteWins(s, [], id, change, first, first)
  {
  }

  /** One more operation, whose effect on the field is known. */
  lemma WriteOneMore<T>(s: Store, ops: seq<Operation>, op: Operation, id: string, change: Patch -> Option<T>,
                        first: T, before: T, after: T)
    requires LastWriteWins(s, ops, id, change, first, before)
    requires var wins := op.Update? && op.id == id && Perform(PerformAll(s, ops), op).reply.Done?;
             if wins && change(op.patch).Some? then after == change(op.patch).value else after == before
    ensures LastWriteWins(s, ops + [op], id, change, first, after)
  {
    var more, n := ops + [op], |ops|;
    forall k: nat
      ensures WinsAt(s, more, id, k) ==> k <= n && (k < n ==> WinsAt(s, ops, id, k) && more[k] == ops[k])
      ensures WinsAt(s, ops, id, k) ==> WinsAt(s, more, id, k) {
      WinsStay(s, ops, op, id, k);
    }
    WinsStay(s, ops, op, id, n);
    hide Perform, PerformAll, WinsAt;
    forall k: nat | IsLastWrite(s, more, id, change, k)
      ensures after == change(more[k].patch).value {
      if k < n { assert IsLastWrite(s, ops, id, change, k); }
    }
  }

  /** After any run every patch field of every agent is what the last successful update naming it gave it, or
      what it was at first: the text fields ... */
  lemma {:induction false} TextFieldsAreLastWritten(s: Store, ops: seq<Operation>, id: string)
    requires Valid(s) && id in s.agents
    ensures id in PerformAll(s, ops).agents
    ensures var a, b := s.agents[id], PerformAll(s, ops).agents[id];
            && LastWriteWins(s, ops, id, NewName, a.name, b.name)
            && LastWriteWins(s, ops, id, NewDescription, a.description, b.description)
            && LastWriteWins(s, ops, id, NewModel, a.model, b.model)
            && LastWriteWins(s, ops, id, NewHarnessVersion, a.harnessVersion, b.harnessVersion)
            && LastWriteWins(s, ops, id, NewSystemPrompt, a.systemPrompt, b.systemPrompt)
    decreases |ops|
  {
    hide Perform, LastWriteWins, Valid;
    if ops == [] {
      WriteNone(s, id, NewName, s.agents[id].name);
      WriteNone(s, id, NewDescription, s.agents[id].description);
      WriteNone(s, id, NewModel, s.agents[id].model);
      WriteNone(s, id, NewHarnessVersion, s.agents[id].harnessVersion);
      WriteNone(s, id, NewSystemPrompt, s.agents[id].systemPrompt);
    } else {
      var n := |ops| - 1;
      var op, t := ops[n], PerformAll(s, ops[..n]);
      TextFieldsAreLastWritten(s, ops[..n], id);
      RunKeeps(s, ops[..n]);
      PerformOneMore(s, ops[..n], op);
      assert ops == ops[..n] + [op];
      FieldsAfter(t, op, id);
      hide PerformAll;
      var first, a, b := s.agents[id], t.agents[id], Perform(t, op).store.agents[id];
      WriteOneMore(s, ops[..n], op, id, NewName, first.name, a.name, b.name);
      WriteOneMore(s, ops[..n], op, id, NewDescription, first.description, a.description, b.description);
      WriteOneMore(s, ops[..n], op, id, NewModel, first.model, a.model, b.model);
      WriteOneMore(s, ops[..n], op, id, NewHarnessVersion, first.harnessVersion, a.harnessVersion, b.harnessVersion);
      WriteOneMore(s, ops[..n], op, id, NewSystemPrompt, first.systemPrompt, a.systemPrompt, b.systemPrompt);
    }
  }

  /** ... and the others. */
  lemma {:induction false} OtherFieldsAreLastWritten(s: Store, ops: seq<Operation>, id: string)
    requires Valid(s) && id in s.agents
    ensures id in PerformAll(s, ops).agents
    ensures var a, b := s.agents[id], PerformAll(s, ops).agents[id];
            && LastWriteWins(s, ops, id, NewPersona, a.persona, b.persona)
            && LastWriteWins(s, ops, id, NewTools, a.tools, b.tools)
            && LastWriteWins(s, ops, id, NewSkills, a.skills, b.skills)
            && LastWriteWins(s, ops, id, NewAutonomy, a.autonomy, b.autonomy)
            && LastWriteWins(s, ops, id, NewMetadata, a.metadata, b.metadata)
    decreases |ops|
  {
    hide Perform, LastWriteWins, Valid;
    if ops == [] {
      WriteNone(s, id, NewPersona, s.agents[id].persona);
      WriteNone(s, id, NewTools, s.agents[id].tools);
      WriteNone(s, id, NewSkills, s.agents[id].skills);
      WriteNone(s, id, NewAutonomy, s.agents[id].autonomy);
      WriteNone(s, id, NewMetadata, s.agents[id].metadata);
    } else {
      var n := |ops| - 1;
      var op, t := ops[n], PerformAll(s, ops[..n]);
      OtherFieldsAreLastWritten(s, ops[..n], id);
      RunKeeps(s, ops[..n]);
      PerformOneMore(s, ops[..n], op);
      assert ops == ops[..n] + [op];
      FieldsAfter(t, op, id);
      hide PerformAll;
      var first, a, b := s.agents[id], t.agents[id], Perform(t, op).store.agents[id];
      WriteOneMore(s, ops[..n], op, id, NewPersona, first.persona, a.persona, b.persona);
      WriteOneMore(s, ops[..n], op, id, NewTools, first.tools, a.tools, b.tools);
      WriteOneMore(s, ops[..n], op, id, NewSkills, first.skills, a.skills, b.skills);
      WriteOneMore(s, ops[..n], op, id, NewAutonomy, first.autonomy, a.autonomy, b.autonomy);
      WriteOneMore(s, ops[..n], op, id, NewMetadata, first.metadata, a.metadata, b.metadata);
    }
  }

  /** What one operation does to the patch fields of an agent. */
  lemma FieldsAfter(s: Store, op: Operation, id: string)
    requires Valid(s) && id in s.agents
    ensures id in Perform(s, op).store.agents
    ensures var a, b := s.agents[id], Perform(s, op).store.agents[id];
            if op.Update? && op.id == id && Perform(s, op).reply.Done? then
              var p := op.patch;
              && b.name == (if p.name.Some? then p.name.value else a.name)
              && b.description == (if p.description.Some? then p.description.value else a.description)
              && b.model == (if p.model.Some? then p.model.value else a.model)
              && b.harnessVersion == (if p.harnessVersion.Some? then p.harnessVersion.value else a.harnessVersion)
              && b.systemPrompt == (if p.systemPrompt.Some? then p.systemPrompt.value else a.systemPrompt)
              && b.persona == (if p.persona.Some? then p.persona.value else a.persona)
              && b.tools == (if p.tools.Some? then p.tools.value else a.tools)
              && b.skills == (if p.skills.Some? then p.skills.value else a.skills)
              && b.autonomy == (if p.autonomy.Some? then p.autonomy.value else a.autonomy)
              && b.metadata == (if p.metadata.Some? then p.metadata.value else a.metadata)
            else
              && b.name == a.name
              && b.description == a.description
              && b.model == a.model
              && b.harnessVersion == a.harnessVersion
              && b.systemPrompt == a.systemPrompt
              && b.persona == a.persona
              && b.tools == a.tools
              && b.skills == a.skills
              && b.autonomy == a.autonomy
              && b.metadata == a.metadata
  {
    if op.Update? && op.id == id && Perform(s, op).reply.Done? {
      UpdateSets(s, id, op.version, op.patch, op.now);
    } else {
      hide AgentId;
      NextIdIsFresh(s);
    }
  }

  // ---------------------------------------------------------------- the store as an object

  method CopySlice<T(0)>(source: array?<T>) returns (copy: array?<T>)
    ensures source == null <==> copy == null
    ensures copy != null ==> fresh(copy) && copy[..] == source[..]
  {
    if source == null {
      return null;
    }
    copy := new T[source.Length];
    for i := 0 to source.Length
      invariant copy[..i] == source[..i]
    {
      copy[i] := source[i];
    }
  }

  method CopyMap(source: StringMap?) returns (copy: StringMap?)
    ensures source == null <==> copy == null
    ensures copy != null ==> fresh(copy) && copy.entries == source.entries
  {
    if source == null {
      return null;
    }
    copy := new StringMap(map[]);
    var keys := source.entries.Keys;
    while keys != {}
      invariant keys <= source.entries.Keys && fresh(copy)
      invariant copy.entries == map k | k in source.entries && k !in keys :: source.entries[k]
      decreases keys
    {
      var k :| k in keys;
      copy.entries := copy.entries[k := source.entries[k]];
      keys := keys - {k};
    }
  }

  /** The patched text fields, one assignment each. */
  method ApplyText(agent: Agent, patch: Patch) returns (a: Agent)
    ensures a == agent.(name := Or(patch.name, agent.name),
                        description := Or(patch.description, agent.description),
                        model := Or(patch.model, agent.model),
                        harnessVersion := Or(patch.harnessVersion, agent.harnessVersion),
                        systemPrompt := Or(patch.systemPrompt, agent.systemPrompt))
  {
    a := agent;
    if patch.name.Some? { a := a.(name := patch.name.value); }
    if patch.description.Some? { a := a.(description := patch.description.value); }
    if patch.model.Some? { a := a.(model := patch.model.value); }
    if patch.harnessVersion.Some? { a := a.(harnessVersion := patch.harnessVersion.value); }
    if patch.systemPrompt.Some? { a := a.(systemPrompt := patch.systemPrompt.value); }
  }

  /** The other patched fields. */
  method ApplyRest(agent: Agent, patch: Patch) returns (a: Agent)
    ensures a == agent.(persona := Or(patch.persona, agent.persona), tools := Or(patch.tools, agent.tools),
                        skills := Or(patch.skills, agent.skills), autonomy := Or(patch.autonomy, agent.autonomy),
                        metadata := Or(patch.metadata, agent.metadata))
  {
    a := agent;
    if patch.persona.Some? { a := a.(persona := patch.persona.value); }
    if patch.tools.Some? { a := a.(tools := patch.tools.value); }
    if patch.skills.Some? { a := a.(skills := patch.skills.value); }
    if patch.autonomy.Some? { a := a.(autonomy := patch.autonomy.value); }
    if patch.metadata.Some? { a := a.(metadata := patch.metadata.value); }
  }

  /** The slice is a fresh copy of the source's, or null like it. */
  twostate predicate IsCopy<T>(source: array?<T>, new copy: array?<T>)
    reads source, copy
  {
    (source == null <==> copy == null) && (copy != null ==> fresh(copy) && copy[..] == source[..])
  }

  predicate IsLive(s: Store, tenant: string, id: string) {
    id in s.agents && s.agents[id].tenant == tenant && s.agents[id].archivedAt.None?
  }

  /** The IDs of the tenant's live agents, each once, in some order. */
  ghost predicate Enumerates(s: Store, tenant: string, ids: seq<string>) {
    (forall i, j :: 0 <= i < j < |ids| ==> ids[i] != ids[j]) && forall id :: id in ids <==> IsLive(s, tenant, id)
  }

  /** The stretch of the agents that an offset and a limit ask for; zero or less means none was given. */
  ghost predicate IsPage(s: Store, ids: seq<string>, offset: int, limit: int, page: seq<Agent>) {
    var from := if offset <= 0 then 0 else if offset > |ids| then |ids| else offset;
    && |page| == (if 0 < limit < |ids| - from then limit else |ids| - from)
    && forall k :: 0 <= k < |page| ==> ids[from + k] in s.agents && page[k] == s.agents[ids[from + k]]
  }

  class LiteAgentStore {
    var agents: map<string, Agent>
    var counter: nat

    ghost function View(): Store
      reads this
    {
      Store(agents, counter)
    }

    constructor ()
      ensures View() == Store(map[], 0)
    {
      agents, counter := map[], 0;
    }

    method Create(tenant: string, agent: Agent, now: int) returns (reply: Reply)
      modifies this
      ensures Outcome(View(), reply) == Perform(old(View()), Operation.Create(tenant, agent, now))
    {
      counter := counter + 1;
      var a := agent.(id := AgentId(counter), tenant := tenant, version := 1, createdAt := now,
                      updatedAt := now, archivedAt := None);
      agents := agents[a.id := a];
      return Done(a);
    }

    method Get(id: string) returns (reply: Reply)
      ensures reply == if id in agents then Done(agents[id]) else NotFound
    {
      return if id in agents then Done(agents[id]) else NotFound;
    }

    /** Compare-and-swap on the version, then one assignment per field the patch names. */
    method Update(id: string, version: int, patch: Patch, now: int) returns (reply: Reply)
      modifies this`agents
      ensures Outcome(View(), reply) == Perform(old(View()), Operation.Update(id, version, patch, now))
    {
      if id !in agents {
        return NotFound;
      }
      var a := agents[id];
      if a.archivedAt.Some? {
        return Archived;
      }
      if a.version != version {
        return Conflict;
      }
      a := ApplyText(a, patch);
      a := ApplyRest(a, patch);
      a := a.(version := a.version + 1, updatedAt := now);
      agents := agents[id := a];
      return Done(a);
    }

    method Archive(id: string, now: int) returns (reply: Reply)
      modifies this`agents
      ensures Outcome(View(), reply) == Perform(old(View()), Operation.Archive(id, now))
    {
      if id !in agents {
        return NotFound;
      }
      var a := agents[id];
      if a.archivedAt.Some? {
        return Archived;
      }
      a := a.(archivedAt := Some(now), updatedAt := now);
      agents := agents[id := a];
      return Done(a);
    }

    /** The clone's slices and its metadata map are fresh, so writing through the clone cannot reach the
        source; null stays null. */
    method Clone(id: string, name: string, now: int) returns (reply: Reply, ghost copies: Copies)
      modifies this
      ensures Outcome(View(), reply) == Perform(old(View()), Operation.Clone(id, name, now, copies))
      ensures id in old(agents) ==>
                var source := old(agents)[id];
                && IsCopy(source.tools, copies.tools) && IsCopy(source.skills, copies.skills)
                && IsCopy(source.servers, copies.servers) && IsCopy(source.callable, copies.callable)
                && (source.metadata == null <==> copies.metadata == null)
                && (copies.metadata != null ==>
                      fresh(copies.metadata) && copies.metadata.entries == source.metadata.entries)
    {
      copies := Copies(null, null, null, null, null);
      if id !in agents {
        return NotFound, copies;
      }
      var source := agents[id];
      counter := counter + 1;
      var tools := CopySlice(source.tools);
      var skills := CopySlice(source.skills);
      var servers := CopySlice(source.servers);
      var callable := CopySlice(source.callable);
      var metadata := CopyMap(source.metadata);
      var clone := source.(id := AgentId(counter), name := name, version := 1, createdAt := now,
                           updatedAt := now, archivedAt := None, tools := tools, skills := skills,
                           servers := servers, callable := callable, metadata := metadata);
      agents := agents[clone.id := clone];
      copies := Copies(tools, skills, servers, callable, metadata);
      return Done(clone), copies;
    }

    /** The tenant's live agents in the order the map yields them, then offset and limit. */
    method List(tenant: string, offset: int, limit: int) returns (page: seq<Agent>)
      ensures exists ids :: Enumerates(View(), tenant, ids) && IsPage(View(), ids, offset, limit, page)
    {
      var filtered: seq<Agent> := [];
      ghost var ids: seq<string> := [];
      var keys := agents.Keys;
      while keys != {}
        invariant keys <= agents.Keys && |ids| == |filtered|
        invariant forall i, j :: 0 <= i < j < |ids| ==> ids[i] != ids[j]
        invariant forall id :: id in ids <==> IsLive(View(), tenant, id) && id !in keys
        invariant forall k :: 0 <= k < |ids| ==> ids[k] in agents && filtered[k] == agents[ids[k]]
        decreases keys
      {
        var k :| k in keys;
        var a := agents[k];
        if a.tenant == tenant && a.archivedAt.None? {
          filtered := filtered + [a];
          ids := ids + [k];
        }
        keys := keys - {k};
      }
      assert Enumerates(View(), tenant, ids);
      if offset > 0 {
        if offset >= |filtered| {
          assert IsPage(View(), ids, offset, limit, []);
          return [];
        }
        filtered := filtered[offset..];
      }
      if limit > 0 && limit < |filtered| {
        filtered := filtered[..limit];
      }
      assert IsPage(View(), ids, offset, limit, filtered);
      return filtered;
    }
  }
}
