/** LiteToolRegistry: a global catalogue of tools with one overlay per tenant. */
module TenantTools {
  import opened Options

  datatype Definition = Definition(
    id: string, tenant: string, name: string, category: string, description: string, parameters: string,
    endpoint: string, credential: string, builtIn: bool, verified: bool, verifiedAt: Option<int>, createdAt: int)

  type Tools = map<string, Definition>

  datatype Catalog = Catalog(globals: Tools, tenants: map<string, Tools>)

  function Overlay(s: Catalog, tenant: string): Tools {
    if tenant in s.tenants then s.tenants[tenant] else map[]
  }

  /** The tenant's definition of a name, or else the global one. */
  function Lookup(s: Catalog, tenant: string, name: string): Option<Definition> {
    if name in Overlay(s, tenant) then Some(Overlay(s, tenant)[name])
    else if name in s.globals then Some(s.globals[name])
    else None
  }

  predicate HasId(tools: Tools, id: string) { exists name :: name in tools && tools[name].id == id }

  /** Updating and deleting take the first entry with the ID that the map happens to yield: any entry that
      has it. */
  predicate Carries(tools: Tools, key: string, id: string) { key in tools && tools[key].id == id }

  /** Key says which entry an update or a deletion takes. */
  datatype Operation =
    | AddGlobal(definition: Definition)
    | Register(tenant: string, definition: Definition, generated: string)
    | Update(tenant: string, id: string, definition: Definition, key: string)
    | Delete(tenant: string, id: string, key: string)

  predicate Possible(s: Catalog, op: Operation) {
    match op
    case Update(tenant, id, _, key) => HasId(Overlay(s, tenant), id) ==> Carries(Overlay(s, tenant), key, id)
    case Delete(tenant, id, key) => HasId(Overlay(s, tenant), id) ==> Carries(Overlay(s, tenant), key, id)
    case _ => true
  }

  function Owned(d: Definition, tenant: string, id: string): Definition { d.(id := id, tenant := tenant) }

  function IdFor(d: Definition, generated: string): string { if d.id == "" then generated else d.id }

  function Perform(s: Catalog, op: Operation): Catalog {
    match op
    case AddGlobal(d) => s.(globals := s.globals[d.name := d])
    case Register(tenant, d, generated) =>
      var own := Owned(d, tenant, IdFor(d, generated));
      s.(tenants := s.tenants[tenant := Overlay(s, tenant)[d.name := own]])
    case Update(tenant, id, d, key) =>
      if !Carries(Overlay(s, tenant), key, id) then s
      else s.(tenants := s.tenants[tenant := (Overlay(s, tenant) - {key})[d.name := Owned(d, tenant, id)]])
    case Delete(tenant, id, key) =>
      if !Carries(Overlay(s, tenant), key, id) then s
      else s.(tenants := s.tenants[tenant := Overlay(s, tenant) - {key}])
  }

  predicate Names(op: Operation, tenant: string) { !op.AddGlobal? && op.tenant == tenant }

  // ---------------------------------------------------------------- what every operation keeps

  /** Every definition is stored under its own name, and under its own tenant. */
  ghost predicate Valid(s: Catalog) {
    && (forall name :: name in s.globals ==> s.globals[name].name == name)
    && forall tenant, name :: name in Overlay(s, tenant) ==>
         Overlay(s, tenant)[name].name == name && Overlay(s, tenant)[name].tenant == tenant
  }

  function PerformAll(s: Catalog, ops: seq<Operation>): Catalog
    decreases |ops|
  {
    if ops == [] then s else PerformAll(Perform(s, ops[0]), ops[1..])
  }

  /** One tenant's operations do not reach another tenant's overlay. */
  lemma OverlayAfter(s: Catalog, op: Operation, tenant: string)
    ensures !Names(op, tenant) ==> Overlay(Perform(s, op), tenant) == Overlay(s, tenant)
    ensures !op.AddGlobal? ==> Perform(s, op).globals == s.globals
  {
  }

  lemma PerformKeeps(s: Catalog, op: Operation)
    requires Valid(s)
    ensures Valid(Perform(s, op))
  {
    var t := Perform(s, op);
    forall tenant, name | name in Overlay(t, tenant)
      ensures Overlay(t, tenant)[name].name == name && Overlay(t, tenant)[name].tenant == tenant {
      OverlayAfter(s, op, tenant);
    }
  }

  lemma {:induction false} RunKeeps(s: Catalog, ops: seq<Operation>)
    requires Valid(s)
    ensures Valid(PerformAll(s, ops))
    decreases |ops|
  {
    if ops != [] {
      PerformKeeps(s, ops[0]);
      RunKeeps(Perform(s, ops[0]), ops[1..]);
    }
  }

  /** Whatever the other tenants do, in any order, a tenant resolves every name as before. */
  lemma {:induction false} TenantsAreIsolated(s: Catalog, ops: seq<Operation>, tenant: string, name: string)
    requires forall k :: 0 <= k < |ops| ==> !ops[k].AddGlobal? && ops[k].tenant != tenant
    ensures Lookup(PerformAll(s, ops), tenant, name) == Lookup(s, tenant, name)
    decreases |ops|
  {
    if ops != [] {
      OverlayAfter(s, ops[0], tenant);
      TenantsAreIsolated(Perform(s, ops[0]), ops[1..], tenant, name);
    }
  }

  /** A tenant's own definition hides whatever happens to the global one. */
  lemma OverlayHidesGlobals(s: Catalog, d: Definition, tenant: string, name: string)
    ensures Lookup(Perform(s, AddGlobal(d)), tenant, name) ==
            if name == d.name && name !in Overlay(s, tenant) then Some(d) else Lookup(s, tenant, name)
  {
  }

  /** What registering puts under the tenant's name: the definition as given, with the tenant, and with the
      generated ID if it came without one. */
  lemma RegisterMeans(s: Catalog, tenant: string, d: Definition, generated: string)
    ensures var t := Perform(s, Register(tenant, d, generated));
            && d.name in Overlay(t, tenant)
            && var own := Overlay(t, tenant)[d.name];
               && own.id == (if d.id == "" then generated else d.id) && own.tenant == tenant
               && own == d.(id := own.id, tenant := own.tenant)
    ensures forall name :: name != d.name ==>
              Lookup(Perform(s, Register(tenant, d, generated)), tenant, name) == Lookup(s, tenant, name)
  {
  }

  /** What updating does with the entry it takes: its old name is free, unless it is the new one, and under the
      new name stands the definition as given, with the old ID and the tenant. */
  lemma UpdateMeans(s: Catalog, tenant: string, id: string, d: Definition, key: string)
    requires Carries(Overlay(s, tenant), key, id)
    ensures var t := Perform(s, Update(tenant, id, d, key));
            && t.globals == s.globals
            && Overlay(t, tenant).Keys == Overlay(s, tenant).Keys - {key} + {d.name}
            && var own := Overlay(t, tenant)[d.name];
               own.id == id && own.tenant == tenant && own == d.(id := id, tenant := tenant)
  {
  }

  // ---------------------------------------------------------------- unique IDs

  ghost predicate UniqueIds(tools: Tools) {
    forall a, b :: a in tools && b in tools && tools[a].id == tools[b].id ==> a == b
  }

  /** With unique IDs the order in which the map yields its entries does not matter. */
  lemma OrderDoesNotMatter(s: Catalog, tenant: string, id: string, key: string, other: string)
    requires UniqueIds(Overlay(s, tenant))
    requires Possible(s, Delete(tenant, id, key)) && Possible(s, Delete(tenant, id, other))
    ensures forall d :: Perform(s, Update(tenant, id, d, key)) == Perform(s, Update(tenant, id, d, other))
    ensures Perform(s, Delete(tenant, id, key)) == Perform(s, Delete(tenant, id, other))
  {
    var tools := Overlay(s, tenant);
    if HasId(tools, id) {
      assert key == other;
    } else {
      assert !Carries(tools, key, id) && !Carries(tools, other, id);
    }
  }

  /** The ID a registration brings in is new to the tenant, or that of the entry it replaces. */
  ghost predicate BringsNewId(s: Catalog, op: Operation) {
    op.Register? ==>
      forall name :: name in Overlay(s, op.tenant) && name != op.definition.name ==>
        Overlay(s, op.tenant)[name].id != IdFor(op.definition, op.generated)
  }

  /** Updating and deleting keep the IDs unique; registering does so exactly when no other entry of the
      tenant has the ID already. */
  lemma UniquenessKeptIff(s: Catalog, op: Operation)
    requires !op.AddGlobal? && UniqueIds(Overlay(s, op.tenant))
    ensures UniqueIds(Overlay(Perform(s, op), op.tenant)) <==> BringsNewId(s, op)
  {
    var before, after := Overlay(s, op.tenant), Overlay(Perform(s, op), op.tenant);
    if op.Register? {
      var id, mine := IdFor(op.definition, op.generated), op.definition.name;
      assert after == before[mine := Owned(op.definition, op.tenant, id)];
      if name :| name in before && name != mine && before[name].id == id {
        assert after[name].id == after[mine].id;
      }
    } else {
      assert forall name :: name in after ==>
          || (name in before && after[name] == before[name])
          || (op.Update? && name == op.definition.name && after[name].id == op.id);
    }
  }

  ghost predicate AllUnique(s: Catalog) { forall tenant :: UniqueIds(Overlay(s, tenant)) }

  /** A run that the maps' orders allow, and in which registrations bring in new IDs. */
  ghost predicate Orderly(s: Catalog, ops: seq<Operation>)
    decreases |ops|
  {
    ops != [] ==> Possible(s, ops[0]) && BringsNewId(s, ops[0]) && Orderly(Perform(s, ops[0]), ops[1..])
  }

  /** The same request, perhaps served by another entry. */
  predicate SameRequest(a: Operation, b: Operation) {
    || a == b
    || (a.Update? && b.Update? && b == Update(a.tenant, a.id, a.definition, b.key))
    || (a.Delete? && b.Delete? && b == Delete(a.tenant, a.id, b.key))
  }

  lemma OneStepAgrees(s: Catalog, a: Operation, b: Operation)
    requires AllUnique(s) && Possible(s, a) && Possible(s, b) && SameRequest(a, b) && BringsNewId(s, a)
    ensures Perform(s, a) == Perform(s, b) && AllUnique(Perform(s, a))
  {
    if a.Update? || a.Delete? { OrderDoesNotMatter(s, a.tenant, a.id, a.key, b.key); }
    if !a.AddGlobal? { UniquenessKeptIff(s, a); }
    hide UniqueIds, BringsNewId, Possible;
    forall tenant ensures UniqueIds(Overlay(Perform(s, a), tenant)) {
      OverlayAfter(s, a, tenant);
    }
  }

  /** As long as registrations bring in new IDs, whole runs come out the same for every order in which the
      maps yield their entries, and IDs stay unique. */
  lemma {:induction false} RunsAgree(s: Catalog, ops: seq<Operation>, other: seq<Operation>)
    requires AllUnique(s) && |ops| == |other| && Orderly(s, ops) && Orderly(s, other)
    requires forall k :: 0 <= k < |ops| ==> SameRequest(ops[k], other[k])
    ensures PerformAll(s, ops) == PerformAll(s, other) && AllUnique(PerformAll(s, ops))
    decreases |ops|
  {
    hide AllUnique, SameRequest, Perform, Possible, BringsNewId;
    if ops != [] {
      OneStepAgrees(s, ops[0], other[0]);
      RunsAgree(Perform(s, ops[0]), ops[1..], other[1..]);
    }
  }

  /** An update moves the entry it takes to its new name and touches no other entry, except that it
      overwrites the one whose name it lands on. */
  lemma UpdateLosesIff(s: Catalog, op: Operation, name: string)
    requires op.Update? && Possible(s, op)
    requires Carries(Overlay(s, op.tenant), op.key, op.id) && name in Overlay(s, op.tenant) && name != op.key
    ensures var before, after := Overlay(s, op.tenant), Overlay(Perform(s, op), op.tenant);
            && (op.definition.name != name ==> name in after && after[name] == before[name])
            && (op.definition.name == name ==> after[name] == Owned(op.definition, op.tenant, op.id))
            && |after| == if op.definition.name in before && op.definition.name != op.key then |before| - 1 else |before|
  {
    var before, after := Overlay(s, op.tenant), Overlay(Perform(s, op), op.tenant);
    var mine := op.definition.name;
    assert after.Keys == before.Keys - {op.key} + {mine};
    assert |before.Keys - {op.key}| == |before.Keys| - 1;
  }

  /** Deleting by its ID what was just registered under a new name and a new ID undoes the registration. */
  lemma DeleteUndoesRegister(s: Catalog, tenant: string, d: Definition, generated: string, key: string, name: string)
    requires var id := IdFor(d, generated);
             && d.name !in Overlay(s, tenant) && !HasId(Overlay(s, tenant), id)
             && Possible(Perform(s, Register(tenant, d, generated)), Delete(tenant, id, key))
    ensures var id := IdFor(d, generated);
            var during := Perform(s, Register(tenant, d, generated));
            && Lookup(during, tenant, d.name) == Some(Owned(d, tenant, id))
            && Overlay(Perform(during, Delete(tenant, id, key)), tenant) == Overlay(s, tenant)
            && Lookup(Perform(during, Delete(tenant, id, key)), tenant, name) == Lookup(s, tenant, name)
  {
    var id := IdFor(d, generated);
    var during := Perform(s, Register(tenant, d, generated));
    assert Carries(Overlay(during, tenant), d.name, id);
    assert Carries(Overlay(during, tenant), key, id);
    assert key == d.name;
  }

  // ---------------------------------------------------------------- the registry as an object

  datatype Resolution = Resolved(definitions: seq<Definition>) | Missing(name: string)

  ghost predicate FirstMissing(s: Catalog, tenant: string, names: seq<string>, k: nat)
    requires k < |names|
  {
    Lookup(s, tenant, names[k]).None? && forall j :: 0 <= j < k ==> Lookup(s, tenant, names[j]).Some?
  }

  class LiteToolRegistry {
    var globals: Tools
    var tenants: map<string, Tools>

    ghost function View(): Catalog
      reads this
    {
      Catalog(globals, tenants)
    }

    constructor ()
      ensures View() == Catalog(map[], map[])
    {
      globals, tenants := map[], map[];
    }

    method AddGlobalTool(d: Definition)
      modifies this
      ensures View() == Perform(old(View()), AddGlobal(d))
    {
      globals := globals[d.name := d];
    }

    method RegisterTool(tenant: string, definition: Definition, generated: string)
      modifies this
      ensures View() == Perform(old(View()), Register(tenant, definition, generated))
    {
      var d := definition;
      if d.id == "" {
        d := d.(id := generated);
      }
      d := d.(tenant := tenant);
      if tenant !in tenants {
        tenants := tenants[tenant := map[]];
      }
      tenants := tenants[tenant := tenants[tenant][d.name := d]];
    }

    method UpdateTool(tenant: string, id: string, definition: Definition) returns (found: bool, ghost key: string)
      modifies this
      ensures found <==> HasId(Overlay(old(View()), tenant), id)
      ensures Possible(old(View()), Update(tenant, id, definition, key))
      ensures View() == Perform(old(View()), Update(tenant, id, definition, key))
    {
      key := "";
      if tenant !in tenants {
        return false, key;
      }
      var names := tenants[tenant].Keys;
      while names != {}
        invariant View() == old(View()) && tenant in tenants && names <= tenants[tenant].Keys
        invariant forall name :: name in tenants[tenant] && name !in names ==> tenants[tenant][name].id != id
        decreases names
      {
        var name :| name in names;
        if tenants[tenant][name].id == id {
          var d := definition.(id := id, tenant := tenant);
          if d.name != name {
            tenants := tenants[tenant := tenants[tenant] - {name}];
          }
          assert tenants[tenant][d.name := d] == (old(tenants)[tenant] - {name})[d.name := d];
          tenants := tenants[tenant := tenants[tenant][d.name := d]];
          return true, name;
        }
        names := names - {name};
      }
      return false, key;
    }

    method DeleteTool(tenant: string, id: string) returns (found: bool, ghost key: string)
      modifies this
      ensures found <==> HasId(Overlay(old(View()), tenant), id)
      ensures Possible(old(View()), Delete(tenant, id, key))
      ensures View() == Perform(old(View()), Delete(tenant, id, key))
    {
      key := "";
      if tenant !in tenants {
        return false, key;
      }
      var names := tenants[tenant].Keys;
      while names != {}
        invariant View() == old(View()) && tenant in tenants && names <= tenants[tenant].Keys
        invariant forall name :: name in tenants[tenant] && name !in names ==> tenants[tenant][name].id != id
        decreases names
      {
        var name :| name in names;
        if tenants[tenant][name].id == id {
          tenants := tenants[tenant := tenants[tenant] - {name}];
          return true, name;
        }
        names := names - {name};
      }
      return false, key;
    }

    /** Every name through the overlay, or the first name that is nowhere. */
    method Resolve(tenant: string, names: seq<string>) returns (r: Resolution)
      ensures r.Resolved? <==> forall k :: 0 <= k < |names| ==> Lookup(View(), tenant, names[k]).Some?
      ensures r.Resolved? ==>
                && |r.definitions| == |names|
                && forall k :: 0 <= k < |names| ==> Lookup(View(), tenant, names[k]) == Some(r.definitions[k])
      ensures r.Missing? ==>
                exists k :: 0 <= k < |names| && names[k] == r.name && FirstMissing(View(), tenant, names, k)
    {
      var out: seq<Definition> := [];
      for i := 0 to |names|
        invariant |out| == i
        invariant forall k :: 0 <= k < i ==> Lookup(View(), tenant, names[k]) == Some(out[k])
      {
        var name := names[i];
        if tenant in tenants && name in tenants[tenant] {
          out := out + [tenants[tenant][name]];
        } else if name in globals {
          out := out + [globals[name]];
        } else {
          assert FirstMissing(View(), tenant, names, i);
          return Missing(name);
        }
      }
      return Resolved(out);
    }

    /** All entries of a map, each once, in whatever order it yields them. */
    static method Values(tools: Tools) returns (out: seq<Definition>)
      ensures |out| == |tools|
      ensures forall name :: name in tools ==> tools[name] in out
      ensures forall d :: d in out ==> exists name :: name in tools && tools[name] == d
    {
      out := [];
      var names := tools.Keys;
      while names != {}
        invariant names <= tools.Keys && |out| + |names| == |tools.Keys|
        invariant forall name :: name in tools && name !in names ==> tools[name] in out
        invariant forall d :: d in out ==> exists name :: name in tools && tools[name] == d
        decreases names
      {
        var name :| name in names;
        out := out + [tools[name]];
        names := names - {name};
      }
    }

    method ListGlobal() returns (out: seq<Definition>)
      ensures |out| == |globals|
      ensures forall d :: d in out <==> exists name :: name in globals && globals[name] == d
    {
      out := Values(globals);
    }

    method ListTenant(tenant: string) returns (out: seq<Definition>)
      ensures var tools := Overlay(View(), tenant);
              |out| == |tools| && forall d :: d in out <==> exists name :: name in tools && tools[name] == d
    {
      out := Values(if tenant in tenants then tenants[tenant] else map[]);
    }
  }
}
