/** The tool registry: three maps that are kept in step, and the listings made from them. */
module ToolRegistry {
  import opened Options
  import opened Tools

  const UNSPECIFIED := 0

  datatype Index = Index(tools: map<string, Tool>, categories: map<string, string>, effects: map<string, int>)
  datatype Error = Unclassified(name: string) | Collision(name: string)
  datatype Registration = Registration(index: Index, error: Option<Error>)

  predicate Classified(definitions: seq<Definition>) {
    forall k :: 0 <= k < |definitions| ==> definitions[k].effects != UNSPECIFIED
  }

  /** How many definitions come before the first whose effects are unspecified. */
  function CountClassified(definitions: seq<Definition>): (n: nat)
    ensures n <= |definitions| && Classified(definitions[..n])
    ensures n < |definitions| ==> definitions[n].effects == UNSPECIFIED
  {
    if definitions == [] || definitions[0].effects == UNSPECIFIED then 0
    else
      var n := CountClassified(definitions[1..]);
      assert forall k :: 1 <= k < n + 1 ==> definitions[k] == definitions[1..][..n][k - 1];
      n + 1
  }

  function NameSet(definitions: seq<Definition>): set<string> {
    set k | 0 <= k < |definitions| :: definitions[k].name
  }

  predicate DistinctNames(definitions: seq<Definition>) {
    forall i, j :: 0 <= i < j < |definitions| ==> definitions[i].name != definitions[j].name
  }

  /** How many definitions come before the first whose name is taken, by the registry or by an earlier
      definition of the same tool. */
  function CountFree(taken: set<string>, definitions: seq<Definition>): (n: nat)
    ensures n <= |definitions|
    decreases |definitions|
  {
    if definitions == [] || definitions[0].name in taken then 0
    else 1 + CountFree(taken + {definitions[0].name}, definitions[1..])
  }

  lemma NameSetOfRest(first: Definition, rest: seq<Definition>)
    ensures NameSet([first] + rest) == {first.name} + NameSet(rest)
  {
    var all := [first] + rest;
    assert all[0] == first;
    forall k | 0 <= k < |rest| ensures rest[k].name in NameSet(all) { assert all[k + 1] == rest[k]; }
  }

  lemma NameInSet(definitions: seq<Definition>, k: nat)
    requires k < |definitions|
    ensures definitions[k].name in NameSet(definitions)
  {
  }

  lemma DistinctWithFirst(first: Definition, rest: seq<Definition>)
    requires DistinctNames(rest) && first.name !in NameSet(rest)
    ensures DistinctNames([first] + rest)
  {
    forall k | 0 <= k < |rest| ensures rest[k].name != first.name { NameInSet(rest, k); }
  }

  lemma {:induction false} CountFreeIs(taken: set<string>, definitions: seq<Definition>)
    ensures var n := CountFree(taken, definitions);
            && DistinctNames(definitions[..n]) && NameSet(definitions[..n]) !! taken
            && (n < |definitions| ==> definitions[n].name in taken + NameSet(definitions[..n]))
    decreases |definitions|
  {
    if definitions != [] && definitions[0].name !in taken {
      var first, rest := definitions[0], definitions[1..];
      CountFreeIs(taken + {first.name}, rest);
      var n := CountFree(taken + {first.name}, rest);
      hide NameSet, DistinctNames;
      assert definitions[..n + 1] == [first] + rest[..n];
      NameSetOfRest(first, rest[..n]);
      DistinctWithFirst(first, rest[..n]);
    }
  }

  function Add(index: Index, category: string, t: Tool, definition: Definition): Index {
    Index(index.tools[definition.name := t], index.categories[definition.name := category],
          index.effects[definition.name := definition.effects])
  }

  function AddAll(index: Index, category: string, t: Tool, definitions: seq<Definition>): Index
    decreases |definitions|
  {
    if definitions == [] then index
    else
      var n := |definitions| - 1;
      Add(AddAll(index, category, t, definitions[..n]), category, t, definitions[n])
  }

  /** One definition without effects keeps everything out; otherwise the definitions go in one by one, up to
      the first whose name is taken. */
  function Register(index: Index, category: string, t: Tool): Registration {
    var definitions := Definitions(t);
    var c := CountClassified(definitions);
    if c < |definitions| then Registration(index, Some(Unclassified(definitions[c].name)))
    else
      var n := CountFree(index.tools.Keys, definitions);
      Registration(AddAll(index, category, t, definitions[..n]),
                   if n < |definitions| then Some(Collision(definitions[n].name)) else None)
  }

  function Unregister(index: Index, name: string): Index {
    Index(index.tools - {name}, index.categories - {name}, index.effects - {name})
  }

  // ---------------------------------------------------------------- what every run keeps

  /** The first definition of that name: what scanning the tool finds. */
  function Lookup(definitions: seq<Definition>, name: string): (d: Definition)
    requires Names(definitions, name)
    ensures d in definitions && d.name == name
  {
    if definitions[0].name == name then definitions[0]
    else
      assert Names(definitions[1..], name) by {
        var k :| 0 <= k < |definitions| && definitions[k].name == name;
        assert definitions[1..][k - 1] == definitions[k];
      }
      Lookup(definitions[1..], name)
  }

  lemma {:induction false} LookupIsFirst(definitions: seq<Definition>, k: nat)
    requires k < |definitions| && forall j :: 0 <= j < k ==> definitions[j].name != definitions[k].name
    ensures Names(definitions, definitions[k].name)
    ensures Lookup(definitions, definitions[k].name) == definitions[k]
    decreases |definitions|
  {
    if k > 0 { LookupIsFirst(definitions[1..], k - 1); }
  }

  ghost predicate InStep(index: Index) { index.tools.Keys == index.categories.Keys == index.effects.Keys }

  ghost predicate EntryOk(index: Index, name: string)
    requires name in index.tools && name in index.effects
  {
    && Names(Definitions(index.tools[name]), name)
    && index.effects[name] == Lookup(Definitions(index.tools[name]), name).effects
    && index.effects[name] != UNSPECIFIED
  }

  /** The three maps have the same keys, and each stored effect is what scanning the owning tool finds. */
  ghost predicate Consistent(index: Index) {
    && InStep(index)
    && forall name :: name in index.tools ==> EntryOk(index, name)
  }

  /** Adding makes one entry for each of the names ... */
  lemma {:induction false} AddAllKeys(index: Index, category: string, t: Tool, definitions: seq<Definition>)
    requires InStep(index)
    ensures var after := AddAll(index, category, t, definitions);
            InStep(after) && after.tools.Keys == index.tools.Keys + NameSet(definitions)
    decreases |definitions|
  {
    if definitions != [] {
      var n := |definitions| - 1;
      AddAllKeys(index, category, t, definitions[..n]);
      assert definitions == definitions[..n] + [definitions[n]];
      NameSetOfMore(definitions[..n], definitions[n]);
    }
  }

  lemma NameSetOfMore(definitions: seq<Definition>, d: Definition)
    ensures NameSet(definitions + [d]) == NameSet(definitions) + {d.name}
  {
    var more := definitions + [d];
    assert more[|definitions|] == d;
    assert forall k :: 0 <= k < |definitions| ==> more[k] == definitions[k];
  }

  /** ... with the tool, the category and the effects of its definition ... */
  lemma {:induction false} AddAllNew(index: Index, category: string, t: Tool, definitions: seq<Definition>, k: nat)
    requires InStep(index) && DistinctNames(definitions) && k < |definitions|
    ensures var after, name := AddAll(index, category, t, definitions), definitions[k].name;
            && name in after.tools && name in after.categories && name in after.effects
            && after.tools[name] == t && after.categories[name] == category
            && after.effects[name] == definitions[k].effects
    decreases |definitions|
  {
    var n := |definitions| - 1;
    if k < n { AddAllNew(index, category, t, definitions[..n], k); }
  }

  /** ... and leaves every other entry as it is. */
  lemma {:induction false} AddAllOld(index: Index, category: string, t: Tool, definitions: seq<Definition>, name: string)
    requires InStep(index) && name in index.tools && name !in NameSet(definitions)
    ensures var after := AddAll(index, category, t, definitions);
            && name in after.tools && name in after.categories && name in after.effects
            && after.tools[name] == index.tools[name] && after.categories[name] == index.categories[name]
            && after.effects[name] == index.effects[name]
    decreases |definitions|
  {
    if definitions != [] {
      var n := |definitions| - 1;
      assert definitions == definitions[..n] + [definitions[n]];
      NameSetOfMore(definitions[..n], definitions[n]);
      AddAllOld(index, category, t, definitions[..n], name);
    }
  }

  lemma AddedKeeps(index: Index, category: string, t: Tool, n: nat)
    requires Consistent(index) && Classified(Definitions(t)) && n <= |Definitions(t)|
    requires DistinctNames(Definitions(t)[..n]) && NameSet(Definitions(t)[..n]) !! index.tools.Keys
    ensures Consistent(AddAll(index, category, t, Definitions(t)[..n]))
  {
    hide AddAll, Lookup, Names, NameSet, Definitions;
    var definitions := Definitions(t);
    var added := definitions[..n];
    AddAllKeys(index, category, t, added);
    var after := AddAll(index, category, t, added);
    forall name | name in after.tools ensures EntryOk(after, name) {
      if name in NameSet(added) {
        var k := NameSetIndex(added, name);
        AddAllNew(index, category, t, added, k);
        assert forall j :: 0 <= j < k ==> added[j] == definitions[j];
        LookupIsFirst(definitions, k);
      } else {
        AddAllOld(index, category, t, added, name);
        assert EntryOk(index, name);
      }
    }
  }

  lemma RegisterKeeps(index: Index, category: string, t: Tool)
    requires Consistent(index)
    ensures Consistent(Register(index, category, t).index)
  {
    hide AddAll, CountFree, NameSet, Definitions, Consistent;
    if Classified(Definitions(t)) {
      CountFreeIs(index.tools.Keys, Definitions(t));
      AddedKeeps(index, category, t, CountFree(index.tools.Keys, Definitions(t)));
    }
  }

  lemma NameSetIndex(definitions: seq<Definition>, name: string) returns (k: nat)
    requires name in NameSet(definitions)
    ensures k < |definitions| && definitions[k].name == name
  {
    k :| 0 <= k < |definitions| && definitions[k].name == name;
  }

  lemma UnregisterKeeps(index: Index, name: string)
    requires Consistent(index)
    ensures Consistent(Unregister(index, name))
  {
    var after := Unregister(index, name);
    forall other | other in after.tools ensures EntryOk(after, other) { assert EntryOk(index, other); }
  }

  datatype Operation = Registering(category: string, tool: Tool) | Unregistering(name: string)

  function Perform(index: Index, op: Operation): Index {
    match op
    case Registering(category, tool) => Register(index, category, tool).index
    case Unregistering(name) => Unregister(index, name)
  }

  function PerformAll(index: Index, ops: seq<Operation>): Index
    decreases |ops|
  {
    if ops == [] then index else PerformAll(Perform(index, ops[0]), ops[1..])
  }

  const EMPTY := Index(map[], map[], map[])

  /** Every run of registrations and removals, failed ones included, keeps the maps consistent. */
  lemma {:induction false} RunKeeps(index: Index, ops: seq<Operation>)
    requires Consistent(index)
    ensures Consistent(PerformAll(index, ops))
    decreases |ops|
  {
    if ops != [] {
      match ops[0] {
        case Registering(category, tool) => RegisterKeeps(index, category, tool);
        case Unregistering(name) => UnregisterKeeps(index, name);
      }
      RunKeeps(Perform(index, ops[0]), ops[1..]);
    }
  }

  function EffectsFor(index: Index, name: string): int {
    if name in index.effects then index.effects[name] else UNSPECIFIED
  }

  /** After any run, the stored effect of a name is what a scan of its tool would find, and only unknown
      names are unspecified. */
  lemma EffectsAreScanned(ops: seq<Operation>, name: string)
    ensures var index := PerformAll(EMPTY, ops);
            && (name in index.tools ==>
                  Names(Definitions(index.tools[name]), name)
                  && EffectsFor(index, name) == Lookup(Definitions(index.tools[name]), name).effects)
            && (EffectsFor(index, name) == UNSPECIFIED <==> name !in index.tools)
  {
    RunKeeps(EMPTY, ops);
    var index := PerformAll(EMPTY, ops);
    if name in index.tools { assert EntryOk(index, name); }
  }

  /** A registration succeeds exactly when all effects are given, all names are new and no name is repeated;
      then every definition is in. */
  lemma RegisterSucceedsIff(index: Index, category: string, t: Tool)
    ensures Register(index, category, t).error.None? <==>
            Classified(Definitions(t)) && DistinctNames(Definitions(t))
            && NameSet(Definitions(t)) !! index.tools.Keys
    ensures Register(index, category, t).error.None? ==>
              Register(index, category, t).index == AddAll(index, category, t, Definitions(t))
  {
    var definitions := Definitions(t);
    var n := CountFree(index.tools.Keys, definitions);
    CountFreeIs(index.tools.Keys, definitions);
    assert definitions[..|definitions|] == definitions;
    if n < |definitions| && definitions[n].name in NameSet(definitions[..n]) {
      var k :| 0 <= k < n && definitions[..n][k].name == definitions[n].name;
      assert definitions[k].name == definitions[n].name;
    }
    if n < |definitions| {
      assert definitions[n].name in NameSet(definitions);
    }
  }

  /** What looking up a name answers. */
  ghost predicate Finds(index: Index, name: string, t: Option<Tool>) {
    if t.Some? then name in index.tools && index.tools[name] == t.value else name !in index.tools
  }

  /** After a removal the name finds nothing, and all others find what they did. */
  lemma FindsAfterUnregister(index: Index, other: string, name: string, found: Option<Tool>)
    requires Finds(index, name, found)
    ensures Finds(Unregister(index, other), name, if name == other then None else found)
  {
  }

  /** After a successful registration every name of the tool finds it, and every other name finds what it found
      before. */
  lemma FindsAfterRegister(index: Index, category: string, t: Tool, name: string, found: Option<Tool>)
    requires Consistent(index) && Finds(index, name, found) && Register(index, category, t).error.None?
    ensures Finds(Register(index, category, t).index, name, if Names(Definitions(t), name) then Some(t) else found)
  {
    RegisterSucceedsIff(index, category, t);
    hide AddAll, Definitions, Register, Classified, EntryOk;
    var definitions := Definitions(t);
    AddAllKeys(index, category, t, definitions);
    if Names(definitions, name) {
      var k :| 0 <= k < |definitions| && definitions[k].name == name;
      AddAllNew(index, category, t, definitions, k);
    } else if name in index.tools {
      AddAllOld(index, category, t, definitions, name);
    }
  }

  /** The first definition that does not say what it does. */
  ghost predicate FirstUnclassified(definitions: seq<Definition>, k: nat) {
    && k < |definitions| && definitions[k].effects == 0
    && forall j :: 0 <= j < k ==> definitions[j].effects != 0
  }

  /** A definition without effects is refused by name, the first of them, before anything is added; and only
      such definitions are. */
  lemma UnclassifiedIff(index: Index, category: string, t: Tool, name: string)
    ensures Register(index, category, t).error == Some(Unclassified(name)) <==>
            exists k: nat :: FirstUnclassified(Definitions(t), k) && Definitions(t)[k].name == name
    ensures Register(index, category, t).error == Some(Unclassified(name)) ==>
              Register(index, category, t).index == index
  {
    var definitions := Definitions(t);
    var c := CountClassified(definitions);
    assert forall j :: 0 <= j < c ==> definitions[..c][j] == definitions[j];
    if c < |definitions| {
      assert FirstUnclassified(definitions, c);
      assert Register(index, category, t).error == Some(Unclassified(definitions[c].name));
      if k: nat :| FirstUnclassified(definitions, k) && definitions[k].name == name {
        assert k == c && Unclassified(name) == Unclassified(definitions[c].name);
        assert FirstUnclassified(Definitions(t), c) && Definitions(t)[c].name == name;
      }
    } else {
      assert forall k: nat :: !FirstUnclassified(definitions, k);
    }
  }

  /** A collision stops the registration half way: exactly the definitions before the colliding one are in,
      all of them new, and the colliding name belongs to the registry or to one of them. */
  lemma CollisionKeepsPrefix(index: Index, category: string, t: Tool) returns (n: nat)
    requires InStep(index)
    requires Register(index, category, t).error.Some? && Register(index, category, t).error.value.Collision?
    ensures var definitions, r := Definitions(t), Register(index, category, t);
            && n < |definitions| && r.error.value.name == definitions[n].name
            && DistinctNames(definitions[..n]) && NameSet(definitions[..n]) !! index.tools.Keys
            && definitions[n].name in index.tools.Keys + NameSet(definitions[..n])
            && InStep(r.index) && r.index.tools.Keys == index.tools.Keys + NameSet(definitions[..n])
  {
    hide AddAll, NameSet, Definitions;
    n := CountFree(index.tools.Keys, Definitions(t));
    CountFreeIs(index.tools.Keys, Definitions(t));
    AddAllKeys(index, category, t, Definitions(t)[..n]);
  }

  /** The comment on Register promises that a failure adds nothing.  That is so exactly when the failure is
      about effects, or about the very first definition; otherwise the definitions before the colliding one
      stay registered. */
  lemma FailureAddsNothingIff(index: Index, category: string, t: Tool)
    requires Consistent(index) && Register(index, category, t).error.Some?
    ensures Register(index, category, t).index == index <==>
            !Classified(Definitions(t)) || Definitions(t)[0].name in index.tools
  {
    var definitions := Definitions(t);
    if Classified(definitions) {
      var n := CountFree(index.tools.Keys, definitions);
      CountFreeIs(index.tools.Keys, definitions);
      AddAllKeys(index, category, t, definitions[..n]);
      if n > 0 {
        assert definitions[..n][0].name in NameSet(definitions[..n]);
      } else {
        assert definitions[..n] == [];
      }
    }
  }

  /** A tool whose second definition collides leaves its first one behind. */
  lemma CollisionLeavesEarlierDefinitions()
    ensures exists index, category, t ::
              && Consistent(index) && Register(index, category, t).error.Some?
              && Register(index, category, t).index != index
  {
    hide AddAll, CountFree, CountClassified;
    var first, second := Definition("read_file", "", "", 1), Definition("exec", "", "", 3);
    var old1, t := Leaf(1, [second]), Leaf(2, [first, second]);
    var index := Register(EMPTY, "core", old1).index;
    RegisterKeeps(EMPTY, "core", old1);
    RegisterSucceedsIff(EMPTY, "core", old1);
    AddAllKeys(EMPTY, "core", old1, [second]);
    assert NameSet([second]) == {"exec"} by { assert [second][0].name == "exec"; }
    RegisterSucceedsIff(index, "files", t);
    assert Definitions(t)[1].name in NameSet(Definitions(t));
    FailureAddsNothingIff(index, "files", t);
  }
}
