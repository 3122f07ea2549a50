/** Tools, and composites that pass a call on to the first tool that owns the name. */
module Tools {
  import opened Options

  datatype Definition = Definition(name: string, description: string, parameters: string, effects: int)

  /** A tool is known by its identity.  A leaf stands for any implementation whose definitions are stable. */
  datatype Tool = Leaf(id: nat, definitions: seq<Definition>) | Composite(id: nat, tools: seq<Tool>)

  function Definitions(t: Tool): seq<Definition>
    decreases t
  {
    match t
    case Leaf(_, definitions) => definitions
    case Composite(_, tools) => Merged(tools)
  }

  function Merged(tools: seq<Tool>): seq<Definition>
    decreases tools
  {
    if tools == [] then [] else Definitions(tools[0]) + Merged(tools[1..])
  }

  predicate Names(definitions: seq<Definition>, name: string) {
    exists k :: 0 <= k < |definitions| && definitions[k].name == name
  }

  lemma NamesOfConcat(a: seq<Definition>, b: seq<Definition>, name: string)
    ensures Names(a + b, name) <==> Names(a, name) || Names(b, name)
  {
    if k :| 0 <= k < |a| && a[k].name == name { assert (a + b)[k] == a[k]; }
    if k :| 0 <= k < |b| && b[k].name == name { assert (a + b)[|a| + k] == b[k]; }
  }

  /** The leaf a call reaches.  A leaf takes every call it is given. */
  function Dispatched(t: Tool, name: string): Option<Tool>
    decreases t
  {
    match t
    case Leaf(_, _) => Some(t)
    case Composite(_, tools) => FirstOwner(tools, name)
  }

  function FirstOwner(tools: seq<Tool>, name: string): Option<Tool>
    decreases tools
  {
    if tools == [] then None
    else if Names(Definitions(tools[0]), name) then Dispatched(tools[0], name)
    else FirstOwner(tools[1..], name)
  }

  /** The leaves from left to right. */
  function Leaves(t: Tool): seq<Tool>
    decreases t
  {
    match t
    case Leaf(_, _) => [t]
    case Composite(_, tools) => AllLeaves(tools)
  }

  function AllLeaves(tools: seq<Tool>): seq<Tool>
    decreases tools
  {
    if tools == [] then [] else Leaves(tools[0]) + AllLeaves(tools[1..])
  }

  lemma {:induction false} MergedOfConcat(a: seq<Tool>, b: seq<Tool>)
    ensures Merged(a + b) == Merged(a) + Merged(b)
    decreases |a|
  {
    if a == [] {
      assert a + b == b;
    } else {
      assert (a + b)[1..] == a[1..] + b;
      MergedOfConcat(a[1..], b);
    }
  }

  lemma {:induction false} FirstOwnerOfConcat(a: seq<Tool>, b: seq<Tool>, name: string)
    ensures FirstOwner(a + b, name) ==
            if Names(Merged(a), name) then FirstOwner(a, name) else FirstOwner(b, name)
    decreases |a|
  {
    if a == [] {
      assert a + b == b;
    } else {
      assert (a + b)[1..] == a[1..] + b;
      FirstOwnerOfConcat(a[1..], b, name);
      NamesOfConcat(Definitions(a[0]), Merged(a[1..]), name);
    }
  }

  /** The leaves of a tool together define what it defines, and the first of them that owns a name is
      where its calls go. */
  lemma {:induction false} LeavesStandFor(t: Tool, name: string)
    ensures Merged(Leaves(t)) == Definitions(t)
    ensures Names(Definitions(t), name) ==> FirstOwner(Leaves(t), name) == Dispatched(t, name)
    decreases t
  {
    match t
    case Leaf(_, definitions) => assert Leaves(t) == [t] && Merged([t]) == definitions + [];
    case Composite(_, tools) => AllLeavesStandFor(tools, name);
  }

  lemma {:induction false} AllLeavesStandFor(tools: seq<Tool>, name: string)
    ensures Merged(AllLeaves(tools)) == Merged(tools)
    ensures FirstOwner(AllLeaves(tools), name) == FirstOwner(tools, name)
    decreases tools
  {
    if tools != [] {
      LeavesStandFor(tools[0], name);
      AllLeavesStandFor(tools[1..], name);
      MergedOfConcat(Leaves(tools[0]), AllLeaves(tools[1..]));
      FirstOwnerOfConcat(Leaves(tools[0]), AllLeaves(tools[1..]), name);
    }
  }

  /** One composite of all leaves is as good as any nesting: same definitions, same dispatch. */
  lemma FlatteningPreserves(id: nat, tools: seq<Tool>, name: string)
    ensures Definitions(Composite(id, AllLeaves(tools))) == Definitions(Composite(id, tools))
    ensures Dispatched(Composite(id, AllLeaves(tools)), name) == Dispatched(Composite(id, tools), name)
  {
    AllLeavesStandFor(tools, name);
  }

  /** A composite finds no tool exactly for the names it does not define, and otherwise the call ends at
      the first leaf, from left to right, that defines the name. */
  lemma {:induction false} DispatchReachesOwner(t: Tool, name: string)
    requires t.Composite?
    ensures Dispatched(t, name).None? <==> !Names(Definitions(t), name)
    ensures Dispatched(t, name).Some? ==>
              exists k :: 0 <= k < |Leaves(t)| && Dispatched(t, name) == Some(Leaves(t)[k])
                && Names(Definitions(Leaves(t)[k]), name)
                && forall j :: 0 <= j < k ==> !Names(Definitions(Leaves(t)[j]), name)
  {
    LeavesStandFor(t, name);
    AllLeavesStandFor(t.tools, name);
    LeavesAreLeaves(t);
    FirstOwnerIs(Leaves(t), name);
  }

  lemma {:induction false} LeavesAreLeaves(t: Tool)
    ensures forall k :: 0 <= k < |Leaves(t)| ==> Leaves(t)[k].Leaf?
    decreases t
  {
    if t.Composite? { AllLeavesAreLeaves(t.tools); }
  }

  lemma {:induction false} AllLeavesAreLeaves(tools: seq<Tool>)
    ensures forall k :: 0 <= k < |AllLeaves(tools)| ==> AllLeaves(tools)[k].Leaf?
    decreases tools
  {
    if tools != [] {
      LeavesAreLeaves(tools[0]);
      AllLeavesAreLeaves(tools[1..]);
    }
  }

  lemma {:induction false} FirstOwnerIs(leaves: seq<Tool>, name: string)
    requires forall k :: 0 <= k < |leaves| ==> leaves[k].Leaf?
    ensures FirstOwner(leaves, name).None? <==> !Names(Merged(leaves), name)
    ensures FirstOwner(leaves, name).Some? ==>
              exists k :: 0 <= k < |leaves| && FirstOwner(leaves, name) == Some(leaves[k])
                && Names(Definitions(leaves[k]), name)
                && forall j :: 0 <= j < k ==> !Names(Definitions(leaves[j]), name)
    decreases |leaves|
  {
    if leaves != [] {
      var rest := leaves[1..];
      NamesOfConcat(Definitions(leaves[0]), Merged(rest), name);
      FirstOwnerIs(rest, name);
      if !Names(Definitions(leaves[0]), name) && FirstOwner(rest, name).Some? {
        var k :| 0 <= k < |rest| && FirstOwner(rest, name) == Some(rest[k])
              && Names(Definitions(rest[k]), name)
              && forall j :: 0 <= j < k ==> !Names(Definitions(rest[j]), name);
        assert leaves[k + 1] == rest[k];
        assert forall j :: 1 <= j < k + 1 ==> leaves[j] == rest[j - 1];
      }
    }
  }

  // ---------------------------------------------------------------- the loops

  /** Asking a tool for its definitions; a composite collects those of its tools. */
  method AskDefinitions(t: Tool) returns (definitions: seq<Definition>)
    ensures definitions == Definitions(t)
    decreases t
  {
    match t
    case Leaf(_, own) => return own;
    case Composite(_, tools) =>
      definitions := [];
      for i := 0 to |tools|
        invariant definitions == Merged(tools[..i])
      {
        var more := AskDefinitions(tools[i]);
        definitions := definitions + more;
        MergedOfConcat(tools[..i], [tools[i]]);
        assert tools[..i + 1] == tools[..i] + [tools[i]] && Merged([tools[i]]) == Definitions(tools[i]) + [];
      }
      assert tools[..|tools|] == tools;
  }

  /** Executing a call: the leaf that gets it, or none. */
  method Execute(t: Tool, name: string) returns (leaf: Option<Tool>)
    ensures leaf == Dispatched(t, name)
    decreases t
  {
    match t
    case Leaf(_, _) => return Some(t);
    case Composite(_, tools) =>
      for i := 0 to |tools|
        invariant FirstOwner(tools, name) == FirstOwner(tools[i..], name)
      {
        var definitions := AskDefinitions(tools[i]);
        for j := 0 to |definitions|
          invariant !Names(definitions[..j], name)
        {
          if definitions[j].name == name {
            leaf := Execute(tools[i], name);
            return;
          }
        }
        assert definitions[..|definitions|] == definitions;
        assert tools[i..][1..] == tools[i + 1..];
      }
      return None;
  }
}
