/** The registry object: its loops, proved against the index and the listings. */
module ToolRegistryObject {
  import opened Options
  import opened Ordering
  import opened Tools
  import opened ToolRegistry
  import opened ToolListings

  // ---------------------------------------------------------------- grouping by category

  function Matching(definitions: seq<Definition>, name: string): seq<Definition> {
    if definitions == [] then []
    else
      var n := |definitions| - 1;
      Matching(definitions[..n], name) + if definitions[n].name == name then [definitions[n]] else []
  }

  lemma {:induction false} MatchingCount(definitions: seq<Definition>, name: string, d: Definition)
    ensures multiset(Matching(definitions, name))[d] == if d.name == name then multiset(definitions)[d] else 0
    decreases |definitions|
  {
    if definitions != [] {
      var n := |definitions| - 1;
      MatchingCount(definitions[..n], name, d);
      assert definitions == definitions[..n] + [definitions[n]];
    }
  }

  lemma MatchingSome(definitions: seq<Definition>, name: string)
    requires Names(definitions, name)
    ensures Matching(definitions, name) != []
  {
    var d := Lookup(definitions, name);
    MatchingCount(definitions, name, d);
    assert d in multiset(definitions);
    assert Matching(definitions, name) == [] ==> multiset(Matching(definitions, name))[d] == 0;
  }

  lemma MatchingStep(definitions: seq<Definition>, name: string, j: nat)
    requires j < |definitions|
    ensures Matching(definitions[..j + 1], name) ==
            if definitions[j].name == name then Matching(definitions[..j], name) + [definitions[j]]
            else Matching(definitions[..j], name)
  {
    assert definitions[..j + 1][..j] == definitions[..j];
  }

  function At(groups: map<string, seq<Definition>>, category: string): seq<Definition> {
    if category in groups then groups[category] else []
  }

  /** The groups made from the entries of some of the names. */
  ghost predicate Grouped(index: Index, names: set<string>, groups: map<string, seq<Definition>>) {
    && InStep(index) && names <= index.categories.Keys
    && (forall category, d :: multiset(At(groups, category))[d] == Belongs(index, names, category, d))
    && (forall category :: category in groups ==> groups[category] != [])
    && forall name :: name in names ==> index.categories[name] in groups
  }

  lemma NothingGrouped(index: Index)
    requires InStep(index)
    ensures Grouped(index, {}, map[])
  {
  }

  lemma GroupedAt(index: Index, names: set<string>, groups: map<string, seq<Definition>>, category: string,
                  d: Definition)
    requires Grouped(index, names, groups)
    ensures multiset(At(groups, category))[d] == Belongs(index, names, category, d)
  {
  }

  lemma CountOfConcat<T>(a: seq<T>, b: seq<T>, x: T)
    ensures multiset(a + b)[x] == multiset(a)[x] + multiset(b)[x]
  {
    assert multiset(a + b) == multiset(a) + multiset(b);
  }

  lemma CountOneMore(index: Index, names: set<string>, groups: map<string, seq<Definition>>, name: string,
                     category: string, d: Definition)
    requires InStep(index) && Grouped(index, names, groups) && name in index.categories && name !in names
    ensures var mine := index.categories[name];
            var after := groups[mine := At(groups, mine) + Matching(Definitions(index.tools[name]), name)];
            multiset(At(after, category))[d] == Belongs(index, names + {name}, category, d)
  {
    hide Matching, Definitions, Grouped;
    var mine, definitions := index.categories[name], Definitions(index.tools[name]);
    GroupedAt(index, names, groups, category, d);
    if category == mine {
      MatchingCount(definitions, name, d);
      CountOfConcat(At(groups, mine), Matching(definitions, name), d);
    }
  }

  lemma GroupOneMore(index: Index, names: set<string>, groups: map<string, seq<Definition>>, name: string)
    requires Consistent(index) && Grouped(index, names, groups) && name in index.categories && name !in names
    ensures var category := index.categories[name];
            var more := Matching(Definitions(index.tools[name]), name);
            Grouped(index, names + {name}, groups[category := At(groups, category) + more])
  {
    hide Matching, Definitions, Lookup, Names, Belongs;
    var mine, definitions := index.categories[name], Definitions(index.tools[name]);
    var after := groups[mine := At(groups, mine) + Matching(definitions, name)];
    NamesItself(index, name);
    MatchingSome(definitions, name);
    forall category, d ensures multiset(At(after, category))[d] == Belongs(index, names + {name}, category, d) {
      CountOneMore(index, names, groups, name, category, d);
    }
  }

  lemma NamesItself(index: Index, name: string)
    requires Consistent(index) && name in index.tools
    ensures Names(Definitions(index.tools[name]), name)
  {
    assert EntryOk(index, name);
  }

  // ---------------------------------------------------------------- listing the groups

  /** The entries of a listing made so far, one for each group that has been handled. */
  ghost predicate Listed(index: Index, groups: map<string, seq<Definition>>, left: set<string>, result: seq<Category>) {
    && InStep(index) && left <= groups.Keys
    && (forall k :: 0 <= k < |result| ==>
          IsCategory(index, result[k]) && result[k].name in groups && result[k].name !in left)
    && (forall i, j :: 0 <= i < j < |result| ==> result[i].name != result[j].name)
    && forall category :: category in groups && category !in left ==>
         exists k :: 0 <= k < |result| && result[k].name == category
  }

  lemma ListOneMore(index: Index, groups: map<string, seq<Definition>>, left: set<string>, result: seq<Category>,
                    category: string, sorted: seq<Definition>)
    requires Grouped(index, index.categories.Keys, groups) && Listed(index, groups, left, result)
    requires category in left && multiset(sorted) == multiset(groups[category]) && Sorted(sorted, DefinitionName)
    ensures Listed(index, groups, left - {category}, result + [Category(category, |sorted|, sorted)])
  {
    var c := Category(category, |sorted|, sorted);
    assert IsCategory(index, c) by {
      forall d ensures multiset(c.tools)[d] == Belongs(index, index.categories.Keys, c.name, d) {
        GroupedAt(index, index.categories.Keys, groups, category, d);
      }
      assert |multiset(sorted)| == |sorted| && |multiset(groups[category])| == |groups[category]|;
    }
    hide IsCategory;
    var more := result + [c];
    assert more[|result|] == c;
    forall other | other in groups && other !in left - {category}
      ensures exists k :: 0 <= k < |more| && more[k].name == other {
      if other != category {
        var k :| 0 <= k < |result| && result[k].name == other;
        assert more[k].name == other;
      }
    }
  }

  /** Once all groups are handled, sorting the entries by name gives the listing. */
  lemma ListedAll(index: Index, groups: map<string, seq<Definition>>, result: seq<Category>, sorted: seq<Category>)
    requires Grouped(index, index.categories.Keys, groups) && Listed(index, groups, {}, result)
    requires multiset(sorted) == multiset(result) && Sorted(sorted, CategoryName)
    ensures IsListing(index, sorted)
  {
    hide IsCategory;
    forall k | 0 <= k < |sorted| ensures IsCategory(index, sorted[k]) {
      var i := InPermutation(sorted, result, k);
    }
    forall name | name in index.categories
      ensures exists k :: 0 <= k < |sorted| && sorted[k].name == index.categories[name] {
      var k :| 0 <= k < |result| && result[k].name == index.categories[name];
      var i := InPermutation(result, sorted, k);
    }
    PermutationIsDistinct(result, sorted);
    forall i, j | 0 <= i < j < |sorted| ensures CategoryName(sorted[i]) != CategoryName(sorted[j]) {
      if sorted[i].name == sorted[j].name {
        var k := InPermutation(sorted, result, i);
        var l := InPermutation(sorted, result, j);
        assert false;
      }
    }
    SortedIsStrict(sorted, CategoryName);
  }

  // ---------------------------------------------------------------- registering step by step

  lemma ClassifiedStep(definitions: seq<Definition>, i: nat)
    requires i < |definitions|
    ensures CountClassified(definitions[i..]) ==
            if definitions[i].effects == UNSPECIFIED then 0 else 1 + CountClassified(definitions[i + 1..])
  {
    assert definitions[i..][1..] == definitions[i + 1..];
  }

  lemma FreeStep(taken: set<string>, definitions: seq<Definition>, i: nat)
    requires i < |definitions|
    ensures CountFree(taken, definitions[i..]) ==
            if definitions[i].name in taken then 0
            else 1 + CountFree(taken + {definitions[i].name}, definitions[i + 1..])
  {
    assert definitions[i..][1..] == definitions[i + 1..];
  }

  lemma AddStep(index: Index, category: string, t: Tool, definitions: seq<Definition>, i: nat)
    requires i < |definitions|
    ensures AddAll(index, category, t, definitions[..i + 1]) ==
            Add(AddAll(index, category, t, definitions[..i]), category, t, definitions[i])
  {
    assert definitions[..i + 1][..i] == definitions[..i];
  }

  lemma MatchingNone(name: string)
    ensures Matching([], name) == []
  {
  }

  /** The inner loop of Categories: the definitions of that name join the group. */
  method AppendMatching(groups: map<string, seq<Definition>>, category: string, definitions: seq<Definition>,
                        name: string)
    returns (after: map<string, seq<Definition>>)
    requires Matching(definitions, name) != []
    ensures after == groups[category := At(groups, category) + Matching(definitions, name)]
  {
    hide Matching;
    after := groups;
    MatchingNone(name);
    assert definitions[..0] == [];
    for j := 0 to |definitions|
      invariant var found := Matching(definitions[..j], name);
                after == if found == [] then groups else groups[category := At(groups, category) + found]
    {
      MatchingStep(definitions, name, j);
      if definitions[j].name == name {
        Regroup(At(groups, category), Matching(definitions[..j], name), [definitions[j]]);
        after := after[category := At(after, category) + [definitions[j]]];
      }
    }
    assert definitions[..|definitions|] == definitions;
  }

  lemma Regroup<T>(a: seq<T>, b: seq<T>, c: seq<T>)
    ensures a + b + c == a + (b + c) && a + [] == a && [] + c == c
  {
  }

  /** One round of the outer loop, told by the names that are still to come. */
  lemma GroupStep(index: Index, left: set<string>, groups: map<string, seq<Definition>>, name: string)
    requires Consistent(index) && left <= index.categories.Keys && name in left
    requires Grouped(index, index.categories.Keys - left, groups)
    ensures var category := index.categories[name];
            var more := Matching(Definitions(index.tools[name]), name);
            more != [] &&
            Grouped(index, index.categories.Keys - (left - {name}), groups[category := At(groups, category) + more])
  {
    hide Matching, Grouped, Definitions, At;
    NamesItself(index, name);
    MatchingSome(Definitions(index.tools[name]), name);
    GroupOneMore(index, index.categories.Keys - left, groups, name);
    assert index.categories.Keys - left + {name} == index.categories.Keys - (left - {name});
  }

  class Registry {
    var tools: map<string, Tool>
    var categories: map<string, string>
    var effects: map<string, int>

    ghost function View(): Index
      reads this
    {
      Index(tools, categories, effects)
    }

    constructor ()
      ensures View() == EMPTY
    {
      tools, categories, effects := map[], map[], map[];
    }

    method Register(category: string, t: Tool) returns (error: Option<Error>)
      modifies this
      ensures Registration(View(), error) == ToolRegistry.Register(old(View()), category, t)
    {
      hide CountClassified, CountFree, AddAll, Definitions;
      var definitions := AskDefinitions(t);
      assert definitions[0..] == definitions;
      for i := 0 to |definitions|
        invariant CountClassified(definitions) == i + CountClassified(definitions[i..]) && View() == old(View())
      {
        ClassifiedStep(definitions, i);
        if definitions[i].effects == UNSPECIFIED {
          return Some(Unclassified(definitions[i].name));
        }
      }
      ghost var before, taken := View(), tools.Keys;
      assert AddAll(before, category, t, definitions[..0]) == before by { AddNone(before, category, t); }
      for i := 0 to |definitions|
        invariant CountFree(taken, definitions) == i + CountFree(tools.Keys, definitions[i..])
        invariant View() == AddAll(before, category, t, definitions[..i])
      {
        var d := definitions[i];
        FreeStep(tools.Keys, definitions, i);
        AddStep(before, category, t, definitions, i);
        if d.name in tools {
          return Some(Collision(d.name));
        }
        assert tools[d.name := t].Keys == tools.Keys + {d.name};
        tools := tools[d.name := t];
        categories := categories[d.name := category];
        effects := effects[d.name := d.effects];
      }
      return None;
    }

    /** A tool that is found owns the name, and its definition tells the effects; none is found exactly for
        the names without effects. */
    method Get(name: string) returns (t: Option<Tool>)
      ensures Finds(View(), name, t)
      ensures Consistent(View()) && t.Some? ==>
                Names(Definitions(t.value), name)
                && EffectsFor(View(), name) == Lookup(Definitions(t.value), name).effects
      ensures Consistent(View()) ==> (t.None? <==> EffectsFor(View(), name) == UNSPECIFIED)
    {
      assert Consistent(View()) && name in tools ==> EntryOk(View(), name);
      return if name in tools then Some(tools[name]) else None;
    }

    method EffectsOf(name: string) returns (effect: int)
      ensures effect == EffectsFor(View(), name)
    {
      return if name in effects then effects[name] else UNSPECIFIED;
    }

    method Unregister(name: string)
      modifies this
      ensures View() == ToolRegistry.Unregister(old(View()), name)
    {
      categories := categories - {name};
      tools := tools - {name};
      effects := effects - {name};
    }

    /** The definitions of each category, in the order in which the maps happen to yield them. */
    method GroupByCategory() returns (groups: map<string, seq<Definition>>)
      requires Consistent(View())
      ensures Grouped(View(), categories.Keys, groups)
    {
      ghost var index := View();
      groups := map[];
      var names := categories.Keys;
      NothingGrouped(index);
      assert names - names == {} && tools.Keys == categories.Keys;
      hide *;
      while names != {}
        invariant categories == index.categories && tools == index.tools && names <= index.categories.Keys
        invariant Grouped(index, index.categories.Keys - names, groups)
        decreases names
      {
        var name :| name in names;
        GroupStep(index, names, groups, name);
        var category := categories[name];
        var definitions := AskDefinitions(tools[name]);
        groups := AppendMatching(groups, category, definitions, name);
        names := names - {name};
      }
      assert index.categories.Keys - {} == index.categories.Keys;
    }

    method Categories() returns (result: seq<Category>)
      requires Consistent(View())
      ensures IsListing(View(), result)
    {
      var groups := GroupByCategory();
      result := [];
      var left := groups.Keys;
      assert Listed(View(), groups, left, result);
      hide Grouped, Listed, IsListing;
      while left != {}
        invariant left <= groups.Keys && Listed(View(), groups, left, result)
        decreases left
      {
        var category :| category in left;
        var sorted := Sort(groups[category], DefinitionName);
        ListOneMore(View(), groups, left, result, category, sorted);
        result := result + [Category(category, |sorted|, sorted)];
        left := left - {category};
      }
      ghost var unsorted := result;
      result := Sort(result, CategoryName);
      ListedAll(View(), groups, unsorted, result);
    }

    /** The tools of a category, each once, by the name of their first definition; ties are in any order. */
    method ToolsByCategory(category: string) returns (result: seq<Tool>)
      requires Consistent(View())
      ensures Distinct(result)
      ensures forall i, j :: 0 <= i < j < |result| ==>
                var a, b := Definitions(result[i]), Definitions(result[j]);
                !Less(if b == [] then "" else b[0].name, if a == [] then "" else a[0].name)
      ensures forall t :: t in result <==>
                exists name :: name in categories && categories[name] == category && tools[name] == t
    {
      ghost var index := View();
      var seen: set<Tool> := {};
      result := [];
      var names := categories.Keys;
      hide Definitions, EntryOk;
      while names != {}
        invariant names <= categories.Keys && View() == index
        invariant Distinct(result) && seen == set t | t in result
        invariant forall t :: t in result <==>
                    exists name :: name in categories && name !in names
                                   && categories[name] == category && tools[name] == t
        decreases names
      {
        var name :| name in names;
        if categories[name] == category {
          var t := tools[name];
          if t !in seen {
            seen := seen + {t};
            result := result + [t];
          }
        }
        names := names - {name};
      }
      var sorted := Sort(result, FirstDefinitionName);
      PermutationIsDistinct(result, sorted);
      result := sorted;
      SortedByFirstName(result);
    }

    method ToolsByNames(names: seq<string>) returns (result: seq<Tool>)
      ensures result == FirstSeen(ToolsNamed(tools, names))
    {
      var seen: set<Tool> := {};
      result := [];
      for i := 0 to |names|
        invariant result == FirstSeen(ToolsNamed(tools, names[..i])) && seen == set t | t in result
      {
        assert names[..i + 1][..i] == names[..i];
        if names[i] in tools { FirstSeenStep(ToolsNamed(tools, names[..i]), tools[names[i]]); }
        if names[i] in tools && tools[names[i]] !in seen {
          seen := seen + {tools[names[i]]};
          result := result + [tools[names[i]]];
        }
      }
      assert names[..|names|] == names;
    }
  }

  /** The tools of those names that are registered, in the order of the names. */
  function ToolsNamed(tools: map<string, Tool>, names: seq<string>): seq<Tool> {
    if names == [] then []
    else
      var n := |names| - 1;
      if names[n] in tools then ToolsNamed(tools, names[..n]) + [tools[names[n]]] else ToolsNamed(tools, names[..n])
  }

  lemma {:induction false} ToolsNamedIs(tools: map<string, Tool>, names: seq<string>, t: Tool)
    ensures t in ToolsNamed(tools, names) <==>
            exists k :: 0 <= k < |names| && names[k] in tools && tools[names[k]] == t
    decreases |names|
  {
    if names != [] { ToolsNamedIs(tools, names[..|names| - 1], t); }
  }

  lemma SortedByFirstName(tools: seq<Tool>)
    requires Sorted(tools, FirstDefinitionName)
    ensures forall i, j :: 0 <= i < j < |tools| ==>
              var a, b := Definitions(tools[i]), Definitions(tools[j]);
              !Less(if b == [] then "" else b[0].name, if a == [] then "" else a[0].name)
  {
    hide Definitions, Less;
  }

  /** The tools asked for by name come in the order of the names: a tool that is listed before another is named
      before the other is named for the first time. */
  lemma {:induction false} ToolsComeInOrder(tools: map<string, Tool>, names: seq<string>, i: nat, j: nat)
    returns (k: nat)
    requires i < j < |FirstSeen(ToolsNamed(tools, names))|
    ensures var r := FirstSeen(ToolsNamed(tools, names));
            && k < |names| && names[k] in tools && tools[names[k]] == r[i]
            && forall l :: 0 <= l <= k && names[l] in tools ==> tools[names[l]] != r[j]
    decreases |names|
  {
    var n := |names| - 1;
    var before := names[..n];
    var q := ToolsNamed(tools, before);
    if names[n] in tools { FirstSeenStep(q, tools[names[n]]); }
    assert ToolsNamed(tools, names) == if names[n] in tools then q + [tools[names[n]]] else q;
    hide ToolsNamed, FirstSeen;
    if j < |FirstSeen(q)| {
      k := ToolsComeInOrder(tools, before, i, j);
    } else {
      FirstSeenIs(q);
      assert FirstSeen(q)[i] in q;
      ToolsNamedIs(tools, before, FirstSeen(q)[i]);
      k :| 0 <= k < n && before[k] in tools && tools[before[k]] == FirstSeen(q)[i];
      forall l | 0 <= l <= k && names[l] in tools ensures tools[names[l]] != tools[names[n]] {
        ToolsNamedIs(tools, before, tools[names[l]]);
        assert before[l] == names[l];
      }
    }
  }

  lemma AddNone(index: Index, category: string, t: Tool)
    ensures AddAll(index, category, t, []) == index
  {
  }
}
