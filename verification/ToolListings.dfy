/** What a listing by category is, and why it does not depend on the order in which maps yield their entries. */
module ToolListings {
  import opened Ordering
  import opened Tools
  import opened ToolRegistry

  datatype Category = Category(name: string, count: nat, tools: seq<Definition>)

  function CategoryName(c: Category): string { c.name }

  function DefinitionName(d: Definition): string { d.name }

  function FirstDefinitionName(t: Tool): string {
    if Definitions(t) == [] then "" else Definitions(t)[0].name
  }

  /** How often a definition belongs under a category: once for every time its tool lists it, if its name is
      registered there. */
  ghost function Belongs(index: Index, names: set<string>, category: string, d: Definition): nat
    requires names <= index.categories.Keys && InStep(index)
  {
    if d.name in names && index.categories[d.name] == category
    then multiset(Definitions(index.tools[d.name]))[d] else 0
  }

  ghost predicate IsCategory(index: Index, c: Category)
    requires InStep(index)
  {
    && c.count == |c.tools| > 0 && Sorted(c.tools, DefinitionName)
    && forall d :: multiset(c.tools)[d] == Belongs(index, index.categories.Keys, c.name, d)
  }

  /** The listing by category: one entry for each category in use, sorted at both levels. */
  ghost predicate IsListing(index: Index, result: seq<Category>)
    requires InStep(index)
  {
    && StrictlySorted(result, CategoryName)
    && (forall k :: 0 <= k < |result| ==> IsCategory(index, result[k]))
    && forall name :: name in index.categories ==>
         exists k :: 0 <= k < |result| && result[k].name == index.categories[name]
  }

  // ---------------------------------------------------------------- what a listing means

  /** Every registered tool names each of its definitions differently.  Registering such a tool is the only
      kind that succeeds. */
  ghost predicate AllDistinct(index: Index) {
    forall name :: name in index.tools ==> DistinctNames(Definitions(index.tools[name]))
  }

  lemma {:induction false} CountInDistinct(definitions: seq<Definition>, d: Definition)
    requires DistinctNames(definitions)
    ensures multiset(definitions)[d] == if d in definitions then 1 else 0
    decreases |definitions|
  {
    if definitions != [] {
      var n := |definitions| - 1;
      var before, last := definitions[..n], definitions[n];
      assert definitions == before + [last];
      CountInDistinct(before, d);
    }
  }

  /** With distinct names a category holds exactly the registered definitions of that category, in strict
      order of their names. */
  lemma CategoryIsExact(index: Index, c: Category)
    requires Consistent(index) && AllDistinct(index) && IsCategory(index, c)
    ensures StrictlySorted(c.tools, DefinitionName)
    ensures forall d :: d in c.tools <==>
              d.name in index.categories && index.categories[d.name] == c.name
              && d == Lookup(Definitions(index.tools[d.name]), d.name)
  {
    forall d ensures d in c.tools <==>
        d.name in index.categories && index.categories[d.name] == c.name
        && d == Lookup(Definitions(index.tools[d.name]), d.name) {
      assert d in c.tools <==> multiset(c.tools)[d] > 0;
      if d.name in index.categories {
        assert EntryOk(index, d.name);
        var definitions := Definitions(index.tools[d.name]);
        CountInDistinct(definitions, d);
        OnlyOne(definitions, d);
      }
    }
    forall i, j | 0 <= i < j < |c.tools| ensures c.tools[i].name != c.tools[j].name {
      var d, e := c.tools[i], c.tools[j];
      assert d in c.tools && e in c.tools;
      if d.name == e.name {
        CountTwice(c.tools, i, j);
        CountInDistinct(Definitions(index.tools[d.name]), d);
      }
    }
    SortedIsStrict(c.tools, DefinitionName);
  }

  lemma OnlyOne(definitions: seq<Definition>, d: Definition)
    requires DistinctNames(definitions) && Names(definitions, d.name)
    ensures d in definitions <==> d == Lookup(definitions, d.name)
  {
    var e := Lookup(definitions, d.name);
    if d in definitions {
      var i :| 0 <= i < |definitions| && definitions[i] == d;
      var j :| 0 <= j < |definitions| && definitions[j] == e;
    }
  }

  /** Whatever order the maps yield their entries in, the listing is the same. */
  lemma ListingIsUnique(index: Index, a: seq<Category>, b: seq<Category>)
    requires Consistent(index) && AllDistinct(index) && IsListing(index, a) && IsListing(index, b)
    ensures a == b
  {
    forall c ensures c in a <==> c in b {
      if c in a { ListedIn(index, a, b, c); }
      if c in b { ListedIn(index, b, a, c); }
    }
    StrictOrderIsUnique(a, b, CategoryName);
  }

  lemma ListedIn(index: Index, a: seq<Category>, b: seq<Category>, c: Category)
    requires Consistent(index) && AllDistinct(index) && IsListing(index, a) && IsListing(index, b) && c in a
    ensures c in b
  {
    var i :| 0 <= i < |a| && a[i] == c;
    CategoryIsExact(index, c);
    assert c.tools[0] in c.tools;
    var k :| 0 <= k < |b| && b[k].name == index.categories[c.tools[0].name];
    CategoryIsExact(index, b[k]);
    StrictOrderIsUnique(c.tools, b[k].tools, DefinitionName);
    assert b[k] in b;
  }

  function Total(listing: seq<Category>): nat {
    if listing == [] then 0 else Total(listing[..|listing| - 1]) + listing[|listing| - 1].count
  }

  ghost function NamesUnder(index: Index, category: string): set<string> {
    set name | name in index.categories && index.categories[name] == category
  }

  lemma {:induction false} DistinctNameSet(definitions: seq<Definition>)
    requires DistinctNames(definitions)
    ensures |NameSet(definitions)| == |definitions|
    decreases |definitions|
  {
    if definitions != [] {
      var n := |definitions| - 1;
      DistinctNameSet(definitions[..n]);
      assert definitions == definitions[..n] + [definitions[n]];
      NameSetOfMore(definitions[..n], definitions[n]);
    }
  }

  lemma CategorySize(index: Index, c: Category)
    requires Consistent(index) && AllDistinct(index) && IsCategory(index, c)
    ensures |NamesUnder(index, c.name)| == c.count
  {
    CategoryIsExact(index, c);
    assert DistinctNames(c.tools) by {
      forall i, j | 0 <= i < j < |c.tools| ensures c.tools[i].name != c.tools[j].name {
        LessTotal(c.tools[i].name, c.tools[j].name);
        assert Less(DefinitionName(c.tools[i]), DefinitionName(c.tools[j]));
      }
    }
    DistinctNameSet(c.tools);
    forall name | name in NamesUnder(index, c.name) ensures name in NameSet(c.tools) {
      assert EntryOk(index, name);
      var d := Lookup(Definitions(index.tools[name]), name);
      assert d in c.tools;
      var k :| 0 <= k < |c.tools| && c.tools[k] == d;
    }
    assert NameSet(c.tools) == NamesUnder(index, c.name);
  }

  ghost function NamesUpTo(index: Index, listing: seq<Category>): set<string>
    decreases |listing|
  {
    if listing == [] then {}
    else NamesUpTo(index, listing[..|listing| - 1]) + NamesUnder(index, listing[|listing| - 1].name)
  }

  lemma {:induction false} NamesUpToIs(index: Index, listing: seq<Category>, name: string)
    requires name in index.categories
    ensures name in NamesUpTo(index, listing) <==>
            exists k :: 0 <= k < |listing| && listing[k].name == index.categories[name]
    decreases |listing|
  {
    if listing != [] { NamesUpToIs(index, listing[..|listing| - 1], name); }
  }

  lemma {:induction false} CountsUpTo(index: Index, listing: seq<Category>)
    requires Consistent(index) && AllDistinct(index) && StrictlySorted(listing, CategoryName)
    requires forall k :: 0 <= k < |listing| ==> IsCategory(index, listing[k])
    ensures Total(listing) == |NamesUpTo(index, listing)| && NamesUpTo(index, listing) <= index.categories.Keys
    decreases |listing|
  {
    hide IsCategory, Consistent, AllDistinct, Less;
    if listing != [] {
      var n := |listing| - 1;
      var before, last := listing[..n], listing[n];
      CountsUpTo(index, before);
      CategorySize(index, last);
      forall name | name in NamesUpTo(index, before) ensures name !in NamesUnder(index, last.name) {
        NamesUpToIs(index, before, name);
        var k :| 0 <= k < n && before[k].name == index.categories[name];
        assert Less(CategoryName(listing[k]), CategoryName(last));
        LessTotal(listing[k].name, last.name);
      }
    }
  }

  /** The counts of a listing add up to the number of registered names: every name is in exactly one
      category. */
  lemma CountsAddUp(index: Index, listing: seq<Category>)
    requires Consistent(index) && AllDistinct(index) && IsListing(index, listing)
    ensures Total(listing) == |index.categories|
  {
    CountsUpTo(index, listing);
    forall name | name in index.categories ensures name in NamesUpTo(index, listing) {
      NamesUpToIs(index, listing, name);
    }
    assert NamesUpTo(index, listing) == index.categories.Keys;
  }

  ghost predicate AllSucceed(index: Index, ops: seq<Operation>)
    decreases |ops|
  {
    ops != [] ==>
      && (ops[0].Registering? ==> Register(index, ops[0].category, ops[0].tool).error.None?)
      && AllSucceed(Perform(index, ops[0]), ops[1..])
  }

  /** As long as no registration fails, the registered tools name their definitions differently. */
  lemma {:induction false} SuccessesAreDistinct(index: Index, ops: seq<Operation>)
    requires Consistent(index) && AllDistinct(index) && AllSucceed(index, ops)
    ensures AllDistinct(PerformAll(index, ops))
    decreases |ops|
  {
    if ops != [] {
      match ops[0] {
        case Registering(category, tool) =>
          RegisterKeeps(index, category, tool);
          RegisterSucceedsIff(index, category, tool);
          AddAllDistinct(index, category, tool);
        case Unregistering(name) => UnregisterKeeps(index, name);
      }
      SuccessesAreDistinct(Perform(index, ops[0]), ops[1..]);
    }
  }

  lemma AddAllDistinct(index: Index, category: string, t: Tool)
    requires Consistent(index) && AllDistinct(index) && DistinctNames(Definitions(t))
    ensures AllDistinct(AddAll(index, category, t, Definitions(t)))
  {
    hide AddAll, Definitions, NameSet;
    var definitions := Definitions(t);
    var after := AddAll(index, category, t, definitions);
    AddAllKeys(index, category, t, definitions);
    forall name | name in after.tools ensures DistinctNames(Definitions(after.tools[name])) {
      if name in NameSet(definitions) {
        var k := NameSetIndex(definitions, name);
        AddAllNew(index, category, t, definitions, k);
      } else {
        AddAllOld(index, category, t, definitions, name);
      }
    }
  }
}
