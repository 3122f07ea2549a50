/** With unique block IDs execPage prints a forest: which blocks, how often, how deep and in what order. */
module PageForestTheorems {
  import opened Options
  import opened PageForest

  /** The block reached from block i by following k parent pointers. */
  function Up(bs: seq<Block>, i: nat, k: nat): (r: Option<nat>)
    requires i < |bs|
    ensures r.Some? ==> r.value < |bs|
    decreases k
  {
    if k == 0 then Some(i)
    else
      var p := Parent(bs, i);
      if p.None? then None else Up(bs, p.value, k - 1)
  }

  lemma {:induction false} UpAdd(bs: seq<Block>, i: nat, a: nat, b: nat)
    requires i < |bs| && Up(bs, i, a).Some?
    ensures Up(bs, i, a + b) == Up(bs, Up(bs, i, a).value, b)
    decreases a
  {
    if a > 0 { UpAdd(bs, Parent(bs, i).value, a - 1, b); }
  }

  /** Block i has exactly k listed ancestors, the last of them a root. */
  ghost predicate RootAt(bs: seq<Block>, i: nat, k: nat)
    requires i < |bs|
  {
    Up(bs, i, k).Some? && Parent(bs, Up(bs, i, k).value).None?
  }

  lemma RootAtOnce(bs: seq<Block>, i: nat, k: nat, m: nat)
    requires i < |bs| && RootAt(bs, i, k)
    ensures Up(bs, i, m).Some? <==> m <= k
    ensures RootAt(bs, i, m) ==> m == k
  {
    if m <= k {
      UpPrefix(bs, i, m, k);
      if m < k && RootAt(bs, i, m) { UpAdd(bs, i, m, k - m); }
    } else {
      UpAdd(bs, i, k, m - k);
    }
  }

  lemma {:induction false} UpPrefix(bs: seq<Block>, i: nat, m: nat, k: nat)
    requires i < |bs| && m <= k && Up(bs, i, k).Some?
    ensures Up(bs, i, m).Some?
    decreases m
  {
    if m > 0 { UpPrefix(bs, Parent(bs, i).value, m - 1, k - 1); }
  }

  lemma UniqueNode(bs: seq<Block>, i: nat)
    requires UniqueIds(bs) && i < |bs|
    ensures Node(bs, i) == i
  {
  }

  ghost predicate Ascending(vs: seq<nat>) { forall s, t :: 0 <= s < t < |vs| ==> vs[s] < vs[t] }

  /** Kids are the blocks with that parent, in input order. */
  lemma {:induction false} KidsAre(bs: seq<Block>, k: nat, m: nat)
    requires UniqueIds(bs) && m <= |bs|
    ensures var r := KidsUpTo(bs, k, m);
            && Ascending(r)
            && (forall t :: 0 <= t < |r| ==> r[t] < m && Parent(bs, r[t]) == Some(k))
            && (forall c: nat :: c < m && Parent(bs, c) == Some(k) ==> c in r)
  {
    hide Parent, Node, UniqueIds;
    if m > 0 {
      KidsAre(bs, k, m - 1);
      UniqueNode(bs, m - 1);
    }
  }

  lemma {:induction false} RootsAre(bs: seq<Block>, m: nat)
    requires UniqueIds(bs) && m <= |bs|
    ensures var r := RootsUpTo(bs, m);
            && Ascending(r)
            && (forall t :: 0 <= t < |r| ==> r[t] < m && Parent(bs, r[t]).None?)
            && (forall c: nat :: c < m && Parent(bs, c).None? ==> c in r)
  {
    hide Parent, Node, UniqueIds;
    if m > 0 {
      RootsAre(bs, m - 1);
      UniqueNode(bs, m - 1);
    }
  }

  /** Nodes at which printing can start at a given depth: distinct blocks that lie that deep. */
  ghost predicate Level(bs: seq<Block>, vs: seq<nat>, depth: nat) {
    Ascending(vs) && forall t :: 0 <= t < |vs| ==> vs[t] < |bs| && RootAt(bs, vs[t], depth)
  }

  lemma KidsLevel(bs: seq<Block>, v: nat, depth: nat)
    requires UniqueIds(bs) && v < |bs| && RootAt(bs, v, depth)
    ensures Level(bs, Kids(bs, v), depth + 1)
  {
    KidsAre(bs, v, |bs|);
  }

  lemma RetainedLevel(bs: seq<Block>, max: nat)
    requires UniqueIds(bs)
    ensures Level(bs, Retained(bs, max), 0)
  {
    RootsAre(bs, |bs|);
  }

  // ---------------------------------------------------------------- termination

  /** No call chain from a block that lies k deep comes back to a block it has passed: along it the
      depth grows by one with every call. */
  lemma {:induction false} ChainDeepens(bs: seq<Block>, p: seq<nat>, k: nat, t: nat)
    requires UniqueIds(bs) && IsPath(bs, p) && t < |p| && RootAt(bs, p[0], k)
    ensures RootAt(bs, p[t], k + t)
    decreases t
  {
    if t > 0 {
      ChainDeepens(bs, p, k, t - 1);
      KidsAre(bs, p[t - 1], |bs|);
      assert p[t - 1 + 1] in Kids(bs, p[t - 1]);
    }
  }

  /** With unique IDs the recursion ends from every root, whatever the parent pointers. */
  lemma UniqueIdsEnd(bs: seq<Block>, v: nat, k: nat)
    requires UniqueIds(bs) && v < |bs| && RootAt(bs, v, k)
    ensures !ReachesCycle(bs, v)
  {
    forall p | Loops(bs, p, v) ensures false {
      var s, t :| 0 <= s < t < |p| && p[s] == p[t];
      ChainDeepens(bs, p, k, s);
      ChainDeepens(bs, p, k, t);
      RootAtOnce(bs, p[s], k + s, k + t);
    }
  }

  lemma {:induction false} WalkAllEnds(bs: seq<Block>, vs: seq<nat>, depth: nat)
    requires Within(vs, |bs|) && forall t :: 0 <= t < |vs| ==> !ReachesCycle(bs, vs[t])
    ensures WalkAll(bs, vs, depth, |bs|).Some?
    decreases |vs|
  {
    if vs != [] {
      WalkEndsIff(bs, vs[0], depth);
      WalkAllEnds(bs, vs[1..], depth);
    }
  }

  /** What execPage prints below the page's heading. */
  ghost function Printed(bs: seq<Block>, max: nat): Option<seq<Line>> {
    WalkAll(bs, Retained(bs, max), 0, |bs|)
  }

  /** With unique IDs no retained root reaches a cycle, so the page is finite. */
  lemma PageEnds(bs: seq<Block>, max: nat)
    requires UniqueIds(bs)
    ensures var vs := Retained(bs, max); forall t :: 0 <= t < |vs| ==> !ReachesCycle(bs, vs[t])
    ensures Printed(bs, max).Some?
  {
    RetainedLevel(bs, max);
    var vs := Retained(bs, max);
    forall t | 0 <= t < |vs| ensures !ReachesCycle(bs, vs[t]) {
      UniqueIdsEnd(bs, vs[t], 0);
    }
    WalkAllEnds(bs, vs, 0);
  }

  /** Whatever the IDs: the page is finished if and only if none of the roots that are kept reaches a cycle. */
  lemma PageEndsIff(bs: seq<Block>, max: nat)
    ensures (exists fuel :: WalkAll(bs, Retained(bs, max), 0, fuel).Some?) <==>
            forall v :: v in Retained(bs, max) ==> !ReachesCycle(bs, v)
  {
    var vs := Retained(bs, max);
    if fuel :| WalkAll(bs, vs, 0, fuel).Some? {
      forall v | v in vs ensures !ReachesCycle(bs, v) {
        WalkAllMember(bs, vs, 0, fuel, v);
        WalkEndsIff(bs, v, 0);
      }
    }
    if forall v :: v in vs ==> !ReachesCycle(bs, v) {
      WalkAllEnds(bs, vs, 0);
    }
  }

  /** Two blocks that share an ID, the second its own parent, make the recursion endless. */
  lemma DuplicateIdsCanLoop(id: string)
    ensures var bs := [Block(id, None, ""), Block(id, Some(id), "")];
            1 in Retained(bs, 1) && ReachesCycle(bs, 1)
  {
    var bs := [Block(id, None, ""), Block(id, Some(id), "")];
    assert NodeOf(bs, id) == Some(1);
    assert Kids(bs, 1) == KidsUpTo(bs, 1, 1) + [1];
    assert RootsUpTo(bs, 1) == RootsUpTo(bs, 0) + [1] && RootsUpTo(bs, 2) == RootsUpTo(bs, 1);
    var p := [1, 1];
    assert p[0] == p[1];
    assert Loops(bs, p, 1);
  }

  // ---------------------------------------------------------------- which blocks, and how deep

  /** The line's block is a descendant of v, as deep below it as the indentation says. */
  ghost predicate Below(bs: seq<Block>, line: Line, depth: nat, v: nat) {
    line.index < |bs| && line.depth >= depth && Up(bs, line.index, line.depth - depth) == Some(v)
  }

  ghost predicate BelowOne(bs: seq<Block>, line: Line, depth: nat, vs: seq<nat>) {
    && line.index < |bs| && line.depth >= depth && Up(bs, line.index, line.depth - depth).Some?
    && Up(bs, line.index, line.depth - depth).value in vs
  }

  lemma KidBelow(bs: seq<Block>, line: Line, depth: nat, v: nat)
    requires UniqueIds(bs) && BelowOne(bs, line, depth + 1, Kids(bs, v))
    ensures Below(bs, line, depth, v)
  {
    hide UniqueIds;
    KidsAre(bs, v, |bs|);
    var kids := Kids(bs, v);
    hide Kids, KidsUpTo;
    UpAdd(bs, line.index, line.depth - depth - 1, 1);
  }

  lemma {:induction false} WalkDescends(bs: seq<Block>, v: nat, depth: nat, fuel: nat)
    requires UniqueIds(bs) && v < |bs| && Walk(bs, v, depth, fuel).Some?
    ensures forall line :: line in Walk(bs, v, depth, fuel).value ==> Below(bs, line, depth, v)
    decreases fuel, 0
  {
    var below := WalkAll(bs, Kids(bs, v), depth + 1, fuel - 1).value;
    WalkAllDescends(bs, Kids(bs, v), depth + 1, fuel - 1);
    forall line | line in Walk(bs, v, depth, fuel).value ensures Below(bs, line, depth, v) {
      hide Kids, UniqueIds;
      if line != Line(depth, v) {
        assert line in below;
        hide BelowOne, Below;
        KidBelow(bs, line, depth, v);
      }
    }
  }

  lemma {:induction false} WalkAllDescends(bs: seq<Block>, vs: seq<nat>, depth: nat, fuel: nat)
    requires UniqueIds(bs) && Within(vs, |bs|) && WalkAll(bs, vs, depth, fuel).Some?
    ensures forall line :: line in WalkAll(bs, vs, depth, fuel).value ==> BelowOne(bs, line, depth, vs)
    decreases fuel, |vs| + 1
  {
    hide Kids, UniqueIds;
    if vs != [] {
      WalkDescends(bs, vs[0], depth, fuel);
      WalkAllDescends(bs, vs[1..], depth, fuel);
    }
  }

  lemma LastStep(bs: seq<Block>, v: nat, i: nat, k: nat) returns (c: nat)
    requires UniqueIds(bs) && i < |bs| && k > 0 && Up(bs, i, k) == Some(v)
    ensures c in Kids(bs, v) && Up(bs, i, k - 1) == Some(c)
  {
    UpPrefix(bs, i, k - 1, k);
    c := Up(bs, i, k - 1).value;
    UpAdd(bs, i, k - 1, 1);
    KidsAre(bs, v, |bs|);
  }

  lemma {:induction false} WalkComplete(bs: seq<Block>, v: nat, depth: nat, fuel: nat, i: nat, k: nat)
    requires UniqueIds(bs) && v < |bs| && Walk(bs, v, depth, fuel).Some?
    requires i < |bs| && Up(bs, i, k) == Some(v)
    ensures Line(depth + k, i) in Walk(bs, v, depth, fuel).value
    decreases fuel, 0
  {
    if k > 0 {
      var c := LastStep(bs, v, i, k);
      hide Kids, UniqueIds, Up;
      WalkAllComplete(bs, Kids(bs, v), depth + 1, fuel - 1, c, i, k - 1);
    }
  }

  lemma {:induction false} WalkAllComplete(
    bs: seq<Block>, vs: seq<nat>, depth: nat, fuel: nat, v: nat, i: nat, k: nat)
    requires UniqueIds(bs) && Within(vs, |bs|) && WalkAll(bs, vs, depth, fuel).Some?
    requires v in vs && i < |bs| && Up(bs, i, k) == Some(v)
    ensures Line(depth + k, i) in WalkAll(bs, vs, depth, fuel).value
    decreases fuel, |vs| + 1
  {
    if v == vs[0] {
      WalkComplete(bs, v, depth, fuel, i, k);
    } else {
      WalkAllComplete(bs, vs[1..], depth, fuel, v, i, k);
    }
  }

  // ---------------------------------------------------------------- each block once, in order

  ghost predicate NoDuplicates(w: seq<Line>) {
    forall s, t :: 0 <= s < t < |w| ==> w[s].index != w[t].index
  }

  /** A block below a start at `depth` lies exactly as deep as its line says. */
  lemma BelowRootAt(bs: seq<Block>, line: Line, depth: nat, v: nat)
    requires v < |bs| && RootAt(bs, v, depth) && Below(bs, line, depth, v)
    ensures RootAt(bs, line.index, line.depth)
  {
    UpAdd(bs, line.index, line.depth - depth, depth);
  }

  /** Subtrees of different nodes of one level share no block. */
  lemma SubtreesDisjoint(bs: seq<Block>, depth: nat, v: nat, u: nat, l: Line, m: Line)
    requires v < |bs| && u < |bs| && RootAt(bs, v, depth) && RootAt(bs, u, depth) && v != u
    requires Below(bs, l, depth, v) && Below(bs, m, depth, u)
    ensures l.index != m.index
  {
    BelowRootAt(bs, l, depth, v);
    BelowRootAt(bs, m, depth, u);
    if l.index == m.index { RootAtOnce(bs, l.index, l.depth, m.depth); }
  }

  lemma {:induction false} WalkOnce(bs: seq<Block>, v: nat, depth: nat, fuel: nat)
    requires UniqueIds(bs) && v < |bs| && RootAt(bs, v, depth) && Walk(bs, v, depth, fuel).Some?
    ensures NoDuplicates(Walk(bs, v, depth, fuel).value)
    decreases fuel, 0
  {
    hide Kids, UniqueIds, BelowOne, RootAt, NoDuplicates, Up;
    var below := WalkAll(bs, Kids(bs, v), depth + 1, fuel - 1).value;
    KidsLevel(bs, v, depth);
    WalkAllOnce(bs, Kids(bs, v), depth + 1, fuel - 1);
    WalkAllDescends(bs, Kids(bs, v), depth + 1, fuel - 1);
    assert Walk(bs, v, depth, fuel).value == [Line(depth, v)] + below;
    hide Walk, WalkAll;
    forall line | line in below ensures line.index != v {
      KidBelowStart(bs, line, depth, v);
    }
    PrependOnce(Line(depth, v), below);
  }

  lemma PrependOnce(l: Line, w: seq<Line>)
    requires NoDuplicates(w) && forall m :: m in w ==> m.index != l.index
    ensures NoDuplicates([l] + w)
  {
  }

  lemma KidBelowStart(bs: seq<Block>, line: Line, depth: nat, v: nat)
    requires UniqueIds(bs) && v < |bs| && RootAt(bs, v, depth) && BelowOne(bs, line, depth + 1, Kids(bs, v))
    ensures line.index != v
  {
    KidBelow(bs, line, depth, v);
    BelowRootAt(bs, line, depth, v);
    hide Kids, UniqueIds;
    if line.index == v { RootAtOnce(bs, v, depth, line.depth); }
  }

  lemma {:induction false} WalkAllOnce(bs: seq<Block>, vs: seq<nat>, depth: nat, fuel: nat)
    requires UniqueIds(bs) && Level(bs, vs, depth) && WalkAll(bs, vs, depth, fuel).Some?
    ensures NoDuplicates(WalkAll(bs, vs, depth, fuel).value)
    decreases fuel, |vs| + 1
  {
    if vs != [] {
      var first := Walk(bs, vs[0], depth, fuel).value;
      var rest := WalkAll(bs, vs[1..], depth, fuel).value;
      WalkOnce(bs, vs[0], depth, fuel);
      WalkAllOnce(bs, vs[1..], depth, fuel);
      WalkDescends(bs, vs[0], depth, fuel);
      WalkAllDescends(bs, vs[1..], depth, fuel);
      hide Walk, WalkAll, UniqueIds, RootAt, Below, Up;
      forall l, m | l in first && m in rest ensures l.index != m.index {
        LevelDisjoint(bs, vs, depth, l, m);
      }
    }
  }

  lemma LevelDisjoint(bs: seq<Block>, vs: seq<nat>, depth: nat, l: Line, m: Line)
    requires vs != [] && Level(bs, vs, depth)
    requires Below(bs, l, depth, vs[0]) && BelowOne(bs, m, depth, vs[1..])
    ensures l.index != m.index
  {
    var u := Up(bs, m.index, m.depth - depth).value;
    var t :| 0 <= t < |vs[1..]| && vs[1..][t] == u;
    assert vs[t + 1] == u;
    SubtreesDisjoint(bs, depth, vs[0], u, l, m);
  }

  /** Every indented line follows its parent's line, with only deeper lines between them. */
  ghost predicate UnderParent(bs: seq<Block>, w: seq<Line>, t: nat, s: nat)
    requires s < t < |w|
  {
    && w[t].index < |bs| && w[t].depth > 0
    && Parent(bs, w[t].index).Some?
    && w[s] == Line(w[t].depth - 1, Parent(bs, w[t].index).value)
    && forall u :: s < u < t ==> w[u].depth >= w[t].depth
  }

  ghost predicate HasParentLine(bs: seq<Block>, w: seq<Line>, t: nat)
    requires t < |w|
  {
    exists s :: 0 <= s < t && UnderParent(bs, w, t, s)
  }

  ghost predicate Preordered(bs: seq<Block>, w: seq<Line>, depth: nat) {
    forall t :: 0 <= t < |w| ==> w[t].depth >= depth && (w[t].depth > depth ==> HasParentLine(bs, w, t))
  }

  lemma ParentLineLeft(bs: seq<Block>, w: seq<Line>, z: seq<Line>, t: nat)
    requires t < |w| && HasParentLine(bs, w, t)
    ensures HasParentLine(bs, w + z, t)
  {
    var s :| 0 <= s < t && UnderParent(bs, w, t, s);
    assert forall u :: 0 <= u < |w| ==> (w + z)[u] == w[u];
    assert UnderParent(bs, w + z, t, s);
  }

  lemma ParentLineRight(bs: seq<Block>, w: seq<Line>, z: seq<Line>, t: nat)
    requires t < |z| && HasParentLine(bs, z, t)
    ensures HasParentLine(bs, w + z, |w| + t)
  {
    var s :| 0 <= s < t && UnderParent(bs, z, t, s);
    forall u | |w| + s < u < |w| + t ensures (w + z)[u].depth >= (w + z)[|w| + t].depth {
      assert (w + z)[u] == z[u - |w|];
    }
    assert UnderParent(bs, w + z, |w| + t, |w| + s);
  }

  lemma PreorderedAppend(bs: seq<Block>, w: seq<Line>, z: seq<Line>, depth: nat)
    requires Preordered(bs, w, depth) && Preordered(bs, z, depth)
    ensures Preordered(bs, w + z, depth)
  {
    hide HasParentLine;
    forall t | 0 <= t < |w + z|
      ensures (w + z)[t].depth >= depth && ((w + z)[t].depth > depth ==> HasParentLine(bs, w + z, t))
    {
      if t < |w| {
        if w[t].depth > depth { ParentLineLeft(bs, w, z, t); }
      } else {
        if z[t - |w|].depth > depth { ParentLineRight(bs, w, z, t - |w|); }
      }
    }
  }

  lemma KidHasParentLine(bs: seq<Block>, below: seq<Line>, depth: nat, v: nat, t: nat)
    requires UniqueIds(bs) && v < |bs| && t < |below| && BelowOne(bs, below[t], depth + 1, Kids(bs, v))
    requires below[t].depth == depth + 1 && forall u :: 0 <= u < |below| ==> below[u].depth >= depth + 1
    ensures HasParentLine(bs, [Line(depth, v)] + below, t + 1)
  {
    KidBelow(bs, below[t], depth, v);
    hide Kids, UniqueIds, BelowOne;
    assert Up(bs, below[t].index, 1) == Some(v);
    assert Parent(bs, below[t].index) == Some(v) && below[t].index < |bs|;
    hide Up, Below, Parent;
    var w := [Line(depth, v)] + below;
    assert forall u :: 0 < u < |w| ==> w[u] == below[u - 1];
    assert UnderParent(bs, w, t + 1, 0);
  }

  lemma {:induction false} WalkPreordered(bs: seq<Block>, v: nat, depth: nat, fuel: nat)
    requires UniqueIds(bs) && v < |bs| && Walk(bs, v, depth, fuel).Some?
    ensures Preordered(bs, Walk(bs, v, depth, fuel).value, depth)
    decreases fuel, 0
  {
    hide Kids, UniqueIds, HasParentLine, BelowOne;
    var below := WalkAll(bs, Kids(bs, v), depth + 1, fuel - 1).value;
    WalkAllPreordered(bs, Kids(bs, v), depth + 1, fuel - 1);
    WalkAllDescends(bs, Kids(bs, v), depth + 1, fuel - 1);
    var w := [Line(depth, v)] + below;
    assert w == Walk(bs, v, depth, fuel).value;
    hide Walk, WalkAll;
    forall t | 0 <= t < |w| ensures w[t].depth >= depth && (w[t].depth > depth ==> HasParentLine(bs, w, t)) {
      if t > 0 {
        assert w[t] == below[t - 1];
        if w[t].depth == depth + 1 {
          KidHasParentLine(bs, below, depth, v, t - 1);
        } else {
          ParentLineRight(bs, [Line(depth, v)], below, t - 1);
        }
      }
    }
  }

  lemma {:induction false} WalkAllPreordered(bs: seq<Block>, vs: seq<nat>, depth: nat, fuel: nat)
    requires UniqueIds(bs) && Within(vs, |bs|) && WalkAll(bs, vs, depth, fuel).Some?
    ensures Preordered(bs, WalkAll(bs, vs, depth, fuel).value, depth)
    decreases fuel, |vs| + 1
  {
    hide Kids, UniqueIds, Preordered;
    if vs != [] {
      WalkPreordered(bs, vs[0], depth, fuel);
      WalkAllPreordered(bs, vs[1..], depth, fuel);
      PreorderedAppend(bs, Walk(bs, vs[0], depth, fuel).value, WalkAll(bs, vs[1..], depth, fuel).value, depth);
    } else {
      EmptyPreordered(bs, depth);
    }
  }

  lemma EmptyPreordered(bs: seq<Block>, depth: nat)
    ensures Preordered(bs, [], depth)
  {
  }

  /** Lines whose blocks have the same parent, or that are both roots, come in input order. */
  ghost predicate SiblingsInOrder(bs: seq<Block>, w: seq<Line>) {
    forall s, t :: 0 <= s < t < |w| ==> InOrder(bs, w[s], w[t])
  }

  ghost predicate InOrder(bs: seq<Block>, l: Line, m: Line) {
    l.index < |bs| && m.index < |bs| && Parent(bs, l.index) == Parent(bs, m.index) ==> l.index < m.index
  }

  /** Siblings in the subtrees of two nodes of one level are those two nodes themselves. */
  lemma SiblingsAcross(bs: seq<Block>, depth: nat, v: nat, u: nat, l: Line, m: Line)
    requires v < |bs| && u < |bs| && RootAt(bs, v, depth) && RootAt(bs, u, depth) && v != u
    requires Below(bs, l, depth, v) && Below(bs, m, depth, u)
    requires Parent(bs, l.index) == Parent(bs, m.index)
    ensures l.index == v && m.index == u
  {
    BelowRootAt(bs, l, depth, v);
    BelowRootAt(bs, m, depth, u);
    SiblingsLevel(bs, l, m);
  }

  lemma SiblingsLevel(bs: seq<Block>, l: Line, m: Line)
    requires l.index < |bs| && m.index < |bs| && Parent(bs, l.index) == Parent(bs, m.index)
    requires RootAt(bs, l.index, l.depth) && RootAt(bs, m.index, m.depth)
    ensures l.depth == m.depth && (Parent(bs, l.index).None? <==> l.depth == 0)
  {
    var p := Parent(bs, l.index);
    if p.Some? {
      assert RootAt(bs, p.value, l.depth - 1) && RootAt(bs, p.value, m.depth - 1);
      RootAtOnce(bs, p.value, l.depth - 1, m.depth - 1);
    }
  }

  lemma {:induction false} WalkSiblings(bs: seq<Block>, v: nat, depth: nat, fuel: nat)
    requires UniqueIds(bs) && v < |bs| && RootAt(bs, v, depth) && Walk(bs, v, depth, fuel).Some?
    ensures SiblingsInOrder(bs, Walk(bs, v, depth, fuel).value)
    decreases fuel, 0
  {
    hide Kids, UniqueIds, BelowOne, RootAt, SiblingsInOrder, Up;
    var below := WalkAll(bs, Kids(bs, v), depth + 1, fuel - 1).value;
    KidsLevel(bs, v, depth);
    WalkAllSiblings(bs, Kids(bs, v), depth + 1, fuel - 1);
    WalkAllDescends(bs, Kids(bs, v), depth + 1, fuel - 1);
    assert Walk(bs, v, depth, fuel).value == [Line(depth, v)] + below;
    hide Walk, WalkAll;
    forall line | line in below ensures line.index < |bs| && Parent(bs, line.index) != Parent(bs, v) {
      KidNotSibling(bs, line, depth, v);
    }
    PrependSiblings(bs, Line(depth, v), below);
  }

  lemma KidNotSibling(bs: seq<Block>, line: Line, depth: nat, v: nat)
    requires UniqueIds(bs) && v < |bs| && RootAt(bs, v, depth) && BelowOne(bs, line, depth + 1, Kids(bs, v))
    ensures line.index < |bs| && Parent(bs, line.index) != Parent(bs, v)
  {
    KidBelow(bs, line, depth, v);
    BelowRootAt(bs, line, depth, v);
    hide Kids, UniqueIds;
    var p := Parent(bs, v);
    if Parent(bs, line.index) == p && p.Some? {
      assert depth > 0 && RootAt(bs, p.value, depth - 1) && RootAt(bs, p.value, line.depth - 1);
      RootAtOnce(bs, p.value, depth - 1, line.depth - 1);
    }
  }

  lemma PrependSiblings(bs: seq<Block>, l: Line, w: seq<Line>)
    requires SiblingsInOrder(bs, w) && l.index < |bs|
    requires forall m :: m in w ==> m.index < |bs| && Parent(bs, m.index) != Parent(bs, l.index)
    ensures SiblingsInOrder(bs, [l] + w)
  {
    hide Parent;
    assert SiblingsInOrder(bs, [l]);
    AppendSiblings(bs, [l], w);
  }

  lemma {:induction false} WalkAllSiblings(bs: seq<Block>, vs: seq<nat>, depth: nat, fuel: nat)
    requires UniqueIds(bs) && Level(bs, vs, depth) && WalkAll(bs, vs, depth, fuel).Some?
    ensures SiblingsInOrder(bs, WalkAll(bs, vs, depth, fuel).value)
    decreases fuel, |vs| + 1
  {
    if vs != [] {
      var first := Walk(bs, vs[0], depth, fuel).value;
      var rest := WalkAll(bs, vs[1..], depth, fuel).value;
      hide UniqueIds, RootAt, Below, BelowOne, Up, SiblingsInOrder;
      WalkSiblings(bs, vs[0], depth, fuel);
      WalkAllSiblings(bs, vs[1..], depth, fuel);
      WalkDescends(bs, vs[0], depth, fuel);
      WalkAllDescends(bs, vs[1..], depth, fuel);
      hide Walk, WalkAll;
      forall l, m | l in first && m in rest
        ensures InOrder(bs, l, m)
      {
        LevelInOrder(bs, vs, depth, l, m);
      }
      AppendSiblings(bs, first, rest);
    } else {
      NoSiblings(bs);
    }
  }

  lemma NoSiblings(bs: seq<Block>)
    ensures SiblingsInOrder(bs, [])
  {
  }

  lemma AppendSiblings(bs: seq<Block>, w: seq<Line>, z: seq<Line>)
    requires SiblingsInOrder(bs, w) && SiblingsInOrder(bs, z)
    requires forall l, m :: l in w && m in z ==> InOrder(bs, l, m)
    ensures SiblingsInOrder(bs, w + z)
  {
    hide InOrder;
    forall s, t | 0 <= s < t < |w + z| ensures InOrder(bs, (w + z)[s], (w + z)[t]) {
      if t < |w| {
        assert InOrder(bs, w[s], w[t]);
      } else if s < |w| {
        assert w[s] in w && z[t - |w|] in z;
      } else {
        assert InOrder(bs, z[s - |w|], z[t - |w|]);
      }
    }
  }

  lemma LevelInOrder(bs: seq<Block>, vs: seq<nat>, depth: nat, l: Line, m: Line)
    requires vs != [] && Level(bs, vs, depth)
    requires Below(bs, l, depth, vs[0]) && BelowOne(bs, m, depth, vs[1..])
    ensures InOrder(bs, l, m)
  {
    var u := Up(bs, m.index, m.depth - depth).value;
    var t :| 0 <= t < |vs[1..]| && vs[1..][t] == u;
    assert vs[t + 1] == u;
    if Parent(bs, l.index) == Parent(bs, m.index) { SiblingsAcross(bs, depth, vs[0], u, l, m); }
  }

  // ---------------------------------------------------------------- the printed page

  /** Block i's ancestors end in a retained root. */
  ghost predicate UnderRetained(bs: seq<Block>, max: nat, i: nat) {
    i < |bs| && exists k: nat :: Up(bs, i, k).Some? && Up(bs, i, k).value in Retained(bs, max)
  }

  /** execPage prints a block exactly when its ancestors end in one of the retained roots, prints it
      once, and indents it by the number of its ancestors. */
  lemma PrintedBlocks(bs: seq<Block>, max: nat)
    requires UniqueIds(bs)
    ensures Printed(bs, max).Some?
    ensures var w := Printed(bs, max).value;
            && NoDuplicates(w)
            && (forall line :: line in w ==> line.index < |bs| && RootAt(bs, line.index, line.depth))
            && (forall i: nat :: UnderRetained(bs, max, i) <==> exists k: nat :: Line(k, i) in w)
  {
    PageEnds(bs, max);
    RetainedLevel(bs, max);
    var vs, w := Retained(bs, max), Printed(bs, max).value;
    WalkAllOnce(bs, vs, 0, |bs|);
    WalkAllDescends(bs, vs, 0, |bs|);
    hide UniqueIds, WalkAll, Retained;
    forall line | line in w ensures line.index < |bs| && RootAt(bs, line.index, line.depth) {
      assert BelowOne(bs, line, 0, vs);
    }
    forall i: nat | UnderRetained(bs, max, i) ensures exists k: nat :: Line(k, i) in w {
      var k: nat :| Up(bs, i, k).Some? && Up(bs, i, k).value in vs;
      WalkAllComplete(bs, vs, 0, |bs|, Up(bs, i, k).value, i, k);
      assert Line(0 + k, i) in w;
    }
    forall i: nat | exists k: nat :: Line(k, i) in w ensures UnderRetained(bs, max, i) {
      var k: nat :| Line(k, i) in w;
      assert BelowOne(bs, Line(k, i), 0, vs);
    }
  }

  /** The page is the preorder of the forest: each indented line stands under its parent's line, with
      only deeper lines between, and siblings come in input order. */
  lemma PrintedOrder(bs: seq<Block>, max: nat)
    requires UniqueIds(bs)
    ensures Printed(bs, max).Some?
    ensures Preordered(bs, Printed(bs, max).value, 0) && SiblingsInOrder(bs, Printed(bs, max).value)
  {
    PageEnds(bs, max);
    RetainedLevel(bs, max);
    WalkAllPreordered(bs, Retained(bs, max), 0, |bs|);
    WalkAllSiblings(bs, Retained(bs, max), 0, |bs|);
  }

  /** Block i lies on a parent cycle or below one. */
  ghost predicate HangsOnCycle(bs: seq<Block>, i: nat) {
    && i < |bs|
    && exists k: nat, m: nat :: m > 0 && Up(bs, i, k).Some? && Up(bs, Up(bs, i, k).value, m) == Up(bs, i, k)
  }

  lemma {:induction false} CycleHasNoRoot(bs: seq<Block>, a: nat, m: nat, j: nat)
    requires a < |bs| && m > 0 && Up(bs, a, m) == Some(a)
    ensures !RootAt(bs, a, j)
    decreases j
  {
    if RootAt(bs, a, j) {
      if m <= j {
        UpAdd(bs, a, m, j - m);
        CycleHasNoRoot(bs, a, m, j - m);
      } else {
        RootAtOnce(bs, a, j, m);
      }
    }
  }

  /** Following parent pointers from a block either ends in a root or runs into a cycle. */
  lemma RootOrCycle(bs: seq<Block>, i: nat)
    requires i < |bs|
    ensures (exists k: nat :: RootAt(bs, i, k)) <==> !HangsOnCycle(bs, i)
  {
    if HangsOnCycle(bs, i) {
      var k: nat, m: nat :| m > 0 && Up(bs, i, k).Some? && Up(bs, Up(bs, i, k).value, m) == Up(bs, i, k);
      var a := Up(bs, i, k).value;
      forall j: nat ensures !RootAt(bs, i, j) {
        if RootAt(bs, i, j) {
          RootAtOnce(bs, i, j, k);
          UpAdd(bs, i, k, j - k);
          CycleHasNoRoot(bs, a, m, j - k);
        }
      }
    } else if forall k: nat :: !RootAt(bs, i, k) {
      EndlessClimb(bs, i);
    }
  }

  lemma EndlessClimb(bs: seq<Block>, i: nat)
    requires i < |bs| && forall k: nat :: !RootAt(bs, i, k)
    ensures HangsOnCycle(bs, i)
  {
    forall k: nat ensures Up(bs, i, k).Some? { ClimbsOn(bs, i, k); }
    var p := seq(|bs| + 1, (k: nat) => if Up(bs, i, k).Some? then Up(bs, i, k).value else 0);
    assert forall k :: 0 <= k < |p| ==> p[k] < |bs|;
    if !HasRepeat(p) { Pigeonhole(p, |bs|); }
    var s, t :| 0 <= s < t < |p| && p[s] == p[t];
    UpAdd(bs, i, s, t - s);
  }

  lemma {:induction false} ClimbsOn(bs: seq<Block>, i: nat, k: nat)
    requires i < |bs| && forall j: nat :: !RootAt(bs, i, j)
    ensures Up(bs, i, k).Some?
    decreases k
  {
    if k > 0 {
      ClimbsOn(bs, i, k - 1);
      UpAdd(bs, i, k - 1, 1);
      assert !RootAt(bs, i, k - 1);
    }
  }

  /** When no root is cut off, the blocks missing from the page are exactly those on or below a parent
      cycle; orphans and everything else appear. */
  lemma MissingBlocksHangOnCycles(bs: seq<Block>, max: nat, i: nat)
    requires UniqueIds(bs) && i < |bs| && |RootsUpTo(bs, |bs|)| <= max
    ensures Printed(bs, max).Some?
    ensures (forall k: nat :: Line(k, i) !in Printed(bs, max).value) <==> HangsOnCycle(bs, i)
  {
    PrintedBlocks(bs, max);
    RootOrCycle(bs, i);
    RootsAre(bs, |bs|);
    assert Retained(bs, max) == RootsUpTo(bs, |bs|);
    if UnderRetained(bs, max, i) {
      var k: nat :| Up(bs, i, k).Some? && Up(bs, i, k).value in Retained(bs, max);
      assert RootAt(bs, i, k);
    } else {
      forall k: nat ensures !RootAt(bs, i, k) {}
    }
  }
}
