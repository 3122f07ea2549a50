/** The forest that execPage builds from parent pointers and the order in which it prints it.
    Block IDs may repeat and parent pointers may dangle or form cycles: nothing here assumes otherwise
    unless it says so. */
module PageForest {
  import opened Options

  datatype Block = Block(id: string, parent: Option<string>, title: string)

  /** One printed block: how deep it is indented, and its position in the input. */
  datatype Line = Line(depth: nat, index: nat)

  ghost predicate Within(vs: seq<nat>, n: nat) { forall t :: 0 <= t < |vs| ==> vs[t] < n }

  predicate UniqueIds(bs: seq<Block>) {
    forall i, j :: 0 <= i < j < |bs| ==> bs[i].id != bs[j].id
  }

  /** The block nodeMap keeps for an ID: the last one that carries it. */
  function NodeOf(bs: seq<Block>, id: string): (r: Option<nat>)
    ensures r.Some? ==> r.value < |bs| && bs[r.value].id == id
  {
    if bs == [] then None
    else if bs[|bs| - 1].id == id then Some(|bs| - 1)
    else NodeOf(bs[..|bs| - 1], id)
  }

  lemma {:induction false} NodeOfIsLast(bs: seq<Block>, id: string, i: nat)
    requires i < |bs| && bs[i].id == id
    ensures NodeOf(bs, id).Some? && i <= NodeOf(bs, id).value
  {
    if bs[|bs| - 1].id != id { NodeOfIsLast(bs[..|bs| - 1], id, i); }
  }

  /** The node block i stands for in the second loop. */
  function Node(bs: seq<Block>, i: nat): (k: nat)
    requires i < |bs|
    ensures k < |bs| && bs[k].id == bs[i].id
  {
    NodeOfIsLast(bs, bs[i].id, i);
    NodeOf(bs, bs[i].id).value
  }

  /** The node block i is appended to; None makes it a root, also when its parent is not listed. */
  function Parent(bs: seq<Block>, i: nat): (p: Option<nat>)
    requires i < |bs|
    ensures p.Some? ==> p.value < |bs|
  {
    if bs[i].parent.None? then None else NodeOf(bs, bs[i].parent.value)
  }

  /** A block's parent is the last listed block with the ID it points to, and it has none exactly when it points
      to nothing or to an ID that is not listed. */
  lemma ParentIs(bs: seq<Block>, i: nat)
    requires i < |bs|
    ensures Parent(bs, i).None? <==>
            bs[i].parent.None? || forall k :: 0 <= k < |bs| ==> bs[k].id != bs[i].parent.value
    ensures Parent(bs, i).Some? ==>
              var p := Parent(bs, i).value;
              && p < |bs| && bs[i].parent == Some(bs[p].id)
              && forall k :: p < k < |bs| ==> bs[k].id != bs[p].id
  {
    if bs[i].parent.Some? {
      forall k | 0 <= k < |bs| && bs[k].id == bs[i].parent.value
        ensures Parent(bs, i).Some? && k <= Parent(bs, i).value {
        NodeOfIsLast(bs, bs[i].parent.value, k);
      }
    }
  }

  function KidsUpTo(bs: seq<Block>, k: nat, m: nat): (r: seq<nat>)
    requires m <= |bs|
    ensures Within(r, |bs|)
  {
    if m == 0 then []
    else KidsUpTo(bs, k, m - 1) + (if Parent(bs, m - 1) == Some(k) then [Node(bs, m - 1)] else [])
  }

  function Kids(bs: seq<Block>, k: nat): (r: seq<nat>)
    ensures Within(r, |bs|)
  {
    KidsUpTo(bs, k, |bs|)
  }

  function RootsUpTo(bs: seq<Block>, m: nat): (r: seq<nat>)
    requires m <= |bs|
    ensures Within(r, |bs|)
  {
    if m == 0 then []
    else RootsUpTo(bs, m - 1) + (if Parent(bs, m - 1).None? then [Node(bs, m - 1)] else [])
  }

  function Retained(bs: seq<Block>, max: nat): (r: seq<nat>)
    ensures Within(r, |bs|)
  {
    var roots := RootsUpTo(bs, |bs|);
    if max < |roots| then roots[..max] else roots
  }

  /** writeNode from node v with at most `fuel` nested calls; None when that is not enough. */
  function Walk(bs: seq<Block>, v: nat, depth: nat, fuel: nat): Option<seq<Line>>
    requires v < |bs|
    decreases fuel, 0
  {
    if fuel == 0 then None
    else
      var below := WalkAll(bs, Kids(bs, v), depth + 1, fuel - 1);
      if below.None? then None else Some([Line(depth, v)] + below.value)
  }

  function WalkAll(bs: seq<Block>, vs: seq<nat>, depth: nat, fuel: nat): Option<seq<Line>>
    requires Within(vs, |bs|)
    decreases fuel, |vs| + 1
  {
    if vs == [] then Some([])
    else
      var first := Walk(bs, vs[0], depth, fuel);
      var rest := WalkAll(bs, vs[1..], depth, fuel);
      if first.None? || rest.None? then None else Some(first.value + rest.value)
  }

  /** Every line prints a block of the page. */
  ghost predicate Indexed(bs: seq<Block>, w: seq<Line>) {
    forall t :: 0 <= t < |w| ==> w[t].index < |bs|
  }

  lemma {:induction false} WalkIndexed(bs: seq<Block>, v: nat, depth: nat, fuel: nat)
    requires v < |bs| && Walk(bs, v, depth, fuel).Some?
    ensures Indexed(bs, Walk(bs, v, depth, fuel).value)
    decreases fuel, 0
  {
    WalkAllIndexed(bs, Kids(bs, v), depth + 1, fuel - 1);
  }

  lemma {:induction false} WalkAllIndexed(bs: seq<Block>, vs: seq<nat>, depth: nat, fuel: nat)
    requires Within(vs, |bs|) && WalkAll(bs, vs, depth, fuel).Some?
    ensures Indexed(bs, WalkAll(bs, vs, depth, fuel).value)
    decreases fuel, |vs| + 1
  {
    if vs != [] {
      WalkIndexed(bs, vs[0], depth, fuel);
      WalkAllIndexed(bs, vs[1..], depth, fuel);
    }
  }

  /** The roots that are kept are the first ones, as many as there may be. */
  lemma RetainedIs(bs: seq<Block>, max: nat)
    ensures Retained(bs, max) <= RootsUpTo(bs, |bs|)
    ensures |Retained(bs, max)| == if |RootsUpTo(bs, |bs|)| <= max then |RootsUpTo(bs, |bs|)| else max
  {
  }

  // ---------------------------------------------------------------- when the recursion ends

  /** A chain of writeNode calls, each made by the one before. */
  ghost predicate IsPath(bs: seq<Block>, p: seq<nat>) {
    && (forall t :: 0 <= t < |p| ==> p[t] < |bs|)
    && (forall t :: 0 <= t < |p| - 1 ==> p[t + 1] in Kids(bs, p[t]))
  }

  ghost predicate HasRepeat(p: seq<nat>) { exists s, t :: 0 <= s < t < |p| && p[s] == p[t] }

  ghost predicate Loops(bs: seq<Block>, p: seq<nat>, v: nat) {
    IsPath(bs, p) && p != [] && p[0] == v && HasRepeat(p)
  }

  ghost predicate ReachesCycle(bs: seq<Block>, v: nat) { exists p :: Loops(bs, p, v) }

  lemma {:induction false} Pigeonhole(p: seq<nat>, n: nat)
    requires Within(p, n) && !HasRepeat(p)
    ensures |p| <= n
  {
    if p != [] {
      assert p[0] < n;
      if exists t :: 0 <= t < |p| && p[t] == n - 1 {
        var t :| 0 <= t < |p| && p[t] == n - 1;
        var q := p[..t] + p[t + 1..];
        assert forall s :: 0 <= s < |q| ==> q[s] == (if s < t then p[s] else p[s + 1]);
        forall s | 0 <= s < |q| ensures q[s] < n - 1 {
          assert q[s] != p[t];
        }
        assert !HasRepeat(q);
        Pigeonhole(q, n - 1);
      } else {
        Pigeonhole(p, n - 1);
      }
    }
  }

  /** A call chain p without repetition leaves at most |bs| - |p| deeper calls. */
  lemma {:induction false} WalkFits(bs: seq<Block>, p: seq<nat>, depth: nat)
    requires IsPath(bs, p) && p != [] && !ReachesCycle(bs, p[0])
    ensures |p| <= |bs| && Walk(bs, p[|p| - 1], depth, |bs| - |p| + 1).Some?
    decreases |bs| - |p|, 2
  {
    assert !HasRepeat(p) by {
      if HasRepeat(p) { assert Loops(bs, p, p[0]); }
    }
    Pigeonhole(p, |bs|);
    WalkAllFits(bs, p, Kids(bs, p[|p| - 1]), depth + 1);
  }

  lemma {:induction false} WalkAllFits(bs: seq<Block>, p: seq<nat>, vs: seq<nat>, depth: nat)
    requires IsPath(bs, p) && p != [] && !ReachesCycle(bs, p[0]) && |p| <= |bs|
    requires Within(vs, |bs|) && forall t :: 0 <= t < |vs| ==> vs[t] in Kids(bs, p[|p| - 1])
    ensures WalkAll(bs, vs, depth, |bs| - |p|).Some?
    decreases |bs| - |p|, 1, |vs|
  {
    if vs != [] {
      var q := p + [vs[0]];
      assert IsPath(bs, q) && q[0] == p[0];
      assert !HasRepeat(q) by {
        if HasRepeat(q) { assert Loops(bs, q, p[0]); }
      }
      Pigeonhole(q, |bs|);
      WalkFits(bs, q, depth);
      WalkAllFits(bs, p, vs[1..], depth);
    }
  }

  /** A finished walk bounds every call chain below it. */
  lemma {:induction false} WalkBoundsPaths(bs: seq<Block>, v: nat, depth: nat, fuel: nat, p: seq<nat>)
    requires v < |bs| && Walk(bs, v, depth, fuel).Some?
    requires IsPath(bs, p) && p != [] && p[0] == v
    ensures |p| <= fuel
    decreases fuel
  {
    if |p| > 1 {
      WalkAllMember(bs, Kids(bs, v), depth + 1, fuel - 1, p[1]);
      WalkBoundsPaths(bs, p[1], depth + 1, fuel - 1, p[1..]);
    }
  }

  lemma {:induction false} WalkAllMember(bs: seq<Block>, vs: seq<nat>, depth: nat, fuel: nat, v: nat)
    requires Within(vs, |bs|)
    requires WalkAll(bs, vs, depth, fuel).Some? && v in vs
    ensures Walk(bs, v, depth, fuel).Some?
    decreases |vs|
  {
    if v != vs[0] { WalkAllMember(bs, vs[1..], depth, fuel, v); }
  }

  /** Going round a cycle once more makes a longer chain. */
  lemma {:induction false} LongPath(bs: seq<Block>, p: seq<nat>, v: nat, n: nat) returns (q: seq<nat>)
    requires Loops(bs, p, v)
    ensures IsPath(bs, q) && q != [] && q[0] == v && |q| > n
    decreases n - |p|
  {
    if |p| > n {
      q := p;
    } else {
      var s, t :| 0 <= s < t < |p| && p[s] == p[t];
      var longer := p[..t] + p[s..];
      forall k | 0 <= k < |longer| - 1 ensures longer[k + 1] in Kids(bs, longer[k]) {
        if k + 1 < t {
        } else if k + 1 == t {
          assert longer[k] == p[t - 1] && longer[k + 1] == p[s] == p[t];
          assert p[t - 1 + 1] in Kids(bs, p[t - 1]);
        } else {
          var m := k - t + s;
          assert longer[k] == p[m] && longer[k + 1] == p[m + 1];
        }
      }
      assert longer[s] == p[s] && longer[s + (t - s)] == p[s];
      assert HasRepeat(longer);
      q := LongPath(bs, longer, v, n);
    }
  }

  /** writeNode returns from node v exactly when no cycle can be reached from v; and then |bs| nested
      calls are enough. */
  lemma WalkEndsIff(bs: seq<Block>, v: nat, depth: nat)
    requires v < |bs|
    ensures (exists fuel :: Walk(bs, v, depth, fuel).Some?) <==> !ReachesCycle(bs, v)
    ensures !ReachesCycle(bs, v) ==> Walk(bs, v, depth, |bs|).Some?
  {
    if ReachesCycle(bs, v) {
      var p :| Loops(bs, p, v);
      forall fuel: nat ensures Walk(bs, v, depth, fuel).None? {
        if Walk(bs, v, depth, fuel).Some? {
          var q := LongPath(bs, p, v, fuel);
          WalkBoundsPaths(bs, v, depth, fuel, q);
        }
      }
    } else {
      WalkFits(bs, [v], depth);
    }
  }
}
