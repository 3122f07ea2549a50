/** The printed lines determine the forest: nothing but their depths and titles is needed to read the
    tree structure back. */
module PageOutline {
  import opened PageForest

  datatype Tree = Tree(title: string, kids: seq<Tree>)
  datatype Titled = Titled(depth: nat, title: string)

  function Outline(trees: seq<Tree>, depth: nat): seq<Titled> {
    if trees == [] then []
    else [Titled(depth, trees[0].title)] + Outline(trees[0].kids, depth + 1) + Outline(trees[1..], depth)
  }

  /** The tree below node v, as writeNode walks it. */
  ghost function Grow(bs: seq<Block>, v: nat, depth: nat, fuel: nat): Tree
    requires v < |bs| && Walk(bs, v, depth, fuel).Some?
    decreases fuel, 0
  {
    Tree(bs[v].title, GrowAll(bs, Kids(bs, v), depth + 1, fuel - 1))
  }

  ghost function GrowAll(bs: seq<Block>, vs: seq<nat>, depth: nat, fuel: nat): seq<Tree>
    requires Within(vs, |bs|) && WalkAll(bs, vs, depth, fuel).Some?
    decreases fuel, |vs| + 1
  {
    if vs == [] then [] else [Grow(bs, vs[0], depth, fuel)] + GrowAll(bs, vs[1..], depth, fuel)
  }

  function Titles(bs: seq<Block>, w: seq<Line>): seq<Titled>
    requires forall t :: 0 <= t < |w| ==> w[t].index < |bs|
  {
    seq(|w|, t requires 0 <= t < |w| => Titled(w[t].depth, bs[w[t].index].title))
  }

  /** Printing a forest prints its outline. */
  lemma {:induction false} WalkAllOutline(bs: seq<Block>, vs: seq<nat>, depth: nat, fuel: nat)
    requires Within(vs, |bs|) && WalkAll(bs, vs, depth, fuel).Some?
    ensures Indexed(bs, WalkAll(bs, vs, depth, fuel).value)
    ensures Titles(bs, WalkAll(bs, vs, depth, fuel).value) == Outline(GrowAll(bs, vs, depth, fuel), depth)
    decreases fuel, |vs| + 1
  {
    WalkAllIndexed(bs, vs, depth, fuel);
    if vs != [] {
      var v := vs[0];
      var below := WalkAll(bs, Kids(bs, v), depth + 1, fuel - 1).value;
      var rest := WalkAll(bs, vs[1..], depth, fuel).value;
      WalkAllOutline(bs, Kids(bs, v), depth + 1, fuel - 1);
      WalkAllOutline(bs, vs[1..], depth, fuel);
      var trees := GrowAll(bs, vs, depth, fuel);
      assert trees[0] == Grow(bs, v, depth, fuel) && trees[1..] == GrowAll(bs, vs[1..], depth, fuel);
      assert WalkAll(bs, vs, depth, fuel).value == [Line(depth, v)] + below + rest;
      hide Walk, WalkAll, Kids, GrowAll;
      assert Titles(bs, [Line(depth, v)] + below + rest) ==
             [Titled(depth, bs[v].title)] + Titles(bs, below) + Titles(bs, rest);
    }
  }

  ghost predicate StartsAbove(s: seq<Titled>, depth: nat) { s == [] || s[0].depth < depth }

  /** Two forests with the same outline, up to a shallower rest, are the same forest. */
  lemma {:induction false} OutlineInjective(
    f: seq<Tree>, g: seq<Tree>, depth: nat, s: seq<Titled>, t: seq<Titled>)
    requires Outline(f, depth) + s == Outline(g, depth) + t
    requires StartsAbove(s, depth) && StartsAbove(t, depth)
    ensures f == g && s == t
    decreases f
  {
    if f == [] || g == [] {
      EmptyOutline(f, g, depth, s, t);
    } else {
      var u := SplitOutline(f, depth, s);
      var v := SplitOutline(g, depth, t);
      hide Outline;
      StartsLower(f[1..], depth, s);
      StartsLower(g[1..], depth, t);
      OutlineInjective(f[0].kids, g[0].kids, depth + 1, u, v);
      OutlineInjective(f[1..], g[1..], depth, s, t);
      assert f == [f[0]] + f[1..] && g == [g[0]] + g[1..];
    }
  }

  lemma SplitOutline(f: seq<Tree>, depth: nat, s: seq<Titled>) returns (rest: seq<Titled>)
    requires f != []
    ensures rest == Outline(f[1..], depth) + s
    ensures Outline(f, depth) + s != []
    ensures (Outline(f, depth) + s)[0] == Titled(depth, f[0].title)
    ensures (Outline(f, depth) + s)[1..] == Outline(f[0].kids, depth + 1) + rest
  {
    rest := Outline(f[1..], depth) + s;
    assert Outline(f, depth) + s == [Titled(depth, f[0].title)] + (Outline(f[0].kids, depth + 1) + rest);
  }

  lemma StartsLower(f: seq<Tree>, depth: nat, s: seq<Titled>)
    requires StartsAbove(s, depth)
    ensures StartsAbove(Outline(f, depth) + s, depth + 1)
  {
  }

  lemma EmptyOutline(f: seq<Tree>, g: seq<Tree>, depth: nat, s: seq<Titled>, t: seq<Titled>)
    requires Outline(f, depth) + s == Outline(g, depth) + t && (f == [] || g == [])
    requires StartsAbove(s, depth) && StartsAbove(t, depth)
    ensures f == g && s == t
  {
    assert f == [] ==> Outline(f, depth) + s == s;
    assert g == [] ==> Outline(g, depth) + t == t;
  }

  /** Two pages with the same printed lines show the same ordered forest. */
  lemma LinesDetermineForest(bs: seq<Block>, vs: seq<nat>, cs: seq<Block>, us: seq<nat>, fuel: nat, fuel': nat)
    requires Within(vs, |bs|) && WalkAll(bs, vs, 0, fuel).Some?
    requires Within(us, |cs|) && WalkAll(cs, us, 0, fuel').Some?
    requires Indexed(bs, WalkAll(bs, vs, 0, fuel).value) && Indexed(cs, WalkAll(cs, us, 0, fuel').value)
    requires Titles(bs, WalkAll(bs, vs, 0, fuel).value) == Titles(cs, WalkAll(cs, us, 0, fuel').value)
    ensures GrowAll(bs, vs, 0, fuel) == GrowAll(cs, us, 0, fuel')
  {
    WalkAllOutline(bs, vs, 0, fuel);
    WalkAllOutline(cs, us, 0, fuel');
    OutlineInjective(GrowAll(bs, vs, 0, fuel), GrowAll(cs, us, 0, fuel'), 0, [], []);
  }
}
