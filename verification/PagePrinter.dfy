/** execPage on its own data structures: a map of heap nodes whose children slices are appended to, and
    a recursive writer that appends to one shared string builder. */
module PagePrinter {
  import opened Options
  import opened PageForest
  import opened PageForestTheorems
  import opened PageText

  class TreeNode {
    const block: Block
    var children: seq<TreeNode>

    constructor (block: Block)
      ensures this.block == block && children == []
    {
      this.block := block;
      children := [];
    }
  }

  class Builder {
    var text: string

    constructor ()
      ensures text == ""
    {
      text := "";
    }

    method WriteString(s: string)
      modifies this
      ensures text == old(text) + s
    {
      text := text + s;
    }
  }

  function Indent(depth: nat): string {
    if depth == 0 then "" else "  " + Indent(depth - 1)
  }

  function Format(depth: nat, title: string): string { Indent(depth) + "- " + title + "\n" }

  function Render(bs: seq<Block>, w: seq<Line>): string
    requires forall t :: 0 <= t < |w| ==> w[t].index < |bs|
  {
    if w == [] then "" else Format(w[0].depth, bs[w[0].index].title) + Render(bs, w[1..])
  }

  lemma {:induction false} RenderAppend(bs: seq<Block>, w: seq<Line>, z: seq<Line>)
    requires forall t :: 0 <= t < |w| ==> w[t].index < |bs|
    requires forall t :: 0 <= t < |z| ==> z[t].index < |bs|
    ensures forall t :: 0 <= t < |w + z| ==> (w + z)[t].index < |bs|
    ensures Render(bs, w + z) == Render(bs, w) + Render(bs, z)
  {
    hide Format;
    if w == [] {
      assert w + z == z;
    } else {
      assert (w + z)[1..] == w[1..] + z;
      RenderAppend(bs, w[1..], z);
      Associative(Format(w[0].depth, bs[w[0].index].title), Render(bs, w[1..]), Render(bs, z));
    }
  }

  lemma Associative(a: string, b: string, c: string)
    ensures (a + b) + c == a + (b + c)
  {
  }

  // ---------------------------------------------------------------- building the nodes

  /** The nodes of blocks vs, where `at` lists the node of every block of the input. */
  ghost function Pick(at: seq<TreeNode>, vs: seq<nat>): seq<TreeNode>
    requires Within(vs, |at|)
  {
    seq(|vs|, t requires 0 <= t < |vs| => at[vs[t]])
  }

  /** Blocks share a node exactly when they share an ID; it holds the last of them. */
  ghost predicate HoldsBlocks(bs: seq<Block>, at: seq<TreeNode>) {
    && |at| == |bs|
    && (forall i :: 0 <= i < |bs| ==> at[i].block == bs[Node(bs, i)])
    && (forall i, j :: 0 <= i < |bs| && 0 <= j < |bs| ==> (at[i] == at[j] <==> bs[i].id == bs[j].id))
  }

  /** After m blocks of the second loop every node has the children seen so far. */
  ghost predicate Linked(bs: seq<Block>, at: seq<TreeNode>, m: nat)
    requires |at| == |bs| && m <= |bs|
    reads at
  {
    forall k :: 0 <= k < |bs| ==> at[k].children == Pick(at, KidsUpTo(bs, Node(bs, k), m))
  }

  lemma LastWins(bs: seq<Block>, i: nat, id: string)
    requires i < |bs|
    ensures NodeOf(bs[..i + 1], id) == if bs[i].id == id then Some(i) else NodeOf(bs[..i], id)
  {
    assert bs[..i + 1][..i] == bs[..i];
  }

  /** The first loop: a fresh node for every block, the last one staying under its ID. */
  method MakeNodes(bs: seq<Block>) returns (nodes: map<string, TreeNode>)
    ensures forall id :: id in nodes <==> NodeOf(bs, id).Some?
    ensures forall id :: id in nodes ==> nodes[id].block == bs[NodeOf(bs, id).value]
    ensures forall id, jd :: id in nodes && jd in nodes && nodes[id] == nodes[jd] ==> id == jd
    ensures forall id :: id in nodes ==> fresh(nodes[id]) && nodes[id].children == []
  {
    nodes := map[];
    for i := 0 to |bs|
      invariant forall id :: id in nodes <==> NodeOf(bs[..i], id).Some?
      invariant forall id :: id in nodes ==> nodes[id].block == bs[NodeOf(bs[..i], id).value]
      invariant forall id, jd :: id in nodes && jd in nodes && nodes[id] == nodes[jd] ==> id == jd
      invariant forall id :: id in nodes ==> fresh(nodes[id]) && nodes[id].children == []
    {
      forall id ensures NodeOf(bs[..i + 1], id) == if bs[i].id == id then Some(i) else NodeOf(bs[..i], id) {
        LastWins(bs, i, id);
      }
      var n := new TreeNode(bs[i]);
      nodes := nodes[bs[i].id := n];
    }
    assert bs[..|bs|] == bs;
  }

  lemma KidsStep(bs: seq<Block>, at: seq<TreeNode>, i: nat, k: nat)
    requires HoldsBlocks(bs, at) && i < |bs| && k < |bs|
    ensures Pick(at, KidsUpTo(bs, Node(bs, k), i + 1)) ==
            Pick(at, KidsUpTo(bs, Node(bs, k), i)) + (if bs[i].parent == Some(bs[k].id) then [at[i]] else [])
  {
    assert bs[Node(bs, i)].id == bs[i].id;
    NodeOfIsLast(bs, bs[k].id, k);
  }

  lemma RootsStep(bs: seq<Block>, at: seq<TreeNode>, i: nat)
    requires HoldsBlocks(bs, at) && i < |bs|
    ensures Pick(at, RootsUpTo(bs, i + 1)) ==
            Pick(at, RootsUpTo(bs, i)) + (if Parent(bs, i).Some? then [] else [at[i]])
  {
    assert bs[Node(bs, i)].id == bs[i].id;
  }

  /** The second loop's step on a listed parent. */
  method AppendChild(parent: TreeNode, n: TreeNode, ghost bs: seq<Block>, ghost at: seq<TreeNode>, ghost i: nat)
    requires HoldsBlocks(bs, at) && i < |bs| && n == at[i] && Linked(bs, at, i)
    requires Parent(bs, i).Some? && parent == at[Parent(bs, i).value]
    modifies parent
    ensures Linked(bs, at, i + 1)
  {
    ghost var p := Parent(bs, i).value;
    assert bs[i].parent == Some(bs[p].id);
    parent.children := parent.children + [n];
    forall k | 0 <= k < |bs| ensures at[k].children == Pick(at, KidsUpTo(bs, Node(bs, k), i + 1)) {
      KidsStep(bs, at, i, k);
      assert at[k] == at[p] <==> bs[k].id == bs[p].id;
    }
  }

  lemma NoChild(bs: seq<Block>, at: seq<TreeNode>, i: nat)
    requires HoldsBlocks(bs, at) && i < |bs| && Linked(bs, at, i) && Parent(bs, i).None?
    ensures Linked(bs, at, i + 1)
  {
    forall k | 0 <= k < |bs| ensures at[k].children == Pick(at, KidsUpTo(bs, Node(bs, k), i + 1)) {
      KidsStep(bs, at, i, k);
    }
  }

  /** nodeMap finds the node of every block, and nothing else. */
  ghost predicate Finds(bs: seq<Block>, nodes: map<string, TreeNode>, at: seq<TreeNode>) {
    && HoldsBlocks(bs, at)
    && (forall id :: id in nodes <==> NodeOf(bs, id).Some?)
    && (forall i :: 0 <= i < |bs| ==> bs[i].id in nodes && nodes[bs[i].id] == at[i])
  }

  lemma Found(bs: seq<Block>, nodes: map<string, TreeNode>, at: seq<TreeNode>, i: nat)
    requires Finds(bs, nodes, at) && i < |bs|
    ensures HoldsBlocks(bs, at) && bs[i].id in nodes && nodes[bs[i].id] == at[i]
    ensures bs[i].parent.Some? && bs[i].parent.value in nodes <==> Parent(bs, i).Some?
    ensures Parent(bs, i).Some? ==> nodes[bs[i].parent.value] == at[Parent(bs, i).value]
  {
  }

  /** The second loop: every node joins its parent's children, or the roots. */
  method LinkNodes(bs: seq<Block>, nodes: map<string, TreeNode>, ghost at: seq<TreeNode>)
    returns (roots: seq<TreeNode>)
    requires Finds(bs, nodes, at) && Linked(bs, at, 0)
    modifies at
    ensures Linked(bs, at, |bs|) && roots == Pick(at, RootsUpTo(bs, |bs|))
  {
    roots := [];
    assert |at| == |bs| && Pick(at, RootsUpTo(bs, 0)) == roots;
    hide *;
    for i := 0 to |bs|
      invariant roots == Pick(at, RootsUpTo(bs, i))
      invariant Linked(bs, at, i)
    {
      Found(bs, nodes, at, i);
      RootsStep(bs, at, i);
      var n := nodes[bs[i].id];
      if bs[i].parent.Some? && bs[i].parent.value in nodes {
        AppendChild(nodes[bs[i].parent.value], n, bs, at, i);
      } else {
        NoChild(bs, at, i);
        roots := roots + [n];
      }
    }
  }

  // ---------------------------------------------------------------- writing

  /** What writeNode appends for the nodes vs. */
  ghost function Written(bs: seq<Block>, vs: seq<nat>, depth: nat, fuel: nat): string
    requires Within(vs, |bs|) && WalkAll(bs, vs, depth, fuel).Some?
  {
    WalkAllIndexed(bs, vs, depth, fuel);
    Render(bs, WalkAll(bs, vs, depth, fuel).value)
  }

  lemma WrittenSplit(bs: seq<Block>, vs: seq<nat>, depth: nat, fuel: nat)
    requires Within(vs, |bs|) && WalkAll(bs, vs, depth, fuel).Some? && vs != []
    ensures Walk(bs, vs[0], depth, fuel).Some? && WalkAll(bs, vs[1..], depth, fuel).Some? && fuel > 0
    ensures WalkAll(bs, Kids(bs, vs[0]), depth + 1, fuel - 1).Some?
    ensures Written(bs, vs, depth, fuel) ==
            Format(depth, bs[vs[0]].title) + Written(bs, Kids(bs, vs[0]), depth + 1, fuel - 1)
            + Written(bs, vs[1..], depth, fuel)
  {
    WalkIndexed(bs, vs[0], depth, fuel);
    WalkAllIndexed(bs, vs[1..], depth, fuel);
    WalkAllIndexed(bs, Kids(bs, vs[0]), depth + 1, fuel - 1);
    var below := WalkAll(bs, Kids(bs, vs[0]), depth + 1, fuel - 1).value;
    var first := Walk(bs, vs[0], depth, fuel).value;
    assert first == [Line(depth, vs[0])] + below;
    assert first[1..] == below;
    RenderAppend(bs, first, WalkAll(bs, vs[1..], depth, fuel).value);
  }

  /** Node positions proper: blocks that nodeMap keeps. */
  ghost predicate Kept(bs: seq<Block>, vs: seq<nat>) {
    forall t :: 0 <= t < |vs| ==> vs[t] < |bs| && Node(bs, vs[t]) == vs[t]
  }

  lemma NodeIsKept(bs: seq<Block>, i: nat)
    requires i < |bs|
    ensures Node(bs, Node(bs, i)) == Node(bs, i)
  {
    assert bs[Node(bs, i)].id == bs[i].id;
  }

  lemma {:induction false} KidsKept(bs: seq<Block>, k: nat, m: nat)
    requires m <= |bs|
    ensures Kept(bs, KidsUpTo(bs, k, m))
  {
    if m > 0 {
      KidsKept(bs, k, m - 1);
      NodeIsKept(bs, m - 1);
    }
  }

  lemma {:induction false} RootsKept(bs: seq<Block>, m: nat)
    requires m <= |bs|
    ensures Kept(bs, RootsUpTo(bs, m))
  {
    if m > 0 {
      RootsKept(bs, m - 1);
      NodeIsKept(bs, m - 1);
    }
  }

  /** The heap shows the forest and holds the nodes ns of blocks vs, from which the walk ends. */
  ghost predicate Ready(bs: seq<Block>, at: seq<TreeNode>, ns: seq<TreeNode>, vs: seq<nat>, depth: nat, fuel: nat)
    reads at
  {
    && HoldsBlocks(bs, at) && Linked(bs, at, |bs|)
    && Within(vs, |bs|) && Kept(bs, vs) && ns == Pick(at, vs)
    && WalkAll(bs, vs, depth, fuel).Some?
  }

  /** What writeNode appends for node v. */
  ghost function NodeText(bs: seq<Block>, v: nat, depth: nat, fuel: nat): string
    requires v < |bs| && fuel > 0 && WalkAll(bs, Kids(bs, v), depth + 1, fuel - 1).Some?
  {
    Format(depth, bs[v].title) + Written(bs, Kids(bs, v), depth + 1, fuel - 1)
  }

  lemma WrittenNext(bs: seq<Block>, vs: seq<nat>, i: nat, depth: nat, fuel: nat, done: string)
    requires Within(vs, |bs|) && i < |vs| && WalkAll(bs, vs[i..], depth, fuel).Some?
    ensures fuel > 0 && WalkAll(bs, Kids(bs, vs[i]), depth + 1, fuel - 1).Some?
    ensures WalkAll(bs, vs[i + 1..], depth, fuel).Some?
    ensures done + Written(bs, vs[i..], depth, fuel) ==
            done + NodeText(bs, vs[i], depth, fuel) + Written(bs, vs[i + 1..], depth, fuel)
  {
    assert vs[i..][1..] == vs[i + 1..] && vs[i..][0] == vs[i];
    WrittenSplit(bs, vs[i..], depth, fuel);
    hide WalkAll, Written;
    Associative(done, NodeText(bs, vs[i], depth, fuel), Written(bs, vs[i + 1..], depth, fuel));
  }

  /** The children of node v are ready one level deeper. */
  lemma KidsReady(bs: seq<Block>, at: seq<TreeNode>, v: nat, depth: nat, fuel: nat)
    requires HoldsBlocks(bs, at) && Linked(bs, at, |bs|) && v < |bs| && Node(bs, v) == v
    requires fuel > 0 && WalkAll(bs, Kids(bs, v), depth + 1, fuel - 1).Some?
    ensures at[v].block == bs[v] && Ready(bs, at, at[v].children, Kids(bs, v), depth + 1, fuel - 1)
  {
    KidsKept(bs, v, |bs|);
    assert at[v].children == Pick(at, KidsUpTo(bs, Node(bs, v), |bs|));
  }

  /** writeNode on the nodes of vs, one after the other. */
  method WriteNodes(
    ns: seq<TreeNode>, depth: nat, sb: Builder,
    ghost bs: seq<Block>, ghost at: seq<TreeNode>, ghost vs: seq<nat>, ghost fuel: nat)
    requires Ready(bs, at, ns, vs, depth, fuel)
    modifies sb
    ensures sb.text == old(sb.text) + Written(bs, vs, depth, fuel)
    decreases fuel, 0
  {
    ghost var done := "";
    assert vs[0..] == vs && "" + Written(bs, vs, depth, fuel) == Written(bs, vs, depth, fuel);
    assert sb.text + "" == sb.text;
    for i := 0 to |ns|
      invariant WalkAll(bs, vs[i..], depth, fuel).Some?
      invariant sb.text == old(sb.text) + done
      invariant done + Written(bs, vs[i..], depth, fuel) == Written(bs, vs, depth, fuel)
    {
      WrittenNext(bs, vs, i, depth, fuel, done);
      hide Walk, WalkAll, Written, Kids, NodeText, HoldsBlocks, Linked, Node;
      Associative(old(sb.text), done, NodeText(bs, vs[i], depth, fuel));
      done := done + NodeText(bs, vs[i], depth, fuel);
      WriteNode(ns[i], depth, sb, bs, at, vs[i], fuel);
    }
    assert vs[|ns|..] == [] && done + "" == done;
  }

  method WriteNode(
    n: TreeNode, depth: nat, sb: Builder,
    ghost bs: seq<Block>, ghost at: seq<TreeNode>, ghost v: nat, ghost fuel: nat)
    requires HoldsBlocks(bs, at) && Linked(bs, at, |bs|)
    requires v < |bs| && Node(bs, v) == v && n == at[v]
    requires fuel > 0 && WalkAll(bs, Kids(bs, v), depth + 1, fuel - 1).Some?
    modifies sb
    ensures sb.text == old(sb.text) + NodeText(bs, v, depth, fuel)
    decreases fuel - 1, 1
  {
    hide *;
    NodeTextSplit(sb.text, bs, v, depth, fuel);
    KidsReady(bs, at, v, depth, fuel);
    sb.WriteString(Format(depth, n.block.title));
    KidsReady(bs, at, v, depth, fuel);
    WriteNodes(n.children, depth + 1, sb, bs, at, Kids(bs, v), fuel - 1);
  }

  lemma NodeTextSplit(before: string, bs: seq<Block>, v: nat, depth: nat, fuel: nat)
    requires v < |bs| && fuel > 0 && WalkAll(bs, Kids(bs, v), depth + 1, fuel - 1).Some?
    ensures before + NodeText(bs, v, depth, fuel) ==
            (before + Format(depth, bs[v].title)) + Written(bs, Kids(bs, v), depth + 1, fuel - 1)
  {
    Associative(before, Format(depth, bs[v].title), Written(bs, Kids(bs, v), depth + 1, fuel - 1));
  }

  // ---------------------------------------------------------------- the text, line by line

  lemma {:induction false} IndentIs(depth: nat)
    ensures |Indent(depth)| == 2 * depth && forall c :: 0 <= c < 2 * depth ==> Indent(depth)[c] == ' '
  {
    if depth > 0 { IndentIs(depth - 1); }
  }

  function LineOf(depth: nat, title: string): string { Indent(depth) + "- " + title }

  lemma LineOfShows(depth: nat, title: string)
    ensures ShowsLine(LineOf(depth, title), depth, title)
    ensures OneLine(title) ==> OneLine(LineOf(depth, title))
    ensures Format(depth, title) == LineOf(depth, title) + "\n"
  {
    IndentIs(depth);
    var line := LineOf(depth, title);
    assert line[2 * depth..] == "- " + title;
    if '\n' in line {
      var c :| 0 <= c < |line| && line[c] == '\n';
      assert c >= 2 * depth + 2 && line[c] == title[c - 2 * depth - 2];
    }
  }

  function LinesOf(bs: seq<Block>, w: seq<Line>): (lines: seq<string>)
    requires forall t :: 0 <= t < |w| ==> w[t].index < |bs|
    ensures |lines| == |w| && forall t :: 0 <= t < |w| ==> lines[t] == LineOf(w[t].depth, bs[w[t].index].title)
  {
    if w == [] then [] else [LineOf(w[0].depth, bs[w[0].index].title)] + LinesOf(bs, w[1..])
  }

  lemma {:induction false} RenderIsEnded(bs: seq<Block>, w: seq<Line>)
    requires forall t :: 0 <= t < |w| ==> w[t].index < |bs|
    ensures Render(bs, w) == Ended(LinesOf(bs, w))
    decreases |w|
  {
    hide LineOf, Format;
    if w != [] {
      RenderIsEnded(bs, w[1..]);
      LineOfShows(w[0].depth, bs[w[0].index].title);
      assert LinesOf(bs, w)[1..] == LinesOf(bs, w[1..]);
    }
  }

  /** Trimming a text of lines that starts and goes on with something visible. */
  lemma TrimEnded(lines: seq<string>, last: string, k: nat)
    requires k < |last| && !IsSpace(last[k])
    requires var all := Ended(lines) + last; all != "" && !IsSpace(all[0])
    ensures TrimSpace(Ended(lines) + last + "\n") == Ended(lines) + TrimRight(last)
  {
    var text := Ended(lines) + last + "\n";
    assert text[0] == (Ended(lines) + last)[0];
    assert TrimLeft(text) == text;
    assert text == Ended(lines) + (last + "\n") && (last + "\n")[k] == last[k];
    TrimRightOfConcat(Ended(lines), last + "\n", k);
    assert (last + "\n")[..|last|] == last;
  }

  /** The page's text before and after trimming is what its lines say. */
  lemma PageTextIs(name: string, bs: seq<Block>, vs: seq<nat>, fuel: nat)
    requires OneLineEach(name, bs) && Within(vs, |bs|) && WalkAll(bs, vs, 0, fuel).Some?
    ensures IsPageText(TrimSpace("# " + name + "\n" + Written(bs, vs, 0, fuel)), name, bs,
                       WalkAll(bs, vs, 0, fuel).value)
  {
    var w := WalkAll(bs, vs, 0, fuel).value;
    WalkAllIndexed(bs, vs, 0, fuel);
    RenderIsEnded(bs, w);
    var heading, body := "# " + name, LinesOf(bs, w);
    var all := [heading] + body;
    assert Ended(all) == heading + "\n" + Render(bs, w) by { assert all[1..] == body; }
    forall t | 0 <= t < |w| ensures OneLine(body[t]) && ShowsLine(body[t], w[t].depth, bs[w[t].index].title) {
      LineOfShows(w[t].depth, bs[w[t].index].title);
    }
    assert "# " + name + "\n" + Written(bs, vs, 0, fuel) == Ended(all);
    hide WalkAll, Render, Written, LineOf, LinesOf;
    TrimmedPage(heading, body, name, if w == [] then 0 else 2 * w[|w| - 1].depth);
    ShownPage(TrimSpace(Ended(all)), name, bs, w, body);
  }

  lemma ShownPage(text: string, name: string, bs: seq<Block>, w: seq<Line>, body: seq<string>)
    requires Indexed(bs, w) && |body| == |w|
    requires forall t :: 0 <= t < |w| ==> ShowsLine(body[t], w[t].depth, bs[w[t].index].title)
    requires var all, n := ["# " + name] + body, |body|; Pieces(text) == all[..n] + [TrimRight(all[n])]
    ensures IsPageText(text, name, bs, w)
  {
    hide Pieces, ShowsLine, TrimRight, IsTrimmed;
    var all, n := ["# " + name] + body, |body|;
    TrimRightIs(all[n]);
    assert forall t :: 0 <= t < n - 1 ==> Pieces(text)[t + 1] == body[t];
    if w != [] {
      assert all[n] == body[n - 1] && Pieces(text)[0] == "# " + name;
      var line, pieces := body[n - 1], Pieces(text);
      assert pieces[n] == TrimRight(all[n]) && pieces[|w|] == pieces[n];
      assert IsTrimmed(pieces[|w|], line) && ShowsLine(line, w[|w| - 1].depth, bs[w[|w| - 1].index].title);
    }
  }

  lemma TrimmedPage(heading: string, body: seq<string>, name: string, k: nat)
    requires heading == "# " + name && OneLine(name) && forall t :: 0 <= t < |body| ==> OneLine(body[t])
    requires if body == [] then k == 0 else k < |body[|body| - 1]| && body[|body| - 1][k] == '-'
    ensures var all, n := [heading] + body, |body|;
            Pieces(TrimSpace(Ended(all))) == all[..n] + [TrimRight(all[n])]
  {
    var all, n := [heading] + body, |body|;
    var before, last := all[..n], all[n];
    assert all == before + [last];
    EndedOfMore(before, last);
    assert forall c :: c in heading ==> c == '#' || c == ' ' || c in name;
    assert (Ended(before) + last)[0] == '#' by {
      if n > 0 { assert before[0] == heading; }
    }
    assert last[k] == if n == 0 then '#' else '-';
    TrimEnded(before, last, k);
    TrimRightIs(last);
    assert OneLine(TrimRight(last)) by {
      assert OneLine(last);
      assert forall c :: c in TrimRight(last) ==> c in last;
    }
    PiecesOfEnded(before, TrimRight(last));
  }

  /** White space at the end of the last title leaves no trace in the text. */
  lemma TrailingSpaceIsLost()
    ensures var bs, cs := [Block("a", None, "A")], [Block("a", None, "A ")];
            && TrimSpace("# P\n" + Render(bs, [Line(0, 0)])) == TrimSpace("# P\n" + Render(cs, [Line(0, 0)]))
            && bs[0].title != cs[0].title
  {
    var bs, cs := [Block("a", None, "A")], [Block("a", None, "A ")];
    assert Render(bs, [Line(0, 0)]) == "- A\n" && Render(cs, [Line(0, 0)]) == "- A \n" by {
      assert [Line(0, 0)][1..] == [] && Indent(0) == "";
    }
    assert TrimSpace("# P\n- A\n") == "# P\n- A" by { assert "# P\n- A\n"[..7] == "# P\n- A"; }
    assert TrimSpace("# P\n- A \n") == "# P\n- A" by {
      assert "# P\n- A \n"[..8] == "# P\n- A " && "# P\n- A "[..7] == "# P\n- A";
    }
    assert "# P\n" + "- A\n" == "# P\n- A\n" && "# P\n" + "- A \n" == "# P\n- A \n";
    assert |bs[0].title| != |cs[0].title|;
  }

  // ---------------------------------------------------------------- the page

  /** What the knowledge store answers: an error, nothing, or a value. */
  datatype Lookup<+T> = Failed(error: string) | Missing | Found(value: T)

  datatype Answer = Error(message: string) | PageNotFound | Text(text: string)

  /** Execute's clamp of max_results in page mode. */
  function PageLimit(requested: int): (max: nat)
    ensures 1 <= max <= 100 && (max == requested || (max == 100 && !(1 <= requested <= 100)))
  {
    if requested <= 0 || requested > 100 then 100 else requested
  }

  /** execPage with the store's two answers; `page` carries the page's name. */
  method ExecPage(page: Lookup<string>, tree: Lookup<seq<Block>>, requested: int) returns (answer: Answer)
    requires tree.Found? ==>
               var vs := Retained(tree.value, PageLimit(requested));
               forall t :: 0 <= t < |vs| ==> !ReachesCycle(tree.value, vs[t])
    ensures page.Failed? ==> answer == Error("get page: " + page.error)
    ensures page.Missing? ==> answer == PageNotFound
    ensures page.Found? && tree.Failed? ==> answer == Error("get block tree: " + tree.error)
    ensures page.Found? && !tree.Failed? ==>
              var bs := if tree.Found? then tree.value else [];
              var vs := Retained(bs, PageLimit(requested));
              && WalkAll(bs, vs, 0, |bs|).Some?
              && answer == Text(TrimSpace("# " + page.value + "\n" + Written(bs, vs, 0, |bs|)))
              && (OneLineEach(page.value, bs) ==>
                    IsPageText(answer.text, page.value, bs, WalkAll(bs, vs, 0, |bs|).value))
  {
    match page
    case Failed(error) => answer := Error("get page: " + error);
    case Missing => answer := PageNotFound;
    case Found(name) =>
      match tree
      case Failed(error) => answer := Error("get block tree: " + error);
      case Missing => answer := PrintPage(name, [], PageLimit(requested));
      case Found(bs) => answer := PrintPage(name, bs, PageLimit(requested));
  }

  lemma AllLinked(bs: seq<Block>, nodes: map<string, TreeNode>, at: seq<TreeNode>)
    requires |at| == |bs|
    requires forall id :: id in nodes <==> NodeOf(bs, id).Some?
    requires forall id :: id in nodes ==> nodes[id].block == bs[NodeOf(bs, id).value]
    requires forall id, jd :: id in nodes && jd in nodes && nodes[id] == nodes[jd] ==> id == jd
    requires forall id :: id in nodes ==> nodes[id].children == []
    requires forall i :: 0 <= i < |bs| ==> bs[i].id in nodes && at[i] == nodes[bs[i].id]
    ensures Finds(bs, nodes, at) && Linked(bs, at, 0)
  {
  }

  method PrintPage(name: string, bs: seq<Block>, max: nat) returns (answer: Answer)
    requires var vs := Retained(bs, max); forall t :: 0 <= t < |vs| ==> !ReachesCycle(bs, vs[t])
    ensures WalkAll(bs, Retained(bs, max), 0, |bs|).Some?
    ensures answer == Text(TrimSpace("# " + name + "\n" + Written(bs, Retained(bs, max), 0, |bs|)))
    ensures OneLineEach(name, bs) ==>
              IsPageText(answer.text, name, bs, WalkAll(bs, Retained(bs, max), 0, |bs|).value)
  {
    RetainedEnds(bs, max);
    if OneLineEach(name, bs) { PageTextIs(name, bs, Retained(bs, max), |bs|); }
    var nodes := MakeNodes(bs);
    ghost var at := NodeList(bs, nodes);
    var roots := LinkNodes(bs, nodes, at);
    if max < |roots| {
      roots := roots[..max];
    }
    RetainedReady(bs, at, roots, max);
    var text := PrintRoots(name, roots, bs, at, max);
    answer := Text(TrimSpace(text));
  }

  method PrintRoots(
    name: string, roots: seq<TreeNode>, ghost bs: seq<Block>, ghost at: seq<TreeNode>, ghost max: nat)
    returns (text: string)
    requires Ready(bs, at, roots, Retained(bs, max), 0, |bs|)
    ensures text == "# " + name + "\n" + Written(bs, Retained(bs, max), 0, |bs|)
  {
    var sb := new Builder();
    var heading := "# " + name + "\n";
    assert "" + heading == heading;
    hide *;
    sb.WriteString(heading);
    WriteNodes(roots, 0, sb, bs, at, Retained(bs, max), |bs|);
    text := sb.text;
  }

  lemma RetainedEnds(bs: seq<Block>, max: nat)
    requires var vs := Retained(bs, max); forall t :: 0 <= t < |vs| ==> !ReachesCycle(bs, vs[t])
    ensures WalkAll(bs, Retained(bs, max), 0, |bs|).Some?
  {
    WalkAllEnds(bs, Retained(bs, max), 0);
  }

  lemma NodeList(bs: seq<Block>, nodes: map<string, TreeNode>) returns (at: seq<TreeNode>)
    requires forall id :: id in nodes <==> NodeOf(bs, id).Some?
    requires forall id :: id in nodes ==> nodes[id].block == bs[NodeOf(bs, id).value]
    requires forall id, jd :: id in nodes && jd in nodes && nodes[id] == nodes[jd] ==> id == jd
    requires forall id :: id in nodes ==> nodes[id].children == []
    ensures Finds(bs, nodes, at) && Linked(bs, at, 0)
    ensures forall n :: n in at ==> n in nodes.Values
  {
    forall i | 0 <= i < |bs| ensures bs[i].id in nodes { NodeOfIsLast(bs, bs[i].id, i); }
    at := seq(|bs|, i requires 0 <= i < |bs| => nodes[bs[i].id]);
    AllLinked(bs, nodes, at);
  }

  lemma RetainedReady(bs: seq<Block>, at: seq<TreeNode>, roots: seq<TreeNode>, max: nat)
    requires HoldsBlocks(bs, at) && Linked(bs, at, |bs|)
    requires var all := Pick(at, RootsUpTo(bs, |bs|)); roots == if max < |all| then all[..max] else all
    requires WalkAll(bs, Retained(bs, max), 0, |bs|).Some?
    ensures Ready(bs, at, roots, Retained(bs, max), 0, |bs|)
  {
    RootsKept(bs, |bs|);
  }
}
