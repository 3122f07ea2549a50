/** The text of a page, read back: what its lines say about the blocks, and when two pages have the same. */
module PageText {
  import opened PageForest
  import opened PageOutline

  // ---------------------------------------------------------------- splitting at newlines

  predicate OneLine(s: string) { '\n' !in s }

  /** The pieces between the newlines. */
  function Pieces(s: string): (pieces: seq<string>)
    ensures pieces != []
  {
    if s == "" then [""]
    else
      var rest := Pieces(s[1..]);
      if s[0] == '\n' then [""] + rest else [[s[0]] + rest[0]] + rest[1..]
  }

  lemma {:induction false} PiecesOfOne(line: string)
    requires OneLine(line)
    ensures Pieces(line) == [line]
  {
    if line != "" {
      assert line[0] in line && forall c :: c in line[1..] ==> c in line;
      PiecesOfOne(line[1..]);
      assert [line[0]] + line[1..] == line;
    }
  }

  lemma {:induction false} PiecesOfMore(line: string, rest: string)
    requires OneLine(line)
    ensures Pieces(line + "\n" + rest) == [line] + Pieces(rest)
    decreases |line|
  {
    var s := line + "\n" + rest;
    if line == "" {
      assert s[0] == '\n' && s[1..] == rest;
    } else {
      assert line[0] in line && forall c :: c in line[1..] ==> c in line;
      assert s[0] == line[0] && s[1..] == line[1..] + "\n" + rest;
      PiecesOfMore(line[1..], rest);
      assert [line[0]] + line[1..] == line;
    }
  }

  /** Lines, each ended by a newline. */
  function Ended(lines: seq<string>): string {
    if lines == [] then "" else lines[0] + "\n" + Ended(lines[1..])
  }

  lemma {:induction false} PiecesOfEnded(lines: seq<string>, last: string)
    requires OneLine(last) && forall t :: 0 <= t < |lines| ==> OneLine(lines[t])
    ensures Pieces(Ended(lines) + last) == lines + [last]
    decreases |lines|
  {
    if lines == [] {
      assert Ended(lines) + last == last;
      PiecesOfOne(last);
    } else {
      hide OneLine;
      assert Ended(lines) + last == lines[0] + "\n" + (Ended(lines[1..]) + last);
      PiecesOfMore(lines[0], Ended(lines[1..]) + last);
      PiecesOfEnded(lines[1..], last);
      assert lines == [lines[0]] + lines[1..];
    }
  }

  lemma {:induction false} EndedOfMore(lines: seq<string>, line: string)
    ensures Ended(lines + [line]) == Ended(lines) + line + "\n"
    decreases |lines|
  {
    if lines == [] {
      assert [] + [line] == [line] && [line][1..] == [];
      assert "" + line + "\n" == line + "\n" + "";
    } else {
      assert (lines + [line])[1..] == lines[1..] + [line];
      EndedOfMore(lines[1..], line);
    }
  }

  // ---------------------------------------------------------------- trimming

  /** unicode.IsSpace */
  predicate IsSpace(c: char) {
    || '\t' <= c <= '\r' || c == ' ' || c == '\U{0085}' || c == '\U{00A0}' || c == '\U{1680}'
    || '\U{2000}' <= c <= '\U{200a}' || c == '\U{2028}' || c == '\U{2029}' || c == '\U{202f}'
    || c == '\U{205f}' || c == '\U{3000}'
  }

  function TrimLeft(s: string): string {
    if s != [] && IsSpace(s[0]) then TrimLeft(s[1..]) else s
  }

  function TrimRight(s: string): string {
    if s != [] && IsSpace(s[|s| - 1]) then TrimRight(s[..|s| - 1]) else s
  }

  /** strings.TrimSpace */
  function TrimSpace(s: string): string { TrimRight(TrimLeft(s)) }

  predicate EndsInSpace(s: string) { s != "" && IsSpace(s[|s| - 1]) }

  /** The string without the white space at its end. */
  predicate IsTrimmed(trimmed: string, s: string) {
    && trimmed <= s && (forall k :: |trimmed| <= k < |s| ==> IsSpace(s[k]))
    && !EndsInSpace(trimmed)
    && (trimmed != "" ==> trimmed[|trimmed| - 1] != ' ' && trimmed[|trimmed| - 1] != '\n')
  }

  lemma {:induction false} TrimRightIs(s: string)
    ensures IsTrimmed(TrimRight(s), s)
    decreases |s|
  {
    if EndsInSpace(s) { TrimRightIs(s[..|s| - 1]); }
  }

  lemma {:induction false} TrimRightOfConcat(a: string, b: string, k: nat)
    requires k < |b| && !IsSpace(b[k])
    ensures TrimRight(a + b) == a + TrimRight(b)
    decreases |b|
  {
    if EndsInSpace(b) {
      assert (a + b)[..|a + b| - 1] == a + b[..|b| - 1];
      TrimRightOfConcat(a, b[..|b| - 1], k);
    }
  }

  // ---------------------------------------------------------------- the lines of a page

  /** Two blanks for each level, a dash, a blank and the title. */
  predicate ShowsLine(line: string, depth: nat, title: string) {
    && |line| == 2 * depth + 2 + |title|
    && (forall c :: 0 <= c < 2 * depth ==> line[c] == ' ')
    && line[2 * depth] == '-' && line[2 * depth + 1] == ' ' && line[2 * depth + 2..] == title
  }

  /** The heading, then one line for each printed block; white space at the very end is cut off. */
  ghost predicate IsPageText(text: string, name: string, bs: seq<Block>, w: seq<Line>) {
    && Indexed(bs, w)
    && var pieces := Pieces(text);
       && |pieces| == 1 + |w|
       && (if w == [] then IsTrimmed(pieces[0], "# " + name) else pieces[0] == "# " + name)
       && (forall t :: 0 <= t < |w| - 1 ==> ShowsLine(pieces[t + 1], w[t].depth, bs[w[t].index].title))
       && (w != [] ==>
             var last := w[|w| - 1];
             exists line :: IsTrimmed(pieces[|w|], line) && ShowsLine(line, last.depth, bs[last.index].title))
  }

  predicate OneLineEach(name: string, bs: seq<Block>) {
    OneLine(name) && forall i :: 0 <= i < |bs| ==> OneLine(bs[i].title)
  }

  lemma DashComesFirst(line: string, depth: nat, title: string, c: nat)
    requires ShowsLine(line, depth, title) && c < |line| && line[c] == '-'
    ensures 2 * depth <= c
  {
  }

  lemma LineTells(line: string, d: nat, a: string, e: nat, b: string)
    requires ShowsLine(line, d, a) && ShowsLine(line, e, b)
    ensures d == e && a == b
  {
    DashComesFirst(line, d, a, 2 * e);
    DashComesFirst(line, e, b, 2 * d);
  }

  /** A trimmed line still tells the depth, and the title up to white space at its end. */
  lemma TrimmedLineTells(trimmed: string, l: string, d: nat, a: string, m: string, e: nat, b: string)
    requires IsTrimmed(trimmed, l) && ShowsLine(l, d, a) && IsTrimmed(trimmed, m) && ShowsLine(m, e, b)
    ensures d == e
    ensures !EndsInSpace(a) && !EndsInSpace(b) ==> a == b
  {
    assert !IsSpace(l[2 * d]) && !IsSpace(m[2 * e]);
    assert trimmed[2 * d] == l[2 * d] == '-' && trimmed[2 * e] == m[2 * e] == '-';
    DashComesFirst(l, d, a, 2 * e);
    DashComesFirst(m, e, b, 2 * d);
    if !EndsInSpace(a) && !EndsInSpace(b) {
      KeepsTitle(trimmed, l, d, a);
      KeepsTitle(trimmed, m, e, b);
    }
  }

  lemma KeepsTitle(trimmed: string, l: string, d: nat, a: string)
    requires IsTrimmed(trimmed, l) && ShowsLine(l, d, a) && !EndsInSpace(a)
    ensures a == if |trimmed| <= 2 * d + 1 then "" else trimmed[2 * d + 2..]
  {
    if a != "" {
      assert l[|l| - 1] == a[|a| - 1];
      assert trimmed == l;
    } else {
      assert l[|l| - 1] == ' ';
    }
  }

  /** What two pages with the same text have in common: the lines, but for white space at the end of the last
      title. */
  lemma SameTextSameLines(text: string, name: string, bs: seq<Block>, w: seq<Line>,
                          name': string, cs: seq<Block>, z: seq<Line>)
    requires IsPageText(text, name, bs, w) && IsPageText(text, name', cs, z)
    ensures |w| == |z|
    ensures forall t :: 0 <= t < |w| ==> w[t].depth == z[t].depth
    ensures forall t :: 0 <= t < |w| - 1 ==> bs[w[t].index].title == cs[z[t].index].title
    ensures w != [] ==>
              var a, b := bs[w[|w| - 1].index].title, cs[z[|z| - 1].index].title;
              !EndsInSpace(a) && !EndsInSpace(b) ==> a == b
    ensures w != [] ==> name == name'
  {
    var pieces := Pieces(text);
    hide Pieces, ShowsLine, IsTrimmed, IsSpace, EndsInSpace;
    forall t | 0 <= t < |w| - 1
      ensures w[t].depth == z[t].depth && bs[w[t].index].title == cs[z[t].index].title {
      LineTells(pieces[t + 1], w[t].depth, bs[w[t].index].title, z[t].depth, cs[z[t].index].title);
    }
    if w != [] {
      var last, last' := w[|w| - 1], z[|z| - 1];
      var l :| IsTrimmed(pieces[|w|], l) && ShowsLine(l, last.depth, bs[last.index].title);
      var m :| IsTrimmed(pieces[|w|], m) && ShowsLine(m, last'.depth, cs[last'.index].title);
      TrimmedLineTells(pieces[|w|], l, last.depth, bs[last.index].title, m, last'.depth, cs[last'.index].title);
      assert name == ("# " + name)[2..] && name' == ("# " + name')[2..];
    }
  }

  /** Two pages with the same text show the same ordered forest if and only if the last titles are the same; and
      they are when neither ends in white space. */
  lemma SameTextSameForest(text: string, name: string, bs: seq<Block>, vs: seq<nat>, fuel: nat,
                           name': string, cs: seq<Block>, us: seq<nat>, fuel': nat)
    requires Within(vs, |bs|) && WalkAll(bs, vs, 0, fuel).Some?
    requires Within(us, |cs|) && WalkAll(cs, us, 0, fuel').Some?
    requires IsPageText(text, name, bs, WalkAll(bs, vs, 0, fuel).value)
    requires IsPageText(text, name', cs, WalkAll(cs, us, 0, fuel').value)
    ensures var w, z := WalkAll(bs, vs, 0, fuel).value, WalkAll(cs, us, 0, fuel').value;
            && |w| == |z|
            && (w == [] ==> GrowAll(bs, vs, 0, fuel) == GrowAll(cs, us, 0, fuel'))
            && (w != [] ==>
                  var a, b := bs[w[|w| - 1].index].title, cs[z[|z| - 1].index].title;
                  && (GrowAll(bs, vs, 0, fuel) == GrowAll(cs, us, 0, fuel') <==> a == b)
                  && (!EndsInSpace(a) && !EndsInSpace(b) ==> a == b))
  {
    var w, z := WalkAll(bs, vs, 0, fuel).value, WalkAll(cs, us, 0, fuel').value;
    SameTextSameLines(text, name, bs, w, name', cs, z);
    hide WalkAll, Pieces, GrowAll, EndsInSpace, IsPageText;
    if w == [] || bs[w[|w| - 1].index].title == cs[z[|z| - 1].index].title {
      assert Titles(bs, w) == Titles(cs, z);
      LinesDetermineForest(bs, vs, cs, us, fuel, fuel');
    } else if GrowAll(bs, vs, 0, fuel) == GrowAll(cs, us, 0, fuel') {
      SameForestSameTitles(bs, vs, fuel, cs, us, fuel');
      LastTitle(bs, w);
      LastTitle(cs, z);
    }
  }

  lemma LastTitle(bs: seq<Block>, w: seq<Line>)
    requires Indexed(bs, w) && w != []
    ensures Titles(bs, w)[|w| - 1].title == bs[w[|w| - 1].index].title
  {
  }

  lemma SameForestSameTitles(bs: seq<Block>, vs: seq<nat>, fuel: nat, cs: seq<Block>, us: seq<nat>, fuel': nat)
    requires Within(vs, |bs|) && WalkAll(bs, vs, 0, fuel).Some?
    requires Within(us, |cs|) && WalkAll(cs, us, 0, fuel').Some?
    requires Indexed(bs, WalkAll(bs, vs, 0, fuel).value) && Indexed(cs, WalkAll(cs, us, 0, fuel').value)
    requires GrowAll(bs, vs, 0, fuel) == GrowAll(cs, us, 0, fuel')
    ensures Titles(bs, WalkAll(bs, vs, 0, fuel).value) == Titles(cs, WalkAll(cs, us, 0, fuel').value)
  {
    WalkAllOutline(bs, vs, 0, fuel);
    WalkAllOutline(cs, us, 0, fuel');
  }
}
