/** execSearch's grouping of blocks by page, and uniqueStrings, which is its list of page IDs. */
module SearchGroups {
  import opened Ordering

  datatype Found = Found(page: string, title: string)

  function Pages(blocks: seq<Found>): (r: seq<string>)
    ensures |r| == |blocks| && forall i :: 0 <= i < |r| ==> r[i] == blocks[i].page
  {
    seq(|blocks|, i requires 0 <= i < |blocks| => blocks[i].page)
  }

  /** The blocks of one page, in the order of the search. */
  function OfPage(blocks: seq<Found>, page: string): seq<Found> {
    if blocks == [] then []
    else
      OfPage(blocks[..|blocks| - 1], page)
      + (if blocks[|blocks| - 1].page == page then [blocks[|blocks| - 1]] else [])
  }

  function Grouped(blocks: seq<Found>, order: seq<string>): seq<Found> {
    if order == [] then [] else OfPage(blocks, order[0]) + Grouped(blocks, order[1..])
  }

  lemma {:induction false} OfPageCount(blocks: seq<Found>, page: string, b: Found)
    ensures multiset(OfPage(blocks, page))[b] == if b.page == page then multiset(blocks)[b] else 0
  {
    if blocks != [] {
      var before, last := blocks[..|blocks| - 1], blocks[|blocks| - 1];
      OfPageCount(before, page, b);
      assert blocks == before + [last];
    }
  }

  /** The grouping is stable: the blocks of a page keep the order of the search. */
  lemma {:induction false} OfPageKeepsOrder(a: seq<Found>, b: seq<Found>, page: string)
    ensures OfPage(a + b, page) == OfPage(a, page) + OfPage(b, page)
    decreases |b|
  {
    hide OfPage;
    if b == [] {
      NoBlocks();
      assert a + b == a && OfPage(a, page) + [] == OfPage(a, page);
    } else {
      var n := |b| - 1;
      assert (a + b)[..|a + b| - 1] == a + b[..n];
      OfPageKeepsOrder(a, b[..n], page);
      OfPageLast(a + b, page);
      OfPageLast(b, page);
    }
  }

  lemma OfPageLast(blocks: seq<Found>, page: string)
    requires blocks != []
    ensures var n := |blocks| - 1;
            OfPage(blocks, page) == OfPage(blocks[..n], page) + if blocks[n].page == page then [blocks[n]] else []
  {
  }

  lemma {:induction false} GroupedCount(blocks: seq<Found>, order: seq<string>, b: Found)
    requires Distinct(order)
    ensures multiset(Grouped(blocks, order))[b] == if b.page in order then multiset(blocks)[b] else 0
  {
    if order != [] {
      OfPageCount(blocks, order[0], b);
      assert Distinct(order[1..]);
      GroupedCount(blocks, order[1..], b);
      assert order == [order[0]] + order[1..];
    }
  }

  /** Grouping loses and invents no block. */
  lemma GroupingIsPermutation(blocks: seq<Found>)
    ensures multiset(Grouped(blocks, FirstSeen(Pages(blocks)))) == multiset(blocks)
  {
    var order := FirstSeen(Pages(blocks));
    FirstSeenIs(Pages(blocks));
    forall b ensures multiset(Grouped(blocks, order))[b] == multiset(blocks)[b] {
      GroupedCount(blocks, order, b);
      if b in blocks {
        var i :| 0 <= i < |blocks| && blocks[i] == b;
        assert Pages(blocks)[i] == b.page;
      }
    }
  }

  lemma OneMoreBlock(blocks: seq<Found>, b: Found)
    ensures FirstSeen(Pages(blocks + [b])) ==
            if b.page in FirstSeen(Pages(blocks)) then FirstSeen(Pages(blocks))
            else FirstSeen(Pages(blocks)) + [b.page]
    ensures forall p :: OfPage(blocks + [b], p) == if p == b.page then OfPage(blocks, p) + [b] else OfPage(blocks, p)
  {
    FirstSeenStep(Pages(blocks), b.page);
    assert Pages(blocks + [b]) == Pages(blocks) + [b.page];
    assert (blocks + [b])[..|blocks|] == blocks;
  }

  lemma NoBlocks()
    ensures FirstSeen(Pages([])) == [] && forall p :: OfPage([], p) == []
  {
  }

  /** The loop of execSearch: one map entry per page, and the pages in order of first occurrence. */
  method GroupByPage(blocks: seq<Found>) returns (grouped: map<string, seq<Found>>, order: seq<string>)
    ensures order == FirstSeen(Pages(blocks))
    ensures forall p :: p in grouped <==> p in order
    ensures forall p :: p in grouped ==> grouped[p] == OfPage(blocks, p)
  {
    hide FirstSeen, OfPage, Pages;
    grouped, order := map[], [];
    NoBlocks();
    for i := 0 to |blocks|
      invariant order == FirstSeen(Pages(blocks[..i]))
      invariant forall p :: p in grouped <==> p in order
      invariant forall p :: p in grouped ==> grouped[p] == OfPage(blocks[..i], p)
      invariant forall p :: p !in grouped ==> OfPage(blocks[..i], p) == []
    {
      assert [] + [blocks[i]] == [blocks[i]];
      var b := blocks[i];
      assert blocks[..i + 1] == blocks[..i] + [b];
      OneMoreBlock(blocks[..i], b);
      if b.page !in grouped {
        order := order + [b.page];
        grouped := grouped[b.page := [b]];
      } else {
        grouped := grouped[b.page := grouped[b.page] + [b]];
      }
    }
    assert blocks[..|blocks|] == blocks;
  }

  method UniqueStrings(input: seq<string>) returns (out: seq<string>)
    ensures out == FirstSeen(input)
  {
    var seen: set<string> := {};
    out := [];
    for i := 0 to |input|
      invariant out == FirstSeen(input[..i]) && seen == (set v | v in out)
    {
      assert input[..i + 1][..i] == input[..i];
      if input[i] !in seen {
        seen := seen + {input[i]};
        out := out + [input[i]];
      }
    }
    assert input[..|input|] == input;
  }
}
