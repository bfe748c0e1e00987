// The two-level index of one stream: pages of block descriptors, and the search over page entries.
module Index {
  import opened Common
  import opened Format

  /**
   A page together with the logical boundaries of its blocks: block `i` covers
   [bounds[i], bounds[i + 1]) of the stream and has global index `startBlock + i`.
   */
  datatype PageRec = PageRec(startBlock: nat, blocks: seq<BlockInfo>, bounds: seq<nat>) {
    ghost predicate Shape() {
      && |bounds| == |blocks| + 1
      && forall i {:trigger blocks[i]} :: 0 <= i < |blocks| ==> bounds[i + 1] == bounds[i] + blocks[i].logicalLen
    }

    function Start(): nat
      requires bounds != []
    {
      bounds[0]
    }

    function End(): nat
      requires bounds != []
    {
      bounds[|bounds| - 1]
    }

    lemma {:induction false} BoundsSorted(i: nat, j: nat)
      requires Shape() && i <= j < |bounds|
      ensures bounds[i] <= bounds[j]
      decreases j
    {
      if i < j {
        BoundsSorted(i, j - 1);
        assert bounds[j] == bounds[j - 1] + blocks[j - 1].logicalLen;
      }
    }
  }

  lemma InsideBounds(p: PageRec, i: nat, off: nat)
    requires p.Shape() && i < |p.blocks| && p.bounds[i] <= off < p.bounds[i + 1]
    ensures p.Start() <= off < p.End()
  {
    p.BoundsSorted(0, i);
    p.BoundsSorted(i + 1, |p.blocks|);
  }

  /** The pages of a stream follow each other without a gap, from 0 to `end`, and so do their block indices. */
  ghost predicate Chain(recs: seq<PageRec>, end: nat) {
    && (forall k {:trigger recs[k]} :: 0 <= k < |recs| ==> recs[k].Shape() && recs[k].blocks != [])
    && (recs == [] ==> end == 0)
    && (recs != [] ==> recs[0].Start() == 0 && recs[|recs| - 1].End() == end)
    && (forall k {:trigger recs[k]} :: 0 < k < |recs| ==>
      && recs[k - 1].End() == recs[k].Start()
      && recs[k - 1].startBlock + |recs[k - 1].blocks| <= recs[k].startBlock)
  }

  /** What a chain says about one page. */
  lemma ChainAt(recs: seq<PageRec>, end: nat, k: nat)
    requires Chain(recs, end) && k < |recs|
    ensures recs[k].Shape() && recs[k].blocks != [] && recs[k].Start() <= recs[k].End()
    ensures k == |recs| - 1 ==> recs[k].End() == end
    ensures k > 0 ==>
      && recs[k - 1].Shape() && recs[k - 1].End() == recs[k].Start()
      && recs[k - 1].startBlock + |recs[k - 1].blocks| <= recs[k].startBlock
  {
    recs[k].BoundsSorted(0, |recs[k].blocks|);
  }

  lemma {:induction false} ChainSorted(recs: seq<PageRec>, end: nat, j: nat, k: nat)
    requires Chain(recs, end) && j < k < |recs|
    ensures recs[j].Shape() && recs[k].Shape()
    ensures recs[j].Start() <= recs[j].End() <= recs[k].Start() <= recs[k].End() <= end
    ensures recs[j].startBlock + |recs[j].blocks| <= recs[k].startBlock
    decreases |recs| - j, k
  {
    hide Chain;
    ChainAt(recs, end, j);
    ChainAt(recs, end, k);
    ChainEnd(recs, end, k);
    if j + 1 < k { ChainSorted(recs, end, j, k - 1); }
  }

  lemma {:induction false} ChainEnd(recs: seq<PageRec>, end: nat, k: nat)
    requires Chain(recs, end) && k < |recs|
    ensures recs[k].Shape() && recs[k].Start() <= recs[k].End() <= end
    decreases |recs| - k
  {
    hide Chain;
    ChainAt(recs, end, k);
    if k + 1 < |recs| {
      ChainAt(recs, end, k + 1);
      ChainEnd(recs, end, k + 1);
    }
  }

  /** Appending a page that starts where the last one ended keeps the chain. */
  lemma ChainAppend(recs: seq<PageRec>, end: nat, p: PageRec)
    requires Chain(recs, end) && p.Shape() && p.blocks != []
    requires p.Start() == end
    requires recs != [] ==> recs[|recs| - 1].startBlock + |recs[|recs| - 1].blocks| <= p.startBlock
    ensures Chain(recs + [p], p.End())
  {
    var r := recs + [p];
    forall k {:trigger r[k]} | 0 < k < |r|
      ensures r[k - 1].End() == r[k].Start() && r[k - 1].startBlock + |r[k - 1].blocks| <= r[k].startBlock
    {
      if k < |recs| { assert r[k] == recs[k] && r[k - 1] == recs[k - 1]; }
    }
  }

  /** A global index names at most one block of a stream. */
  lemma IndexIsUnique(recs: seq<PageRec>, end: nat, k: nat, i: nat, l: nat, j: nat)
    requires Chain(recs, end)
    requires k < |recs| && i < |recs[k].blocks| && l < |recs| && j < |recs[l].blocks|
    requires recs[k].startBlock + i == recs[l].startBlock + j
    ensures k == l && i == j
  {
    if k < l { ChainSorted(recs, end, k, l); }
    if l < k { ChainSorted(recs, end, l, k); }
  }

  ghost predicate Covers(entries: seq<PageEntry>, recs: seq<PageRec>) {
    && |entries| == |recs|
    && forall k {:trigger entries[k]} {:trigger recs[k]} :: 0 <= k < |recs| ==>
      && recs[k].bounds != []
      && entries[k].startBlock == recs[k].startBlock
      && entries[k].startLogical == recs[k].Start()
  }

  ghost predicate SortedByStart(entries: seq<PageEntry>) {
    forall j, k :: 0 <= j < k < |entries| ==> entries[j].startLogical <= entries[k].startLogical
  }

  lemma EntriesSorted(entries: seq<PageEntry>, recs: seq<PageRec>, end: nat)
    requires Covers(entries, recs) && Chain(recs, end)
    ensures SortedByStart(entries)
  {
    forall j, k | 0 <= j < k < |entries|
      ensures entries[j].startLogical <= entries[k].startLogical
    {
      ChainSorted(recs, end, j, k);
    }
  }

  /**
   What `slice::binary_search_by` promises on sorted entries: any match, or the insertion point.
   With several equal starts it may stop at any of them.
   */
  ghost predicate SearchResult(entries: seq<PageEntry>, off: nat, found: bool, idx: nat) {
    if found then idx < |entries| && entries[idx].startLogical == off
    else
      && idx <= |entries|
      && (forall k :: 0 <= k < idx ==> entries[k].startLogical < off)
      && (forall k :: idx <= k < |entries| ==> entries[k].startLogical > off)
  }

  method BinarySearchBy(entries: seq<PageEntry>, off: nat) returns (found: bool, idx: nat)
    requires SortedByStart(entries)
    ensures SearchResult(entries, off, found, idx)
  {
    var lo, hi := 0, |entries|;
    while lo < hi
      invariant 0 <= lo <= hi <= |entries|
      invariant forall k :: 0 <= k < lo ==> entries[k].startLogical < off
      invariant forall k :: hi <= k < |entries| ==> entries[k].startLogical > off
    {
      var mid := lo + (hi - lo) / 2;
      if entries[mid].startLogical == off {
        return true, mid;
      } else if entries[mid].startLogical < off {
        lo := mid + 1;
      } else {
        hi := mid;
      }
    }
    return false, lo;
  }

  /** The page a read at `off` starts from: the match, else the page before the insertion point. */
  function LandingPage(found: bool, idx: nat): nat {
    if found then idx else if idx == 0 then 0 else idx - 1
  }

  /**
   Index search: for an offset inside the stream, the landing page starts at or before it, and no later
   page starts before it. If the landing page covers any bytes at all, it holds the offset.
   */
  lemma LandingIsRight(entries: seq<PageEntry>, recs: seq<PageRec>, end: nat, off: nat, found: bool, idx: nat)
    requires Covers(entries, recs) && Chain(recs, end) && recs != []
    requires SearchResult(entries, off, found, idx)
    ensures LandingPage(found, idx) < |recs|
    ensures recs[LandingPage(found, idx)].Start() <= off
    ensures forall k :: LandingPage(found, idx) < k < |recs| ==> off <= recs[k].Start()
    ensures off < end && recs[LandingPage(found, idx)].Start() < recs[LandingPage(found, idx)].End() ==>
      off < recs[LandingPage(found, idx)].End()
  {
    var l := LandingPage(found, idx);
    assert entries[0].startLogical == recs[0].Start() == 0;
    assert entries[l].startLogical == recs[l].Start();
    forall k | l < k < |recs| ensures off <= recs[k].Start() {
      assert entries[k].startLogical == recs[k].Start();
      if found { ChainSorted(recs, end, l, k); }
    }
    if l + 1 < |recs| {
      assert recs[l + 1 - 1].End() == recs[l + 1].Start();
      if !found { assert entries[l + 1].startLogical > off; }
    }
  }

  /** The landing page holds the offset, unless it is a page without bytes that sits right there. */
  lemma LandingHolds(entries: seq<PageEntry>, recs: seq<PageRec>, end: nat, off: nat, found: bool, idx: nat)
    requires Covers(entries, recs) && Chain(recs, end) && recs != []
    requires SearchResult(entries, off, found, idx)
    ensures LandingPage(found, idx) < |recs|
    ensures var p := recs[LandingPage(found, idx)];
      p.Start() <= off && (off < end ==> off < p.End() || p.Start() == p.End() == off)
  {
    LandingIsRight(entries, recs, end, off, found, idx);
    hide SearchResult, Covers;
    var l := LandingPage(found, idx);
    recs[l].BoundsSorted(0, |recs[l].blocks|);
    if l + 1 < |recs| {
      assert recs[l + 1 - 1].End() == recs[l + 1].Start();
      assert off <= recs[l + 1].Start();
    }
  }

  /** Block `i` of page `k` covers stream position `off`. */
  ghost predicate Contains(recs: seq<PageRec>, k: nat, i: nat, off: nat) {
    && k < |recs| && i < |recs[k].blocks| && i + 1 < |recs[k].bounds|
    && recs[k].bounds[i] <= off < recs[k].bounds[i + 1]
  }

  /** At most one block covers a position. */
  lemma ContainingBlockUnique(recs: seq<PageRec>, end: nat, off: nat, k: nat, i: nat, l: nat, j: nat)
    requires Chain(recs, end) && Contains(recs, k, i, off) && Contains(recs, l, j, off)
    ensures k == l && i == j
  {
    InsidePage(recs, end, k, i, off);
    InsidePage(recs, end, l, j, off);
    if k < l { ChainSorted(recs, end, k, l); }
    if l < k { ChainSorted(recs, end, l, k); }
    if i < j { recs[k].BoundsSorted(i + 1, j); }
    if j < i { recs[k].BoundsSorted(j + 1, i); }
  }

  lemma InsidePage(recs: seq<PageRec>, end: nat, k: nat, i: nat, off: nat)
    requires Chain(recs, end) && Contains(recs, k, i, off)
    ensures recs[k].Start() <= off < recs[k].End() <= end
  {
    ChainEnd(recs, end, k);
    assert recs[k].Shape();
    hide Chain, PageRec.Shape;
    InsideBounds(recs[k], i, off);
  }
}
