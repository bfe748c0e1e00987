// What a read asks of the caches and the file, and that in every interleaving it returns what the archive denotes.
module ConcurrentReads {
  import opened Common
  import opened Format
  import opened Index
  import opened Image
  import opened WriterModel
  import opened Prefetch
  import opened Lru
  import Reader

  // ---------------------------------------------------------------------------------------------
  // The read as a program: first the pages from the landing page on, then the stored blocks

  /** A stretch of the answer: zeros, or part of a stored block. */
  datatype Part = Zero(count: nat) | Stored(key: BlockKey, from: nat, count: nat)

  /** How far the walk has come: the next page, the position in the stream, what remains, what has been found. */
  datatype Walk = Walk(page: nat, pos: nat, remaining: nat, parts: seq<Part>)

  /** One block that starts at `start` in the stream. */
  function StepBlock(s: Stream, start: nat, b: BlockInfo, idx: nat, w: Walk): Walk {
    if w.remaining == 0 || start + b.logicalLen <= w.pos then w
    else
      var inBlock := if start <= w.pos then w.pos - start else 0;
      var toCopy := Min(w.remaining, b.logicalLen - Min(b.logicalLen, inBlock));
      var part := if b.ReadsAsZero() || b.offset == BLOCK_OFFSET_PARENT then Zero(toCopy)
                  else Part.Stored((s, idx), inBlock, toCopy);
      w.(pos := w.pos + toCopy, remaining := w.remaining - toCopy, parts := w.parts + [part])
  }

  function StepBlocks(s: Stream, start: nat, blocks: seq<BlockInfo>, idx: nat, w: Walk): Walk
    decreases |blocks|
  {
    if blocks == [] then w
    else StepBlocks(s, start + blocks[0].logicalLen, blocks[1..], idx + 1, StepBlock(s, start, blocks[0], idx, w))
  }

  function StepPage(s: Stream, e: PageEntry, blocks: seq<BlockInfo>, w: Walk): (r: Walk)
    ensures r.page == w.page + 1
  {
    StepBlocks(s, e.startLogical, blocks, e.startBlock, w).(page := w.page + 1)
  }

  predicate WalkOver(entries: seq<PageEntry>, w: Walk) {
    w.page >= |entries| || w.remaining == 0 || entries[w.page].startLogical > w.pos + w.remaining
  }

  function Blocks(parts: seq<Part>): seq<Part> {
    if parts == [] then []
    else if parts[0].Stored? then [parts[0]] + Blocks(parts[1..]) else Blocks(parts[1..])
  }

  /** What the read accesses next, given all it has seen. */
  function NextAccess(entries: seq<PageEntry>, s: Stream, w: Walk, got: seq<Val>): Option<Access>
    decreases |got|
  {
    if WalkOver(entries, w) then
      var blocks := Blocks(w.parts);
      if |got| < |blocks| && blocks[|got|].Stored? then Some(BlockOf(blocks[|got|].key)) else None
    else if got == [] then Some(PageAt(entries[w.page].offset))
    else if got[0].PageVal? then NextAccess(entries, s, StepPage(s, entries[w.page], got[0].blocks, w), got[1..])
    else None
  }

  /** The parts put together, stored blocks in the order in which they were read. */
  function Join(parts: seq<Part>, got: seq<Val>): Bytes
    decreases |parts|
  {
    if parts == [] then []
    else match parts[0]
    case Zero(count) => Zeros(count) + Join(parts[1..], got)
    case Stored(_, from, count) =>
      if got != [] && got[0].BlockVal? then Cut(got[0].data, from, count) + Join(parts[1..], got[1..]) else []
  }

  /** What the read makes of all it has seen. */
  function Assemble(entries: seq<PageEntry>, s: Stream, w: Walk, got: seq<Val>): Bytes
    decreases |got|
  {
    if WalkOver(entries, w) then Join(w.parts, got)
    else if got != [] && got[0].PageVal? then
      Assemble(entries, s, StepPage(s, entries[w.page], got[0].blocks, w), got[1..])
    else []
  }

  /** A read of `n` bytes at `off` sets out from the landing page, up to the end of the stream. */
  function Begin(master: MasterIndex, s: Stream, off: nat, n: nat, page: nat): Walk {
    Walk(page, off, if off < master.Size(s) then Min(n, master.Size(s) - off) else 0, [])
  }

  /** The buffer of the read: what was assembled, zeros behind it. */
  function Answer(master: MasterIndex, s: Stream, off: nat, n: nat, page: nat, got: seq<Val>): Bytes {
    var own := Assemble(master.Pages(s), s, Begin(master, s, off, n, page), got);
    own + Zeros(n - Min(n, |own|))
  }

  // ---------------------------------------------------------------------------------------------
  // What the parts mean

  /** The plaintext of a block. */
  function Plain(t: Truth, key: BlockKey): Bytes { t.block(key) }

  function Meant(t: Truth, part: Part): Bytes {
    match part
    case Zero(count) => Zeros(count)
    case Stored(key, from, count) => Cut(Plain(t, key), from, count)
  }

  function Meaning(t: Truth, parts: seq<Part>): Bytes {
    if parts == [] then [] else Meant(t, parts[0]) + Meaning(t, parts[1..])
  }

  lemma {:induction false} MeaningAppend(t: Truth, parts: seq<Part>, part: Part)
    ensures Meaning(t, parts + [part]) == Meaning(t, parts) + Meant(t, part)
  {
    hide Meant;
    if parts == [] {
      assert [] + [part] == [part] && [part][1..] == [];
    } else {
      assert (parts + [part])[1..] == parts[1..] + [part];
      MeaningAppend(t, parts[1..], part);
    }
  }

  predicate IsAnswer(t: Truth, part: Part, v: Val) { part.Stored? && v == BlockVal(Plain(t, part.key)) }

  /** These are the plaintexts of the stored parts, in order. */
  ghost predicate BlocksRead(t: Truth, blocks: seq<Part>, got: seq<Val>) {
    |got| == |blocks| && forall j {:trigger got[j]} :: 0 <= j < |got| ==> IsAnswer(t, blocks[j], got[j])
  }

  lemma BlocksReadRest(t: Truth, blocks: seq<Part>, got: seq<Val>)
    requires BlocksRead(t, blocks, got) && blocks != []
    ensures got != [] && IsAnswer(t, blocks[0], got[0]) && BlocksRead(t, blocks[1..], got[1..])
  {
    hide IsAnswer;
    var rest, more := got[1..], blocks[1..];
    assert IsAnswer(t, blocks[0], got[0]);
    forall j {:trigger rest[j]} | 0 <= j < |rest| ensures IsAnswer(t, more[j], rest[j]) {
      assert rest[j] == got[j + 1] && more[j] == blocks[j + 1];
    }
  }

  lemma {:induction false} JoinIsMeaning(t: Truth, parts: seq<Part>, got: seq<Val>)
    requires BlocksRead(t, Blocks(parts), got)
    ensures Join(parts, got) == Meaning(t, parts)
    decreases |parts|
  {
    hide BlocksRead;
    if parts == [] {
    } else if parts[0].Stored? {
      BlocksReadRest(t, Blocks(parts), got);
      assert Blocks(parts)[1..] == Blocks(parts[1..]);
      JoinIsMeaning(t, parts[1..], got[1..]);
    } else {
      JoinIsMeaning(t, parts[1..], got);
    }
  }

  // ---------------------------------------------------------------------------------------------
  // The walk finds the content

  /**
   The walk has dealt with all blocks before stream position `bound`: what it has found is the content from `off` up to
   where it stands.
   */
  ghost predicate FoundUpTo(t: Truth, content: Bytes, off: nat, total: nat, w: Walk, bound: nat) {
    && off <= w.pos && w.pos + w.remaining == off + total
    && Reader.WalkedTo(off, total, bound, w.pos - off)
    && Meaning(t, w.parts) == Cut(content, off, w.pos - off)
    && (w.pos == off || w.pos <= |content|)
  }

  /** What the truth and the archive say about one block. */
  ghost predicate BlockTrue(t: Truth, content: Bytes, s: Stream, start: nat, b: BlockInfo, idx: nat) {
    && start + b.logicalLen <= |content|
    && var data := content[start..start + b.logicalLen];
       if b.ReadsAsZero() || b.offset == BLOCK_OFFSET_PARENT then IsZeroChunk(data) else Plain(t, (s, idx)) == data
  }

  lemma StepBlockIs(s: Stream, start: nat, b: BlockInfo, idx: nat, w: Walk) returns (count: nat, part: Part)
    requires w.remaining > 0 && start <= w.pos < start + b.logicalLen
    ensures count == Min(w.remaining, start + b.logicalLen - w.pos)
    ensures part == if b.ReadsAsZero() || b.offset == BLOCK_OFFSET_PARENT then Zero(count)
                    else Part.Stored((s, idx), w.pos - start, count)
    ensures StepBlock(s, start, b, idx, w) ==
      w.(pos := w.pos + count, remaining := w.remaining - count, parts := w.parts + [part])
  {
    var r := StepBlock(s, start, b, idx, w);
    count, part := r.pos - w.pos, r.parts[|w.parts|];
  }

  lemma StepBlockFinds(
    t: Truth, content: Bytes, off: nat, total: nat, s: Stream, start: nat, b: BlockInfo, idx: nat, w: Walk)
    requires FoundUpTo(t, content, off, total, w, start) && BlockTrue(t, content, s, start, b, idx)
    ensures FoundUpTo(t, content, off, total, StepBlock(s, start, b, idx, w), start + b.logicalLen)
  {
    hide FoundUpTo, Meant, BlockInfo.ReadsAsZero;
    var end := start + b.logicalLen;
    Standing(t, content, off, total, w, start);
    if w.remaining > 0 && end > w.pos {
      var count, part := StepBlockIs(s, start, b, idx, w);
      PartMeans(t, content, s, start, b, idx, w.pos, count, part);
      hide *;
      Advance(t, content, off, total, w, start, end, count, part);
    } else {
      Skip(t, content, off, total, w, start, end);
    }
  }

  lemma Standing(t: Truth, content: Bytes, off: nat, total: nat, w: Walk, bound: nat)
    requires FoundUpTo(t, content, off, total, w, bound)
    ensures w.remaining > 0 ==> bound <= w.pos
  {
    hide Meaning, Cut;
  }

  lemma Skip(t: Truth, content: Bytes, off: nat, total: nat, w: Walk, start: nat, end: nat)
    requires FoundUpTo(t, content, off, total, w, start) && start <= end && (w.remaining == 0 || end <= w.pos)
    ensures FoundUpTo(t, content, off, total, w, end)
  {
    hide Meaning, Cut;
  }

  lemma Advance(
    t: Truth, content: Bytes, off: nat, total: nat, w: Walk, start: nat, end: nat, count: nat, part: Part)
    requires FoundUpTo(t, content, off, total, w, start) && start <= w.pos < end <= |content|
    requires w.remaining > 0 && count == Min(w.remaining, end - w.pos)
    requires Meant(t, part) == content[w.pos..w.pos + count]
    ensures var r := w.(pos := w.pos + count, remaining := w.remaining - count, parts := w.parts + [part]);
      FoundUpTo(t, content, off, total, r, end)
  {
    hide Meaning, Meant, Cut;
    MeaningAppend(t, w.parts, part);
    CutJoins(content, off, w.pos, count);
  }

  lemma PartMeans(
    t: Truth, content: Bytes, s: Stream, start: nat, b: BlockInfo, idx: nat, pos: nat, count: nat, part: Part)
    requires BlockTrue(t, content, s, start, b, idx) && start <= pos && pos + count <= start + b.logicalLen
    requires part == if b.ReadsAsZero() || b.offset == BLOCK_OFFSET_PARENT then Zero(count)
                     else Part.Stored((s, idx), pos - start, count)
    ensures pos + count <= |content| && Meant(t, part) == content[pos..pos + count]
  {
    var end := start + b.logicalLen;
    SliceOfSlice(content, start, end, pos, count);
    CutWithin(content[start..end], pos - start, count);
    hide Cut;
  }

  lemma SliceOfSlice(content: Bytes, start: nat, end: nat, pos: nat, count: nat)
    requires start <= pos && pos + count <= end <= |content|
    ensures content[start..end][pos - start..pos - start + count] == content[pos..pos + count]
  {
    var data, from := content[start..end], pos - start;
    assert |data| == end - start;
    var x, y := data[from..from + count], content[pos..pos + count];
    forall i | 0 <= i < count ensures x[i] == y[i] {
      assert data[from + i] == content[start + (from + i)];
    }
  }

  lemma CutWithin(data: Bytes, from: nat, count: nat)
    requires from + count <= |data|
    ensures Cut(data, from, count) == data[from..from + count]
  {
  }

  lemma CutJoins(content: Bytes, off: nat, pos: nat, count: nat)
    requires off <= pos && pos + count <= |content|
    ensures Cut(content, off, pos - off) + content[pos..pos + count] == Cut(content, off, pos + count - off)
  {
  }

  /** Blocks of a page from number `i` on. */
  ghost predicate BlocksTrue(t: Truth, content: Bytes, s: Stream, p: PageRec) {
    && p.Shape()
    && forall i {:trigger p.blocks[i]} :: 0 <= i < |p.blocks| ==>
      BlockTrue(t, content, s, p.bounds[i], p.blocks[i], p.startBlock + i)
  }

  lemma {:induction false} StepBlocksFinds(
    t: Truth, content: Bytes, off: nat, total: nat, s: Stream, p: PageRec, i: nat, w: Walk)
    requires BlocksTrue(t, content, s, p) && i <= |p.blocks|
    requires FoundUpTo(t, content, off, total, w, p.bounds[i])
    ensures FoundUpTo(t, content, off, total, StepBlocks(s, p.bounds[i], p.blocks[i..], p.startBlock + i, w), p.End())
    decreases |p.blocks| - i
  {
    hide FoundUpTo, BlockTrue, StepBlock;
    if i < |p.blocks| {
      StepBlockFinds(t, content, off, total, s, p.bounds[i], p.blocks[i], p.startBlock + i, w);
      assert p.blocks[i..][0] == p.blocks[i] && p.blocks[i..][1..] == p.blocks[i + 1..];
      StepBlocksFinds(
        t, content, off, total, s, p, i + 1, StepBlock(s, p.bounds[i], p.blocks[i], p.startBlock + i, w));
    } else {
      assert p.blocks[i..] == [];
    }
  }

  lemma PageFacts(img: Image, s: Stream, k: nat)
    requires Readable(img) && k < |img.Recs(s)|
    ensures PageReads(img, s, k) && img.Recs(s)[k].Shape() && img.Recs(s)[k].End() <= |img.Content(s)|
  {
    assert StreamReads(img, s);
    hide Readable, PageReads, PageDecodes;
    assert Chain(img.Recs(s), |img.Content(s)|);
    hide StreamReads, Chain;
    ChainEnd(img.Recs(s), |img.Content(s)|, k);
  }

  /** What holds of each page of a readable archive without parents. */
  lemma PageIsTrue(img: Image, t: Truth, s: Stream, k: nat)
    requires Readable(img) && img.parents == [] && TruthAbout(img, t) && k < |img.Recs(s)|
    ensures BlocksTrue(t, img.Content(s), s, img.Recs(s)[k])
  {
    hide Readable, TruthAbout, BlockReads, BlockTrue, PageReads;
    PageFacts(img, s, k);
    var p := img.Recs(s)[k];
    forall i {:trigger p.blocks[i]} | 0 <= i < |p.blocks|
      ensures BlockTrue(t, img.Content(s), s, p.bounds[i], p.blocks[i], p.startBlock + i)
    {
      p.BoundsSorted(i + 1, |p.blocks|);
      BlockIsTrue(img, t, s, k, i);
    }
  }

  lemma BlockIsTrue(img: Image, t: Truth, s: Stream, k: nat, i: nat)
    requires img.Has(s, k, i) && img.parents == [] && TruthAbout(img, t) && img.Recs(s)[k].Shape()
    requires PageReads(img, s, k) && img.Recs(s)[k].bounds[i + 1] <= |img.Content(s)|
    ensures var p := img.Recs(s)[k];
      BlockTrue(t, img.Content(s), s, p.bounds[i], p.blocks[i], p.startBlock + i)
  {
    hide UnsealsTo, Image.Holds;
    var p := img.Recs(s)[k];
    assert p.bounds[i + 1] == p.bounds[i] + p.blocks[i].logicalLen;
    assert BlockReads(img, img.BlockAt(s, k, i), img.IndexAt(s, k, i), img.DataAt(s, k, i));
    assert img.DataAt(s, k, i) == img.Content(s)[p.bounds[i]..p.bounds[i + 1]];
  }

  lemma StepPageFinds(img: Image, t: Truth, s: Stream, off: nat, total: nat, w: Walk)
    requires Readable(img) && img.parents == [] && TruthAbout(img, t) && w.page < |img.Recs(s)|
    requires FoundUpTo(t, img.Content(s), off, total, w, img.Recs(s)[w.page].Start())
    ensures w.page < |img.master.Pages(s)|
    ensures var p := img.Recs(s)[w.page];
      FoundUpTo(t, img.Content(s), off, total, StepPage(s, img.master.Pages(s)[w.page], p.blocks, w), p.End())
  {
    hide Readable, TruthAbout, StepBlocks, BlocksTrue, FoundUpTo;
    var p := img.Recs(s)[w.page];
    EntryOf(img, s, w.page);
    PageIsTrue(img, t, s, w.page);
    PageFacts(img, s, w.page);
    assert p.blocks[0..] == p.blocks;
    StepBlocksFinds(t, img.Content(s), off, total, s, p, 0, w);
    OtherPage(t, img.Content(s), off, total, StepBlocks(s, p.bounds[0], p.blocks, p.startBlock, w), p.End(),
      w.page + 1);
  }

  lemma OtherPage(t: Truth, content: Bytes, off: nat, total: nat, w: Walk, bound: nat, page: nat)
    requires FoundUpTo(t, content, off, total, w, bound)
    ensures FoundUpTo(t, content, off, total, w.(page := page), bound)
  {
  }

  lemma EntryOf(img: Image, s: Stream, k: nat)
    requires Readable(img) && k < |img.Recs(s)|
    ensures |img.master.Pages(s)| == |img.Recs(s)| && img.Recs(s)[k].bounds != []
    ensures img.master.Pages(s)[k].startLogical == img.Recs(s)[k].Start()
    ensures img.master.Pages(s)[k].startBlock == img.Recs(s)[k].startBlock
    ensures k + 1 < |img.Recs(s)| ==>
      img.Recs(s)[k + 1].bounds != [] && img.Recs(s)[k + 1].Start() == img.Recs(s)[k].End()
    ensures k + 1 == |img.Recs(s)| ==> img.Recs(s)[k].End() == |img.Content(s)|
  {
    assert StreamReads(img, s);
    hide Readable, StreamReads, PageReads, PageDecodes;
    assert Covers(img.master.Pages(s), img.Recs(s)) && Chain(img.Recs(s), |img.Content(s)|);
    if k + 1 < |img.Recs(s)| { ChainAt(img.Recs(s), |img.Content(s)|, k + 1); }
    ChainAt(img.Recs(s), |img.Content(s)|, k);
  }

  // ---------------------------------------------------------------------------------------------
  // What the read has seen

  /** All accesses were those of the read, and were answered truthfully. */
  ghost predicate Answered(t: Truth, entries: seq<PageEntry>, s: Stream, w: Walk, got: seq<Val>) {
    forall j: nat {:trigger got[..j]} :: j < |got| ==>
      && NextAccess(entries, s, w, got[..j]).Some?
      && got[j] == t.Of(NextAccess(entries, s, w, got[..j]).value)
  }

  /** Where page `page` starts, or the content ends. */
  function BoundOf(img: Image, s: Stream, page: nat): nat {
    if page < |img.Recs(s)| && img.Recs(s)[page].bounds != [] then img.Recs(s)[page].Start() else |img.Content(s)|
  }

  lemma {:induction false} AnswersAssemble(
    img: Image, t: Truth, s: Stream, off: nat, total: nat, w: Walk, got: seq<Val>)
    requires Readable(img) && img.parents == [] && TruthAbout(img, t) && w.page <= |img.Recs(s)|
    requires FoundUpTo(t, img.Content(s), off, total, w, BoundOf(img, s, w.page))
    requires Answered(t, img.master.Pages(s), s, w, got) && NextAccess(img.master.Pages(s), s, w, got) == None
    ensures Assemble(img.master.Pages(s), s, w, got) == Cut(img.Content(s), off, total)
    decreases |got|
  {
    hide Readable, TruthAbout, FoundUpTo, Answered, StepPage;
    var entries := img.master.Pages(s);
    SameLength(img, s);
    if WalkOver(entries, w) {
      BlocksAnswered(t, entries, s, w, got);
      JoinIsMeaning(t, w.parts, got);
      OverIsComplete(img, t, s, off, total, w);
    } else {
      FirstAnswer(t, entries, s, w, got);
      EntryOf(img, s, w.page);
      PageThere(img, t, s, w.page);
      var w' := StepPage(s, entries[w.page], got[0].blocks, w);
      StepPageFinds(img, t, s, off, total, w);
      AnsweredOn(t, entries, s, w, got);
      AnswersAssemble(img, t, s, off, total, w', got[1..]);
    }
  }

  lemma SameLength(img: Image, s: Stream)
    requires Readable(img)
    ensures |img.master.Pages(s)| == |img.Recs(s)|
  {
    assert StreamReads(img, s);
  }

  lemma PageThere(img: Image, t: Truth, s: Stream, k: nat)
    requires TruthAbout(img, t) && k < |img.Recs(s)| && k < |img.master.Pages(s)|
    ensures t.page(img.master.Pages(s)[k].offset) == img.Recs(s)[k].blocks
  {
    assert img.Recs(s)[k] == img.Recs(s)[k];
  }

  lemma FirstAnswer(t: Truth, entries: seq<PageEntry>, s: Stream, w: Walk, got: seq<Val>)
    requires !WalkOver(entries, w) && Answered(t, entries, s, w, got) && NextAccess(entries, s, w, got) == None
    ensures w.page < |entries| && got != [] && got[0] == PageVal(t.page(entries[w.page].offset))
  {
    assert got != [];
    assert got[..0] == [];
  }

  lemma AnsweredOn(t: Truth, entries: seq<PageEntry>, s: Stream, w: Walk, got: seq<Val>)
    requires !WalkOver(entries, w) && Answered(t, entries, s, w, got) && got != [] && got[0].PageVal?
    ensures var w' := StepPage(s, entries[w.page], got[0].blocks, w);
      && Answered(t, entries, s, w', got[1..])
      && NextAccess(entries, s, w', got[1..]) == NextAccess(entries, s, w, got)
  {
    hide StepPage;
    var rest := got[1..];
    var w' := StepPage(s, entries[w.page], got[0].blocks, w);
    forall j: nat {:trigger rest[..j]} | j < |rest|
      ensures NextAccess(entries, s, w', rest[..j]).Some?
      ensures rest[j] == t.Of(NextAccess(entries, s, w', rest[..j]).value)
    {
      var more := got[..j + 1];
      assert more[0] == got[0] && more[1..] == rest[..j];
      assert NextAccess(entries, s, w, more) == NextAccess(entries, s, w', more[1..]);
    }
  }

  lemma BlocksAnswered(t: Truth, entries: seq<PageEntry>, s: Stream, w: Walk, got: seq<Val>)
    requires WalkOver(entries, w) && Answered(t, entries, s, w, got) && NextAccess(entries, s, w, got) == None
    ensures BlocksRead(t, Blocks(w.parts), got)
  {
    hide WalkOver;
    AllStored(w.parts);
    var blocks := Blocks(w.parts);
    forall j: nat {:trigger got[j]} | j < |got|
      ensures j < |blocks| && IsAnswer(t, blocks[j], got[j])
    {
      assert |got[..j]| == j;
    }
    var first := got[..Min(|got|, |blocks|)];
    assert |first| == Min(|got|, |blocks|);
  }

  lemma {:induction false} AllStored(parts: seq<Part>)
    ensures forall j {:trigger Blocks(parts)[j]} :: 0 <= j < |Blocks(parts)| ==> Blocks(parts)[j].Stored?
  {
    if parts != [] { AllStored(parts[1..]); }
  }

  /** A walk that is over has found all that blocks describe of the request: the early exit cuts nothing off. */
  lemma OverIsComplete(img: Image, t: Truth, s: Stream, off: nat, total: nat, w: Walk)
    requires Readable(img) && w.page <= |img.Recs(s)| && WalkOver(img.master.Pages(s), w)
    requires FoundUpTo(t, img.Content(s), off, total, w, BoundOf(img, s, w.page))
    ensures Meaning(t, w.parts) == Cut(img.Content(s), off, total)
  {
    hide Readable, Meaning, Cut;
    SameLength(img, s);
    if w.page < |img.Recs(s)| { EntryOf(img, s, w.page); }
    CutAtEnd(img.Content(s), off, total, w.pos - off);
    if w.pos - off != total {
      assert BoundOf(img, s, w.page) == |img.Content(s)|;
    }
  }

  /** Past the end of the content there is nothing to cut. */
  lemma CutAtEnd(content: Bytes, off: nat, total: nat, found: nat)
    ensures found <= total && off + found >= |content| ==> Cut(content, off, found) == Cut(content, off, total)
  {
  }

  // ---------------------------------------------------------------------------------------------
  // The result

  lemma InOrder(img: Image, s: Stream)
    requires Readable(img)
    ensures Covers(img.master.Pages(s), img.Recs(s)) && Chain(img.Recs(s), |img.Content(s)|)
    ensures |img.master.Pages(s)| == |img.Recs(s)|
  {
    assert StreamReads(img, s);
    hide Readable, PageReads, PageDecodes, Chain;
  }

  lemma BoundIs(img: Image, s: Stream, k: nat, end: nat)
    requires Chain(img.Recs(s), end)
    ensures k < |img.Recs(s)| ==> img.Recs(s)[k].bounds != [] && BoundOf(img, s, k) == img.Recs(s)[k].Start()
  {
  }

  lemma LandedBefore(img: Image, s: Stream, off: nat, found: bool, idx: nat)
    requires Readable(img) && img.master.Pages(s) != [] && SearchResult(img.master.Pages(s), off, found, idx)
    ensures LandingPage(found, idx) < |img.Recs(s)| && BoundOf(img, s, LandingPage(found, idx)) <= off
  {
    hide *;
    InOrder(img, s);
    BoundIs(img, s, LandingPage(found, idx), |img.Content(s)|);
    LandingIsRight(img.master.Pages(s), img.Recs(s), |img.Content(s)|, off, found, idx);
  }

  lemma BeginsFound(img: Image, t: Truth, s: Stream, off: nat, n: nat, found: bool, idx: nat)
    requires Readable(img)
    requires img.master.Pages(s) != [] ==> SearchResult(img.master.Pages(s), off, found, idx)
    ensures var page := if img.master.Pages(s) == [] then 0 else LandingPage(found, idx);
      var w := Begin(img.master, s, off, n, page);
      page <= |img.Recs(s)| && FoundUpTo(t, img.Content(s), off, w.remaining, w, BoundOf(img, s, page))
  {
    hide Readable, SearchResult;
    if img.master.Pages(s) == [] { NoContent(img, s); } else { LandedBefore(img, s, off, found, idx); }
  }

  lemma NoContent(img: Image, s: Stream)
    requires Readable(img) && img.master.Pages(s) == []
    ensures img.Content(s) == [] && img.Recs(s) == []
  {
    assert StreamReads(img, s);
  }

  /** A read that has seen the truth answers as the archive's reads are meant to. */
  lemma AnswerIsSpec(
    img: Image, t: Truth, s: Stream, off: nat, n: nat, found: bool, idx: nat, page: nat, got: seq<Val>)
    requires Readable(img) && img.parents == [] && TruthAbout(img, t)
    requires img.master.Pages(s) != [] ==> SearchResult(img.master.Pages(s), off, found, idx)
    requires page == if img.master.Pages(s) == [] then 0 else LandingPage(found, idx)
    requires var w := Begin(img.master, s, off, n, page);
      Answered(t, img.master.Pages(s), s, w, got) && NextAccess(img.master.Pages(s), s, w, got) == None
    ensures Answer(img.master, s, off, n, page, got) == ReadSpec(img, s, off, n)
  {
    hide Readable, TruthAbout, Answered, NextAccess, Assemble, FoundUpTo, SearchResult, ReadSpec, BoundOf;
    var w := Begin(img.master, s, off, n, page);
    BeginsFound(img, t, s, off, n, found, idx);
    AnswersAssemble(img, t, s, off, w.remaining, w, got);
    LoneSpec(img, s, off, n);
  }

  lemma LoneSpec(img: Image, s: Stream, off: nat, n: nat)
    requires img.parents == []
    ensures var actual := if off < img.master.Size(s) then Min(n, img.master.Size(s) - off) else 0;
      var own := Cut(img.Content(s), off, actual);
      ReadSpec(img, s, off, n) == own + Zeros(n - |own|)
  {
    var size := img.master.Size(s);
    if off < size {
      var actual := Min(n, size - off);
      var own := Cut(img.Content(s), off, actual);
      NoFallback(img, s, off + |own|, actual - |own|);
      hide Fallback;
      assert Zeros(actual - |own|) + Zeros(n - actual) == Zeros(n - |own|);
    }
  }

  /** The thread runs this read. */
  ghost predicate RunsRead(th: Thread, master: MasterIndex, s: Stream, off: nat, n: nat, page: nat) {
    th.Done? && forall g: seq<Val> {:trigger th.program(g)} ::
      th.program(g) == NextAccess(master.Pages(s), s, Begin(master, s, off, n, page), g)
  }

  lemma DoneIsAnswered(t: Truth, th: Thread, master: MasterIndex, s: Stream, off: nat, n: nat, page: nat)
    requires RunsRead(th, master, s, off, n, page) && ThreadOk(t, th)
    ensures Answered(t, master.Pages(s), s, Begin(master, s, off, n, page), th.got)
    ensures NextAccess(master.Pages(s), s, Begin(master, s, off, n, page), th.got) == None
  {
    var w := Begin(master, s, off, n, page);
    var got := th.got;
    forall j: nat {:trigger got[..j]} | j < |got|
      ensures NextAccess(master.Pages(s), s, w, got[..j]).Some?
      ensures got[j] == t.Of(NextAccess(master.Pages(s), s, w, got[..j]).value)
    {
      assert AsAlone(t, th.program, got, j);
      assert th.program(got[..j]) == NextAccess(master.Pages(s), s, w, got[..j]);
    }
    hide NextAccess;
    assert th.program(got) == NextAccess(master.Pages(s), s, w, got);
  }

  /**
   Reads under concurrency. Of a readable archive without parents, in every interleaving of reads, prefetch tasks and
   evictions, from empty caches and for any cache sizes: a read that has finished returns exactly what the archive
   denotes, from whichever page the binary search lands on.
   */
  lemma ReadReturnsSpec(
    img: Image, t: Truth, states: seq<State>, k: nat, i: nat, s: Stream, off: nat, n: nat, found: bool, idx: nat,
    page: nat)
    requires Readable(img) && img.parents == [] && TruthAbout(img, t) && IsRun(t, states)
    requires k < |states| && i < |states[k].threads|
    requires img.master.Pages(s) != [] ==> SearchResult(img.master.Pages(s), off, found, idx)
    requires page == if img.master.Pages(s) == [] then 0 else LandingPage(found, idx)
    requires RunsRead(states[k].threads[i], img.master, s, off, n, page)
    ensures Answer(img.master, s, off, n, page, states[k].threads[i].got) == ReadSpec(img, s, off, n)
  {
    assert states[k].threads[i].Done?;
    hide Readable, TruthAbout, SearchResult, RunsRead, IsRun, Answer, ReadSpec, ThreadOk, CachesTrue, Slots, Spawned;
    hide NextAccess, Answered, Begin;
    RunInv(t, states, k);
    assert ThreadOk(t, states[k].threads[i]);
    hide Prefetch.Inv;
    DoneIsAnswered(t, states[k].threads[i], img.master, s, off, n, page);
    AnswerIsSpec(img, t, s, off, n, found, idx, page, states[k].threads[i].got);
  }

  /** On a miss, the truth is what decoding, or checking and unsealing, makes of the file's own bytes. */
  lemma MissReadsFile(img: Image, t: Truth, s: Stream, k: nat, i: nat)
    requires Readable(img) && TruthAbout(img, t) && img.Has(s, k, i)
    ensures k < |img.master.Pages(s)|
    ensures var e := img.master.Pages(s)[k];
      && e.offset + e.length <= |img.file|
      && img.codec.decodePage(img.file[e.offset..e.offset + e.length]) == Some(t.page(e.offset))
    ensures var b, idx := img.BlockAt(s, k, i), img.IndexAt(s, k, i);
      !b.ReadsAsZero() && b.offset != BLOCK_OFFSET_PARENT ==> UnsealsTo(img, b, idx, t.block((s, idx)))
  {
    SameLength(img, s);
    PageFacts(img, s, k);
    PageThere(img, t, s, k);
    assert PageDecodes(img, img.master.Pages(s)[k], img.Recs(s)[k]) by { assert StreamReads(img, s); }
    assert t.block((s, img.IndexAt(s, k, i))) == img.DataAt(s, k, i);
    hide Readable, TruthAbout, UnsealsTo, Image.DataAt;
    assert BlockReads(img, img.BlockAt(s, k, i), img.IndexAt(s, k, i), img.DataAt(s, k, i));
  }

  /** Whatever is cached under the index of a block is that block's plaintext, and under a page's place that page. */
  lemma CachedIsStored(img: Image, t: Truth, states: seq<State>, n: nat, s: Stream, k: nat, i: nat)
    requires Readable(img) && TruthAbout(img, t) && IsRun(t, states) && n < |states| && img.Has(s, k, i)
    ensures var v := states[n].blocks.Lookup((s, img.IndexAt(s, k, i))); v == None || v == Some(img.DataAt(s, k, i))
    ensures k < |img.master.Pages(s)|
    ensures var v := states[n].pages.Lookup(img.master.Pages(s)[k].offset);
      v == None || v == Some(img.Recs(s)[k].blocks)
  {
    SameLength(img, s);
    RunInv(t, states, n);
    PageThere(img, t, s, k);
    assert t.block((s, img.IndexAt(s, k, i))) == img.DataAt(s, k, i);
    hide Readable, TruthAbout, IsRun, Image.DataAt, Sharded.Lookup, Sharded.Valid, Slots, Spawned, ThreadOk;
  }
}
