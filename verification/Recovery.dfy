// What comes back of what was written: delegated chunks that no parent holds read as zeros, everything else as it was.
module Recovery {
  import opened Common
  import opened Format
  import opened Index
  import opened Image
  import opened WriterModel
  import opened WriterRuns

  // ---------------------------------------------------------------------------------------------
  // Chunk by chunk: a run of the writer as its reader will see it

  /** A chunk that is offered to the parent index: delegated if listed there, and then lost unless a parent holds it. */
  ghost function Back(cfg: Config, parents: seq<Image>, d: Bytes): (r: Bytes)
    ensures |r| == |d|
  {
    if InParent(cfg, cfg.codec.hash(d)) && !HeldByAny(parents, cfg.codec.hash(d)) then Zeros(|d|) else d
  }

  /** The same call with the chunk that will be read back. */
  ghost function BackOp(cfg: Config, parents: seq<Image>, op: Op): Op {
    match op
    case Data(d) => Data(Back(cfg, parents, d))
    case Precompressed(d) => Precompressed(Back(cfg, parents, d))
    case Delegate(d) => Delegate(if HeldByAny(parents, cfg.codec.hash(d)) then d else Zeros(|d|))
    case _ => op
  }

  ghost function BackOps(cfg: Config, parents: seq<Image>, ops: seq<Op>): (r: seq<Op>)
    ensures |r| == |ops| && forall i :: 0 <= i < |ops| ==> r[i] == BackOp(cfg, parents, ops[i])
  {
    seq(|ops|, i requires 0 <= i < |ops| => BackOp(cfg, parents, ops[i]))
  }

  /** The streams of a run as they read back over these parents. */
  ghost function Recovered(cfg: Config, parents: seq<Image>, ops: seq<Op>): Ledger {
    NoteAll(EMPTY_LEDGER, BackOps(cfg, parents, ops))
  }

  // ---------------------------------------------------------------------------------------------
  // Block by block

  ghost function BlockBack(parents: seq<Image>, b: BlockInfo, d: Bytes): (r: Bytes)
    ensures |r| == |d|
  {
    if b.offset == BLOCK_OFFSET_PARENT && !HeldByAny(parents, b.hash) then Zeros(|d|) else d
  }

  /** Of page `p`, content `c` was written and `back` is what reads back. */
  ghost predicate PageBack(parents: seq<Image>, p: PageRec, c: Bytes, back: Bytes) {
    && p.Shape() && p.End() <= |c| == |back|
    && forall i {:trigger p.blocks[i]} :: 0 <= i < |p.blocks| ==>
      Piece(back, p.bounds[i], p.bounds[i + 1]) ==
      BlockBack(parents, p.blocks[i], Piece(c, p.bounds[i], p.bounds[i + 1]))
  }

  /** Parents fit to be read through: readable, without empty pages, and honest about what they store. */
  ghost predicate SoundParents(parents: seq<Image>, codec: Codec) {
    forall p :: p in parents ==> Readable(p) && Dense(p) && Honest(p, codec)
  }

  lemma NoParents(codec: Codec)
    ensures SoundParents([], codec)
  {
  }

  /**
   Exactly when a reference comes back as the chunk that was delegated: some parent still stores a block with its
   hash, whichever copy that is, or the chunk is all zeros, which is also what an unresolved reference reads as.
   */
  lemma ResolvesIff(codec: Codec, parents: seq<Image>, d: Bytes)
    requires codec.Lawful() && d in codec.universe && forall p :: p in parents ==> Honest(p, codec)
    ensures ResolvesTo(parents, codec.hash(d), d) <==> HeldByAny(parents, codec.hash(d)) || IsZeroChunk(d)
  {
    var h := codec.hash(d);
    forall p: nat, s, k, i | FirstHolder(parents, h, p) && parents[p].Stores(s, k, i, h)
      ensures parents[p].DataAt(s, k, i) == d
    {
      assert parents[p] in parents && parents[p].Has(s, k, i);
    }
    hide Codec.Lawful;
    if HeldByAny(parents, h) {
      var p :| 0 <= p < |parents| && parents[p].Holds(h);
      FirstHolderExists(parents, h, p);
    }
  }

  lemma UnheldResolvesToZeros(parents: seq<Image>, h: Hash, n: nat)
    requires !HeldByAny(parents, h)
    ensures ResolvesTo(parents, h, Zeros(n))
  {
    hide Image.Holds;
  }

  ghost predicate RecsBack(parents: seq<Image>, recs: seq<PageRec>, c: Bytes, back: Bytes) {
    |c| == |back| && forall k {:trigger recs[k]} :: 0 <= k < |recs| ==> PageBack(parents, recs[k], c, back)
  }

  /** Ledger `l` holds what reads back of the writer's state. */
  ghost predicate Tracks(parents: seq<Image>, st: WriterState, l: Ledger) {
    && l.current == st.Current()
    && RecsBack(parents, st.history.mainRecs, st.history.mainContent, l.main)
    && RecsBack(parents, st.history.auxRecs, st.history.auxContent, l.aux)
    && (st.streamActive ==> PageBack(parents, st.OpenPage(), st.history.Content(st.Current()), l.Content(st.Current())))
  }

  /** The open page ends where its stream ends. */
  predicate PageEnds(st: WriterState) {
    st.OpenPage().bounds != [] && st.OpenPage().End() == st.currentLogicalPos == |st.history.Content(st.Current())|
  }

  lemma PageBackMore(parents: seq<Image>, p: PageRec, c: Bytes, back: Bytes, d: Bytes, e: Bytes)
    requires PageBack(parents, p, c, back) && |d| == |e|
    ensures PageBack(parents, p, c + d, back + e)
  {
    hide BlockBack;
    forall i {:trigger p.blocks[i]} | 0 <= i < |p.blocks|
      ensures Piece(back + e, p.bounds[i], p.bounds[i + 1]) ==
        BlockBack(parents, p.blocks[i], Piece(c + d, p.bounds[i], p.bounds[i + 1]))
    {
      p.BoundsSorted(i, i + 1);
      p.BoundsSorted(i + 1, |p.blocks|);
      assert Piece(c + d, p.bounds[i], p.bounds[i + 1]) == Piece(c, p.bounds[i], p.bounds[i + 1]);
      assert Piece(back + e, p.bounds[i], p.bounds[i + 1]) == Piece(back, p.bounds[i], p.bounds[i + 1]);
    }
  }

  lemma RecsBackMore(parents: seq<Image>, recs: seq<PageRec>, c: Bytes, back: Bytes, d: Bytes, e: Bytes)
    requires RecsBack(parents, recs, c, back) && |d| == |e|
    ensures RecsBack(parents, recs, c + d, back + e)
  {
    hide PageBack;
    forall k {:trigger recs[k]} | 0 <= k < |recs| ensures PageBack(parents, recs[k], c + d, back + e) {
      PageBackMore(parents, recs[k], c, back, d, e);
    }
  }

  lemma PageBackPush(parents: seq<Image>, p: PageRec, c: Bytes, back: Bytes, b: BlockInfo, d: Bytes)
    requires PageBack(parents, p, c, back) && p.End() == |c| && b.logicalLen == |d|
    ensures PageBack(parents, PageRec(p.startBlock, p.blocks + [b], p.bounds + [p.End() + b.logicalLen]),
                     c + d, back + BlockBack(parents, b, d))
  {
    var e := BlockBack(parents, b, d);
    PageBackMore(parents, p, c, back, d, e);
    hide BlockBack;
    var q := PageRec(p.startBlock, p.blocks + [b], p.bounds + [p.End() + b.logicalLen]);
    forall i {:trigger q.blocks[i]} | 0 <= i < |q.blocks|
      ensures q.bounds[i + 1] == q.bounds[i] + q.blocks[i].logicalLen
      ensures Piece(back + e, q.bounds[i], q.bounds[i + 1]) ==
        BlockBack(parents, q.blocks[i], Piece(c + d, q.bounds[i], q.bounds[i + 1]))
    {
      if i < |p.blocks| {
        assert q.blocks[i] == p.blocks[i] && q.bounds[i] == p.bounds[i] && q.bounds[i + 1] == p.bounds[i + 1];
      } else {
        assert Piece(c + d, |c|, |c| + |d|) == d && Piece(back + e, |c|, |c| + |d|) == e;
      }
    }
  }

  lemma PushTracks(parents: seq<Image>, st: WriterState, b: BlockInfo, d: Bytes, l: Ledger)
    requires Tracks(parents, st, l) && st.streamActive && b.logicalLen == |d| && PageEnds(st)
    ensures Tracks(parents, Push(st, b, d), l.Receive(BlockBack(parents, b, d)))
  {
    hide PageBack, RecsBack, BlockBack;
    var c, back, e := st.history.Content(st.Current()), l.Content(st.Current()), BlockBack(parents, b, d);
    PageBackPush(parents, st.OpenPage(), c, back, b, d);
    RecsBackMore(parents, st.history.Recs(st.Current()), c, back, d, e);
  }

  lemma FlushTracks(cfg: Config, parents: seq<Image>, st: WriterState, l: Ledger)
    requires Tracks(parents, st, l) && st.streamActive && PageEnds(st)
    ensures Tracks(parents, FlushPage(cfg, st), l)
  {
    hide BlockBack;
  }

  /** What the writer's invariant says about the open page. */
  lemma OpenPageEnds(cfg: Config, st: WriterState)
    requires Ready(cfg, st) && st.streamActive
    ensures PageEnds(st)
  {
    hide StreamOk, DedupSound, BlockWritten;
  }

  lemma PushBlockTracks(cfg: Config, parents: seq<Image>, st: WriterState, b: BlockInfo, d: Bytes, l: Ledger)
    requires Tracks(parents, st, l) && st.streamActive && b.logicalLen == |d| && PageEnds(st)
    ensures Tracks(parents, PushBlock(cfg, st, b, d), l.Receive(BlockBack(parents, b, d)))
  {
    hide Tracks, FlushPage, BlockBack;
    PushTracks(parents, st, b, d, l);
    if |Push(st, b, d).page| >= ENTRIES_PER_PAGE {
      FlushTracks(cfg, parents, Push(st, b, d), l.Receive(BlockBack(parents, b, d)));
    }
  }

  /** Storing a block leaves the streams alone, and its descriptor is no reference. */
  lemma BlockTracks(cfg: Config, parents: seq<Image>, st: WriterState, d: Bytes, l: Ledger)
    requires cfg.codec.Lawful() && Ready(cfg, st) && Storable(cfg, st, d) && Tracks(parents, st, l)
    ensures var (t, b) := WriteBlock(cfg, st, d);
      && Tracks(parents, t, l) && t.streamActive == st.streamActive
      && (PageEnds(st) ==> PageEnds(t))
      && b.offset != BLOCK_OFFSET_PARENT && b.logicalLen == |d|
  {
    hide Ready, Codec.Lawful, RecsBack, PageBack, LocalWritten;
    StoredElsewhere(cfg, st, d);
  }

  lemma StoredElsewhere(cfg: Config, st: WriterState, d: Bytes)
    requires cfg.codec.Lawful() && Ready(cfg, st) && Storable(cfg, st, d)
    ensures WriteBlock(cfg, st, d).1.offset != BLOCK_OFFSET_PARENT && WriteBlock(cfg, st, d).1.logicalLen == |d|
  {
    hide Ready, Codec.Lawful, WriteBlock, StoredAt, Codec.Seal;
    if cfg.encrypted { EncryptedBlockSound(cfg, st, d); } else { PlainBlockSound(cfg, st, d); }
  }

  /** The three ways of a data block, and what reads back of each. */
  lemma DataBlockCases(cfg: Config, parents: seq<Image>, st: WriterState, d: Bytes)
    requires |d| < U32_LIMIT
    ensures var h, back := cfg.codec.hash(d), Back(cfg, parents, d);
      if IsZeroChunk(d) then
        && WriteDataBlock(cfg, st, d) == PushBlock(cfg, st, ZeroBlock(|d|), d)
        && BlockBack(parents, ZeroBlock(|d|), d) == back
      else if InParent(cfg, h) then
        && WriteDataBlock(cfg, st, d) == PushBlock(cfg, st, ParentBlock(h, |d|), d)
        && BlockBack(parents, ParentBlock(h, |d|), d) == back
      else
        var (t, b) := WriteBlock(cfg, st, d);
        && WriteDataBlock(cfg, st, d) == PushBlock(cfg, t, b, d)
        && (b.offset != BLOCK_OFFSET_PARENT ==> BlockBack(parents, b, d) == back)
  {
    hide PushBlock, WriteBlock, HeldByAny;
    if IsZeroChunk(d) { assert Zeros(|d|) == d; }
  }

  lemma DataTracks(cfg: Config, parents: seq<Image>, st: WriterState, d: Bytes, l: Ledger)
    requires cfg.codec.Lawful() && Ready(cfg, st) && st.streamActive && Storable(cfg, st, d) && Tracks(parents, st, l)
    ensures Tracks(parents, WriteDataBlock(cfg, st, d), l.Receive(Back(cfg, parents, d)))
  {
    hide *;
    StorableSize(cfg, st, d);
    OpenPageEnds(cfg, st);
    DataBlockCases(cfg, parents, st, d);
    var h := cfg.codec.hash(d);
    if IsZeroChunk(d) {
      PushBlockTracks(cfg, parents, st, ZeroBlock(|d|), d, l);
    } else if InParent(cfg, h) {
      PushBlockTracks(cfg, parents, st, ParentBlock(h, |d|), d, l);
    } else {
      var (t, b) := WriteBlock(cfg, st, d);
      BlockTracks(cfg, parents, st, d, l);
      PushBlockTracks(cfg, parents, t, b, d, l);
    }
  }

  lemma StorableSize(cfg: Config, st: WriterState, d: Bytes)
    requires Storable(cfg, st, d)
    ensures |d| < U32_LIMIT && ZeroBlock(|d|).logicalLen == |d| && ParentBlock(cfg.codec.hash(d), |d|).logicalLen == |d|
  {
  }

  lemma PrecompressedCases(cfg: Config, parents: seq<Image>, st: WriterState, d: Bytes)
    ensures var h, raw := cfg.codec.hash(d), cfg.codec.compress(d);
      var w, back := WritePrecompressed(cfg, st, raw, h, |d|, d), Back(cfg, parents, d);
      if InParent(cfg, h) then
        w == PushBlock(cfg, st, ParentBlock(h, |d|), d) && BlockBack(parents, ParentBlock(h, |d|), d) == back
      else
        var (t, off) := StoreOnce(st, h, raw, d);
        var b := BlockInfo(off, AsU32(|raw|), |d|, cfg.codec.crc(raw), h);
        && w == PushBlock(cfg, t, b, d) && b.logicalLen == |d|
        && (off != BLOCK_OFFSET_PARENT ==> BlockBack(parents, b, d) == back)
  {
    hide PushBlock, StoreOnce, HeldByAny;
  }

  lemma StoreTracks(parents: seq<Image>, st: WriterState, h: Hash, raw: Bytes, d: Bytes, l: Ledger)
    requires Tracks(parents, st, l) && PageEnds(st)
    ensures var t := StoreOnce(st, h, raw, d).0;
      Tracks(parents, t, l) && PageEnds(t) && t.streamActive == st.streamActive
  {
    hide RecsBack, PageBack;
  }

  lemma PrecompressedTracks(cfg: Config, parents: seq<Image>, st: WriterState, d: Bytes, l: Ledger)
    requires cfg.codec.Lawful() && Ready(cfg, st) && st.streamActive && Storable(cfg, st, d) && !cfg.encrypted
    requires Tracks(parents, st, l)
    ensures Tracks(parents, WritePrecompressed(cfg, st, cfg.codec.compress(d), cfg.codec.hash(d), |d|, d),
                   l.Receive(Back(cfg, parents, d)))
  {
    hide *;
    OpenPageEnds(cfg, st);
    StorableSize(cfg, st, d);
    PrecompressedCases(cfg, parents, st, d);
    var h, raw := cfg.codec.hash(d), cfg.codec.compress(d);
    if InParent(cfg, h) {
      PushBlockTracks(cfg, parents, st, ParentBlock(h, |d|), d, l);
    } else {
      StoreOnceSound(cfg, st, d);
      StoreTracks(parents, st, h, raw, d, l);
      var (t, off) := StoreOnce(st, h, raw, d);
      PushBlockTracks(cfg, parents, t, BlockInfo(off, AsU32(|raw|), |d|, cfg.codec.crc(raw), h), d, l);
    }
  }

  lemma BeginTracks(cfg: Config, parents: seq<Image>, st: WriterState, isMain: bool, total: nat, l: Ledger)
    requires Tracks(parents, st, l) && Settled(st, StreamOf(isMain))
    ensures Tracks(parents, BeginStream(cfg, st, isMain, total), Note(l, Begin(isMain, total)))
  {
    hide BlockBack;
  }

  /** What one call makes of the state, and the ledger of what comes back of it. */
  lemma ApplyCases(cfg: Config, parents: seq<Image>, st: WriterState, op: Op, l: Ledger)
    ensures var t, m := Apply(cfg, st, op), Note(l, BackOp(cfg, parents, op));
      match op
      case Dictionary(dict) => t == WriteDictionary(st, dict) && m == l
      case Begin(isMain, total) => t == BeginStream(cfg, st, isMain, total) && m == Note(l, op)
      case Data(d) => t == WriteDataBlock(cfg, st, d) && m == l.Receive(Back(cfg, parents, d))
      case Precompressed(d) =>
        && t == WritePrecompressed(cfg, st, cfg.codec.compress(d), cfg.codec.hash(d), |d|, d)
        && m == l.Receive(Back(cfg, parents, d))
      case Delegate(d) =>
        var b := ParentBlock(cfg.codec.hash(d), |d|);
        t == PushBlock(cfg, st, b, d) && m == l.Receive(BlockBack(parents, b, d)) && b.logicalLen == |d|
      case Flush => t == FlushStream(cfg, st) && m == l
      case End => t == EndStream(cfg, st) && m == l
  {
    hide HeldByAny, PushBlock, WriteDataBlock, WritePrecompressed, BeginStream, FlushStream, EndStream, Back;
  }

  lemma DictionaryTracks(parents: seq<Image>, st: WriterState, dict: Bytes, l: Ledger)
    requires Tracks(parents, st, l)
    ensures Tracks(parents, WriteDictionary(st, dict), l)
  {
    hide RecsBack, PageBack;
  }

  lemma ApplyTracks(cfg: Config, parents: seq<Image>, st: WriterState, op: Op, l: Ledger)
    requires cfg.codec.Lawful() && Ready(cfg, st) && Permitted(cfg, st, op) && Tracks(parents, st, l)
    ensures Tracks(parents, Apply(cfg, st, op), Note(l, BackOp(cfg, parents, op)))
  {
    hide Ready, Codec.Lawful, Tracks, Storable, Apply, Note, BackOp, Back, BlockBack, PageEnds, FlushPage, PushBlock,
      WriteDataBlock, WritePrecompressed, WriteDictionary, BeginStream, EndStream, Settled;
    ApplyCases(cfg, parents, st, op, l);
    if st.streamActive { OpenPageEnds(cfg, st); }
    match op
    case Dictionary(dict) => DictionaryTracks(parents, st, dict, l);
    case Begin(isMain, total) => BeginTracks(cfg, parents, st, isMain, total, l);
    case Data(d) => DataTracks(cfg, parents, st, d, l);
    case Precompressed(d) => PrecompressedTracks(cfg, parents, st, d, l);
    case Delegate(d) => PushBlockTracks(cfg, parents, st, ParentBlock(cfg.codec.hash(d), |d|), d, l);
    case Flush => if st.streamActive { FlushTracks(cfg, parents, st, l); }
    case End =>
      if !st.streamActive { IdlePage(cfg, st); }
      EndTracks(cfg, parents, st, l);
  }

  lemma IdlePage(cfg: Config, st: WriterState)
    requires Ready(cfg, st) && !st.streamActive
    ensures st.page == []
  {
    hide StreamOk, DedupSound, PageWritten;
  }

  lemma EndTracks(cfg: Config, parents: seq<Image>, st: WriterState, l: Ledger)
    requires Tracks(parents, st, l) && (st.streamActive ==> PageEnds(st)) && (!st.streamActive ==> st.page == [])
    ensures Tracks(parents, EndStream(cfg, st), l)
  {
    hide RecsBack, PageBack;
    if st.page != [] {
      FlushTracks(cfg, parents, st, l);
      hide FlushPage;
    }
  }

  lemma {:induction false} RunTracks(cfg: Config, parents: seq<Image>, st: WriterState, ops: seq<Op>, l: Ledger)
    requires cfg.codec.Lawful() && Ready(cfg, st) && RunPermitted(cfg, st, ops) && Tracks(parents, st, l)
    ensures Tracks(parents, Run(cfg, st, ops), NoteAll(l, BackOps(cfg, parents, ops)))
    decreases |ops|
  {
    hide Codec.Lawful, Ready, Permitted, Apply, Tracks, Note, BackOp;
    if ops != [] {
      ApplyReady(cfg, st, ops[0]);
      ApplyTracks(cfg, parents, st, ops[0], l);
      assert BackOps(cfg, parents, ops)[1..] == BackOps(cfg, parents, ops[1..]);
      RunTracks(cfg, parents, Apply(cfg, st, ops[0]), ops[1..], Note(l, BackOp(cfg, parents, ops[0])));
    }
  }

  /** After a run is closed, the ledger of what comes back describes both streams, block by block. */
  lemma ClosedTracks(cfg: Config, parents: seq<Image>, ops: seq<Op>)
    requires cfg.codec.Lawful() && RunPermitted(cfg, Initial(), ops)
    ensures var c, l := Close(cfg, Run(cfg, Initial(), ops)), Recovered(cfg, parents, ops);
      && RecsBack(parents, c.history.mainRecs, c.history.mainContent, l.main)
      && RecsBack(parents, c.history.auxRecs, c.history.auxContent, l.aux)
  {
    hide Codec.Lawful, Ready, Run, RecsBack, PageBack;
    InitialReady(cfg);
    InitialTracks(parents);
    RunReady(cfg, Initial(), ops);
    RunTracks(cfg, parents, Initial(), ops, EMPTY_LEDGER);
    CloseTracks(cfg, parents, Run(cfg, Initial(), ops), Recovered(cfg, parents, ops));
  }

  lemma InitialTracks(parents: seq<Image>)
    ensures Tracks(parents, Initial(), EMPTY_LEDGER)
  {
  }

  lemma CloseTracks(cfg: Config, parents: seq<Image>, st: WriterState, l: Ledger)
    requires Ready(cfg, st) && Tracks(parents, st, l)
    ensures Tracks(parents, Close(cfg, st), l)
  {
    if st.streamActive {
      OpenPageEnds(cfg, st);
      EndTracks(cfg, parents, st, l);
    }
    hide Ready, Tracks, EndStream;
  }

  // ---------------------------------------------------------------------------------------------
  // When everything comes back

  /** The chunk of a call that is left to the parents. */
  predicate Leaves(cfg: Config, op: Op) {
    match op
    case Data(d) => !IsZeroChunk(d) && InParent(cfg, cfg.codec.hash(d))
    case Precompressed(d) => InParent(cfg, cfg.codec.hash(d))
    case Delegate(_) => true
    case _ => false
  }

  function Chunk(op: Op): Bytes {
    match op
    case Data(d) => d
    case Precompressed(d) => d
    case Delegate(d) => d
    case _ => []
  }

  /** If the chunk of this call is left to the parents and not all zeros, one of them holds it. */
  ghost predicate Held(cfg: Config, parents: seq<Image>, op: Op) {
    Leaves(cfg, op) && !IsZeroChunk(Chunk(op)) ==> HeldByAny(parents, cfg.codec.hash(Chunk(op)))
  }

  /** Some parent holds every delegated chunk that is not all zeros. */
  ghost predicate AllHeld(cfg: Config, parents: seq<Image>, ops: seq<Op>) {
    forall op {:trigger op in ops} :: op in ops ==> Held(cfg, parents, op)
  }

  lemma BackOpIff(cfg: Config, parents: seq<Image>, op: Op)
    ensures BackOp(cfg, parents, op) == op <==> Held(cfg, parents, op)
  {
    hide HeldByAny;
    var d := Chunk(op);
    assert IsZeroChunk(d) <==> Zeros(|d|) == d;
  }

  lemma {:induction false} NoteAllExtends(l: Ledger, ops: seq<Op>)
    ensures l.main <= NoteAll(l, ops).main && l.aux <= NoteAll(l, ops).aux
    decreases |ops|
  {
    if ops != [] {
      NoteAllExtends(Note(l, ops[0]), ops[1..]);
      hide NoteAll;
    }
  }

  /** One call: the same chunk, or one of the same length that makes the streams differ for good. */
  lemma NoteDiffers(cfg: Config, parents: seq<Image>, l: Ledger, op: Op)
    ensures var a, b := Note(l, op), Note(l, BackOp(cfg, parents, op));
      && |a.main| == |b.main| && |a.aux| == |b.aux|
      && (BackOp(cfg, parents, op) != op ==> a.main != b.main || a.aux != b.aux)
      && (BackOp(cfg, parents, op) == op ==> a == b)
  {
    var d, e := Chunk(op), Chunk(BackOp(cfg, parents, op));
    assert l.main + d == l.main + e ==> (l.main + d)[|l.main|..] == (l.main + e)[|l.main|..];
    assert l.aux + d == l.aux + e ==> (l.aux + d)[|l.aux|..] == (l.aux + e)[|l.aux|..];
    assert (l.main + d)[|l.main|..] == d && (l.main + e)[|l.main|..] == e;
    assert (l.aux + d)[|l.aux|..] == d && (l.aux + e)[|l.aux|..] == e;
  }

  lemma AllHeldCons(cfg: Config, parents: seq<Image>, ops: seq<Op>)
    requires ops != []
    ensures AllHeld(cfg, parents, ops) <==> Held(cfg, parents, ops[0]) && AllHeld(cfg, parents, ops[1..])
  {
    hide Held;
    assert forall op {:trigger op in ops} {:trigger op in ops[1..]} :: op in ops <==> op == ops[0] || op in ops[1..];
    assert ops[0] in ops;
  }

  lemma {:induction false} RecoveredFromIff(cfg: Config, parents: seq<Image>, l: Ledger, ops: seq<Op>)
    ensures var a, b := NoteAll(l, ops), NoteAll(l, BackOps(cfg, parents, ops));
      a.main == b.main && a.aux == b.aux <==> AllHeld(cfg, parents, ops)
    decreases |ops|
  {
    if ops != [] {
      var op, rest := ops[0], ops[1..];
      var back := BackOps(cfg, parents, ops);
      assert back[1..] == BackOps(cfg, parents, rest) && back[0] == BackOp(cfg, parents, op);
      hide AllHeld, BackOp, Note, Held;
      AllHeldCons(cfg, parents, ops);
      BackOpIff(cfg, parents, op);
      NoteDiffers(cfg, parents, l, op);
      if back[0] == op {
        RecoveredFromIff(cfg, parents, Note(l, op), rest);
      } else {
        NoteAllExtends(Note(l, op), rest);
        NoteAllExtends(Note(l, back[0]), back[1..]);
      }
    } else {
      assert BackOps(cfg, parents, ops) == ops;
    }
  }

  /** Both streams come back as they were written if and only if each delegated, non-zero chunk is held by a parent. */
  lemma RecoveredIff(cfg: Config, parents: seq<Image>, ops: seq<Op>)
    ensures var written, back := NoteAll(EMPTY_LEDGER, ops), Recovered(cfg, parents, ops);
      written.main == back.main && written.aux == back.aux <==> AllHeld(cfg, parents, ops)
  {
    RecoveredFromIff(cfg, parents, EMPTY_LEDGER, ops);
  }

  /** What comes back has the length of what was written, and the declared sizes are the same. */
  lemma {:induction false} RecoveredSizes(cfg: Config, parents: seq<Image>, l: Ledger, m: Ledger, ops: seq<Op>)
    requires |l.main| == |m.main| && |l.aux| == |m.aux| && l.current == m.current
    requires l.mainDeclared == m.mainDeclared && l.auxDeclared == m.auxDeclared
    ensures var a, b := NoteAll(l, ops), NoteAll(m, BackOps(cfg, parents, ops));
      && |a.main| == |b.main| && |a.aux| == |b.aux|
      && a.mainDeclared == b.mainDeclared && a.auxDeclared == b.auxDeclared
    decreases |ops|
  {
    if ops != [] {
      var back := BackOps(cfg, parents, ops);
      assert back[1..] == BackOps(cfg, parents, ops[1..]) && back[0] == BackOp(cfg, parents, ops[0]);
      hide HeldByAny;
      RecoveredSizes(cfg, parents, Note(l, ops[0]), Note(m, back[0]), ops[1..]);
      hide NoteAll;
    }
  }
}
