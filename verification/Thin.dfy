// Thin archives: the parent index the writer consults, and when delegated blocks come back unharmed.
module Thin {
  import opened Common
  import opened Format
  import opened Index
  import opened Image
  import opened WriterModel
  import opened WriterRuns
  import opened Recovery
  import opened RoundTrip
  import Reader

  // ---------------------------------------------------------------------------------------------
  // The parent index (crates/ops/src/parent_index.rs)

  /** Some main-stream block of `img` offers hash `h`. */
  ghost predicate OfferedBy(img: Image, h: Hash) {
    exists k: nat, i: nat {:trigger img.Has(Main, k, i)} ::
      img.Has(Main, k, i) && img.BlockAt(Main, k, i).IsOffered() && img.BlockAt(Main, k, i).hash == h
  }

  ghost predicate OfferedByAny(parents: seq<Image>, h: Hash) {
    exists p {:trigger parents[p]} :: 0 <= p < |parents| && OfferedBy(parents[p], h)
  }

  /** The index that these parents give rise to. */
  ghost predicate IndexOf(parents: seq<Image>, hashes: set<Hash>) {
    forall h :: h in hashes <==> OfferedByAny(parents, h)
  }

  lemma OfferedIsOffered(a: Archive, h: Hash)
    ensures a.OfferedBefore(h, Main, |a.img.Recs(Main)|, 0) <==> OfferedBy(a.img, h)
  {
    if OfferedBy(a.img, h) {
      var k: nat, i: nat :| a.img.Has(Main, k, i) && a.img.BlockAt(Main, k, i).IsOffered() &&
        a.img.BlockAt(Main, k, i).hash == h;
      assert a.Before(k, i, |a.img.Recs(Main)|, 0);
    }
  }

  lemma OfferMore(parents: seq<Image>, n: nat, h: Hash)
    requires n < |parents|
    ensures OfferedByAny(parents[..n + 1], h) <==> OfferedByAny(parents[..n], h) || OfferedBy(parents[n], h)
  {
    hide OfferedBy;
    var more := parents[..n + 1];
    if OfferedByAny(parents[..n], h) {
      var p :| 0 <= p < n && OfferedBy(parents[..n][p], h);
      assert more[p] == parents[p];
    }
    if OfferedBy(parents[n], h) { assert more[n] == parents[n]; }
    if OfferedByAny(more, h) {
      var p :| 0 <= p < n + 1 && OfferedBy(more[p], h);
      if p < n { assert parents[..n][p] == more[p]; }
    }
  }

  /** Every hash that some main-stream block of a parent offers, and no other. */
  method NewParentIndex(parents: seq<Archive>) returns (r: Result<set<Hash>>)
    requires forall p: Archive {:trigger p in parents} :: p in parents ==> p.Valid()
    modifies Reader.Archive.Closure(parents)
    ensures forall p: Archive {:trigger p in parents} :: p in parents ==> p.Valid()
    ensures r.Ok? && IndexOf(Images(parents), r.value)
  {
    hide Reader.Archive.Sound, OfferedBy;
    var hashes: set<Hash> := {};
    var n := 0;
    ghost var images := Images(parents);
    while n < |parents|
      invariant n <= |parents|
      invariant forall p: Archive {:trigger p in parents} :: p in parents ==> p.Valid()
      invariant IndexOf(images[..n], hashes)
    {
      var parent := parents[n];
      assert parent in parents && parent in parent.repr && parents[n].repr <= Reader.Archive.Closure(parents);
      var listed := parent.IterBlockHashes(Main);
      match listed {
        case Err(e) => return Err(e);
        case Ok(hs) =>
          forall h ensures h in hashes + Elements(hs) <==> OfferedByAny(images[..n + 1], h) {
            OfferedIsOffered(parent, h);
            OfferMore(images, n, h);
          }
          hashes := hashes + Elements(hs);
      }
      n := n + 1;
    }
    assert images[..n] == images;
    return Ok(hashes);
  }

  function Elements(s: seq<Hash>): (r: set<Hash>)
    ensures forall h :: h in r <==> h in s
  {
    set h | h in s
  }

  // ---------------------------------------------------------------------------------------------
  // When what is delegated is held

  ghost predicate SelfContained(img: Image) {
    forall k, i {:trigger img.Has(Main, k, i)} ::
      img.Has(Main, k, i) ==> img.BlockAt(Main, k, i).offset != BLOCK_OFFSET_PARENT
  }

  /** References written by hand, too, are to chunks that the index lists. */
  predicate OnlyListed(cfg: Config, op: Op) { op.Delegate? ==> InParent(cfg, cfg.codec.hash(op.d)) }

  /** References to self-contained parents all resolve: what the parent index offers, the hash index lists. */
  lemma SelfContainedHold(cfg: Config, parents: seq<Image>, ops: seq<Op>)
    requires cfg.parentIndex.Some? && IndexOf(parents, cfg.parentIndex.value)
    requires forall p :: p in parents ==> SelfContained(p)
    requires forall op :: op in ops ==> OnlyListed(cfg, op)
    ensures AllHeld(cfg, parents, ops)
  {
    hide SelfContained, OfferedBy;
    forall op {:trigger op in ops} | op in ops ensures Held(cfg, parents, op) {
      assert OnlyListed(cfg, op);
      if Leaves(cfg, op) {
        var h := cfg.codec.hash(Chunk(op));
        var p :| 0 <= p < |parents| && OfferedBy(parents[p], h);
        assert parents[p] in parents;
        OfferedIsHeld(parents[p], h);
      }
    }
  }

  lemma OfferedIsHeld(img: Image, h: Hash)
    requires SelfContained(img) && OfferedBy(img, h)
    ensures img.Holds(h)
  {
    var k: nat, i: nat :|
      img.Has(Main, k, i) && img.BlockAt(Main, k, i).IsOffered() && img.BlockAt(Main, k, i).hash == h;
    assert img.Stores(Main, k, i, h);
  }

  // ---------------------------------------------------------------------------------------------
  // What the writer makes is fit to be a parent

  /** Blocks with bytes; in a plain archive, none of them a reference. */
  predicate Proper(blocks: seq<BlockInfo>, plain: bool) {
    forall i {:trigger blocks[i]} :: 0 <= i < |blocks| ==>
      blocks[i].logicalLen > 0 && (plain ==> blocks[i].offset != BLOCK_OFFSET_PARENT)
  }

  predicate AllProper(recs: seq<PageRec>, plain: bool) {
    forall k {:trigger recs[k]} :: 0 <= k < |recs| ==> Proper(recs[k].blocks, plain)
  }

  predicate Solid(st: WriterState, plain: bool) {
    Proper(st.page, plain) && AllProper(st.history.mainRecs, plain) && AllProper(st.history.auxRecs, plain)
  }

  predicate NoEmptyBlock(op: Op) {
    match op
    case Data(d) => 0 < |d|
    case Precompressed(d) => 0 < |d|
    case Delegate(d) => 0 < |d|
    case _ => true
  }

  /** A call whose block has bytes and, for a plain archive, is not left to the parents. */
  predicate Fitting(cfg: Config, op: Op, plain: bool) { NoEmptyBlock(op) && (plain ==> !Leaves(cfg, op)) }

  lemma FlushSolid(cfg: Config, st: WriterState, plain: bool)
    requires Solid(st, plain)
    ensures Solid(FlushPage(cfg, st), plain)
  {
  }

  lemma PushSolid(cfg: Config, st: WriterState, b: BlockInfo, d: Bytes, plain: bool)
    requires Solid(st, plain) && b.logicalLen > 0 && (plain ==> b.offset != BLOCK_OFFSET_PARENT)
    ensures Solid(PushBlock(cfg, st, b, d), plain)
  {
    hide FlushPage;
    FlushSolid(cfg, Push(st, b, d), plain);
  }

  lemma BlockSolid(cfg: Config, st: WriterState, d: Bytes, plain: bool)
    requires Solid(st, plain)
    ensures Solid(WriteBlock(cfg, st, d).0, plain)
  {
    hide Proper, AllProper;
  }

  lemma DataSolid(cfg: Config, st: WriterState, d: Bytes, plain: bool)
    requires cfg.codec.Lawful() && Ready(cfg, st) && Storable(cfg, st, d)
    requires Solid(st, plain) && Fitting(cfg, Data(d), plain)
    ensures Solid(WriteDataBlock(cfg, st, d), plain)
  {
    hide Ready, Codec.Lawful, Solid, PushBlock, WriteBlock, IsZeroChunk;
    assert |d| < U32_LIMIT;
    BlockSolid(cfg, st, d, plain);
    StoredElsewhere(cfg, st, d);
    var (st', b) := WriteBlock(cfg, st, d);
    PushSolid(cfg, st, ZeroBlock(|d|), d, plain);
    if InParent(cfg, cfg.codec.hash(d)) {
      if !IsZeroChunk(d) { PushSolid(cfg, st, ParentBlock(cfg.codec.hash(d), |d|), d, plain); }
    }
    PushSolid(cfg, st', b, d, plain);
  }

  lemma PrecompressedSolid(cfg: Config, st: WriterState, d: Bytes, plain: bool)
    requires cfg.codec.Lawful() && Ready(cfg, st) && Storable(cfg, st, d) && !cfg.encrypted
    requires Solid(st, plain) && Fitting(cfg, Precompressed(d), plain)
    ensures Solid(WritePrecompressed(cfg, st, cfg.codec.compress(d), cfg.codec.hash(d), |d|, d), plain)
  {
    hide Ready, Codec.Lawful, PushBlock, Proper, AllProper;
    var h, raw := cfg.codec.hash(d), cfg.codec.compress(d);
    if InParent(cfg, h) {
      PushSolid(cfg, st, ParentBlock(h, |d|), d, plain);
    } else {
      StoreOnceSound(cfg, st, d);
      var (st', off) := StoreOnce(st, h, raw, d);
      PushSolid(cfg, st', BlockInfo(off, AsU32(|raw|), |d|, cfg.codec.crc(raw), h), d, plain);
    }
  }

  lemma ApplySolid(cfg: Config, st: WriterState, op: Op, plain: bool)
    requires cfg.codec.Lawful() && Ready(cfg, st) && Permitted(cfg, st, op)
    requires Solid(st, plain) && Fitting(cfg, op, plain)
    ensures Solid(Apply(cfg, st, op), plain)
  {
    hide Ready, Codec.Lawful, Storable, PushBlock, FlushPage, WriteDataBlock, WritePrecompressed;
    match op
    case Dictionary(_) =>
    case Begin(_, _) =>
    case Data(d) => DataSolid(cfg, st, d, plain);
    case Precompressed(d) => PrecompressedSolid(cfg, st, d, plain);
    case Delegate(d) => PushSolid(cfg, st, ParentBlock(cfg.codec.hash(d), |d|), d, plain);
    case Flush => FlushSolid(cfg, st, plain);
    case End => FlushSolid(cfg, st, plain);
  }

  lemma {:induction false} RunSolid(cfg: Config, st: WriterState, ops: seq<Op>, plain: bool)
    requires cfg.codec.Lawful() && Ready(cfg, st) && RunPermitted(cfg, st, ops)
    requires Solid(st, plain) && forall op :: op in ops ==> Fitting(cfg, op, plain)
    ensures Solid(Run(cfg, st, ops), plain)
    decreases |ops|
  {
    hide Codec.Lawful, Ready, Permitted, Solid, Apply, Fitting;
    if ops != [] {
      ApplyReady(cfg, st, ops[0]);
      ApplySolid(cfg, st, ops[0], plain);
      RunSolid(cfg, Apply(cfg, st, ops[0]), ops[1..], plain);
    }
  }

  /** A page of blocks that all have bytes has bytes. */
  lemma ProperPage(p: PageRec, plain: bool)
    requires p.Shape() && Proper(p.blocks, plain) && p.blocks != []
    ensures p.Start() < p.End()
  {
    p.BoundsSorted(1, |p.blocks|);
    assert p.bounds[1] == p.bounds[0] + p.blocks[0].logicalLen;
  }

  /** A parent as the writer makes it without a parent of its own. */
  ghost predicate GoodBase(img: Image, codec: Codec) {
    Readable(img) && Dense(img) && Honest(img, codec) && SelfContained(img)
  }

  lemma SolidImage(st: WriterState, img: Image, plain: bool)
    requires Solid(st, plain) && img.mainRecs == st.history.mainRecs && img.auxRecs == st.history.auxRecs
    requires forall s: Stream {:trigger img.Recs(s)} :: Chain(img.Recs(s), |img.Content(s)|)
    ensures Dense(img) && (plain ==> SelfContained(img))
  {
    forall s, k {:trigger img.Recs(s)[k]} | 0 <= k < |img.Recs(s)|
      ensures img.Recs(s)[k].bounds != [] && img.Recs(s)[k].Start() < img.Recs(s)[k].End()
    {
      assert img.Recs(s) == st.history.Recs(s);
      assert img.Recs(s)[k].Shape() && Proper(img.Recs(s)[k].blocks, plain);
      hide Chain, Solid;
      ProperPage(img.Recs(s)[k], plain);
    }
  }

  lemma InitialSolid(plain: bool)
    ensures Solid(Initial(), plain)
  {
  }

  lemma CloseSolid(cfg: Config, st: WriterState, plain: bool)
    requires Solid(st, plain)
    ensures Solid(Close(cfg, st), plain)
  {
    FlushSolid(cfg, st, plain);
  }

  /** Streams of a finished file, as written and as they read back. */
  ghost predicate BuiltFrom(cfg: Config, img: Image, h: History) {
    forall s: Stream {:trigger img.Recs(s)} ::
      && img.Recs(s) == h.Recs(s)
      && StreamWritten(cfg, img.file, img.master.Pages(s), img.Recs(s), h.Content(s), |h.Content(s)|)
      && RecsBack(img.parents, img.Recs(s), h.Content(s), img.Content(s))
  }

  lemma BuiltStreams(cfg: Config, ops: seq<Op>, paths: seq<Bytes>, metadata: Option<Bytes>, parents: seq<Image>)
    requires cfg.codec.Lawful() && RunPermitted(cfg, Initial(), ops) && HeaderFits(cfg, ops, paths, metadata)
    ensures BuiltFrom(cfg, BuiltImage(cfg, ops, paths, metadata, parents),
                      Close(cfg, Run(cfg, Initial(), ops)).history)
  {
    hide Codec.Lawful, Permitted, Run, Initial, Close, Finalize, FinalHeader, StreamWritten, RecsBack, Recovered;
    FinishedRunHolds(cfg, ops, paths, metadata);
    ClosedTracks(cfg, parents, ops);
  }

  /** A block stored in the file carries the hash of its contents, unless it carries none. */
  lemma StoredIsHonest(cfg: Config, parents: seq<Image>, file: Bytes, b: BlockInfo, idx: nat, d: Bytes)
    requires BlockWritten(cfg, file, b, idx, d) && b.IsLocal()
    ensures BlockBack(parents, b, d) == d
    ensures b.hash == ZERO_HASH || (d in cfg.codec.universe && b.hash == cfg.codec.hash(d))
  {
    hide StoredAt, HeldByAny;
  }

  lemma BuiltPage(cfg: Config, img: Image, h: History, s: Stream, k: nat)
    requires BuiltFrom(cfg, img, h) && k < |img.Recs(s)|
    ensures PageWritten(cfg, img.file, img.Recs(s)[k], h.Content(s))
    ensures PageBack(img.parents, img.Recs(s)[k], h.Content(s), img.Content(s))
  {
    hide PageWritten, PageBack, EntryWritten, Chain;
  }

  lemma BuiltBlock(cfg: Config, img: Image, h: History, s: Stream, k: nat, i: nat)
    requires BuiltFrom(cfg, img, h) && img.Has(s, k, i) && img.BlockAt(s, k, i).IsLocal()
    ensures var b, d := img.BlockAt(s, k, i), img.DataAt(s, k, i);
      b.hash == ZERO_HASH || (d in cfg.codec.universe && b.hash == cfg.codec.hash(d))
  {
    hide BuiltFrom, BlockWritten, BlockBack;
    var p, c := img.Recs(s)[k], h.Content(s);
    BuiltPage(cfg, img, h, s, k);
    StoredIsHonest(cfg, img.parents, img.file, p.blocks[i], p.startBlock + i, Piece(c, p.bounds[i], p.bounds[i + 1]));
  }

  lemma BuiltIsHonest(cfg: Config, img: Image, h: History)
    requires BuiltFrom(cfg, img, h)
    ensures Honest(img, cfg.codec)
  {
    hide BuiltFrom;
    forall s, k, i {:trigger img.Has(s, k, i)} |
      img.Has(s, k, i) && img.BlockAt(s, k, i).IsLocal() && img.BlockAt(s, k, i).hash != ZERO_HASH
      ensures img.DataAt(s, k, i) in cfg.codec.universe
      ensures img.BlockAt(s, k, i).hash == cfg.codec.hash(img.DataAt(s, k, i))
    {
      BuiltBlock(cfg, img, h, s, k, i);
    }
  }

  lemma BuiltIsSolid(cfg: Config, img: Image, st: WriterState, plain: bool)
    requires BuiltFrom(cfg, img, st.history) && Solid(st, plain)
    ensures Dense(img) && (plain ==> SelfContained(img))
  {
    hide Solid, PageWritten, EntryWritten, PageBack;
    assert img.Recs(Main) == st.history.mainRecs && img.Recs(Auxiliary) == st.history.auxRecs;
    hide Chain;
    SolidImage(st, img, plain);
  }

  /**
   Every archive that the writer makes from non-empty blocks, over sound parents, is a sound parent itself, encrypted
   or not. If nothing in it was left to its parents it is a good base.
   */
  lemma BuiltIsSound(
    cfg: Config, ops: seq<Op>, paths: seq<Bytes>, metadata: Option<Bytes>, parents: seq<Image>, plain: bool)
    requires cfg.codec.Lawful() && RunPermitted(cfg, Initial(), ops) && HeaderFits(cfg, ops, paths, metadata)
    requires SoundParents(parents, cfg.codec) && forall op :: op in ops ==> Fitting(cfg, op, plain)
    ensures var img := BuiltImage(cfg, ops, paths, metadata, parents);
      Readable(img) && Dense(img) && Honest(img, cfg.codec) && (plain ==> GoodBase(img, cfg.codec))
  {
    hide Codec.Lawful, RunPermitted, Run, Readable, Dense, Honest, SelfContained, SoundParents, Fitting, Solid,
      HeaderFits, BuiltImage, BuiltFrom, Initial, Close, Ready;
    var st := Run(cfg, Initial(), ops);
    InitialReady(cfg);
    InitialSolid(plain);
    RunSolid(cfg, Initial(), ops, plain);
    CloseSolid(cfg, st, plain);
    BuiltFile(cfg, ops, paths, metadata, parents);
    BuiltStreams(cfg, ops, paths, metadata, parents);
    BuiltIsHonest(cfg, BuiltImage(cfg, ops, paths, metadata, parents), Close(cfg, st).history);
    BuiltIsSolid(cfg, BuiltImage(cfg, ops, paths, metadata, parents), Close(cfg, st), plain);
  }

  // ---------------------------------------------------------------------------------------------
  // End to end over parents

  function Against(cfg: Config, hashes: set<Hash>): Config { cfg.(parentIndex := Some(hashes)) }

  /**
   Thin round trip. Over any number of good bases, whatever is packed against their index comes back byte for
   byte, though blocks that a parent has are not stored again; the zero-fill fallback is never what is read.
   */
  method ThinWriteThenRead(
    cfg: Config, parents: seq<Archive>, ops: seq<Op>, paths: seq<Bytes>, metadata: Option<Bytes>,
    shardBlock: Reader.BlockKey -> nat, shardPage: nat -> nat, capacity: Option<nat>, prefetchWindow: nat,
    stream: Stream, off: nat, len: nat)
    returns (r: Result<Bytes>, hashes: set<Hash>)
    requires cfg.codec.Lawful()
    requires forall p: Archive {:trigger p in parents} :: p in parents ==> p.Valid()
    requires forall p :: p in Images(parents) ==> GoodBase(p, cfg.codec)
    requires forall hs: set<Hash> {:trigger IndexOf(Images(parents), hs)} :: IndexOf(Images(parents), hs) ==>
      && RunPermitted(Against(cfg, hs), Initial(), ops) && HeaderFits(Against(cfg, hs), ops, paths, metadata)
      && forall op :: op in ops ==> OnlyListed(Against(cfg, hs), op)
    modifies Reader.Archive.Closure(parents)
    ensures IndexOf(Images(parents), hashes)
    ensures AllHeld(Against(cfg, hashes), Images(parents), ops)
    ensures r ==
      if IndexBytes(Against(cfg, hashes), ops, metadata) > MAX_INDEX_SIZE then Err(FormatError)
      else Ok(ReadBack(BuiltImage(Against(cfg, hashes), ops, paths, metadata, Images(parents)), stream, off, len))
    ensures var l := NoteAll(EMPTY_LEDGER, ops);
      r.Ok? && l.Declared(stream) <= |l.Content(stream)| ==>
        r.value == Cut(l.Content(stream)[..l.Declared(stream)], off, len)
  {
    hide Codec.Lawful, RunPermitted, HeaderFits, Readable, Dense, Honest, SelfContained, Initial, IndexBytes, Images,
      Reader.Archive.Valid, IndexOf, Cut, AllHeld, OnlyListed, BuiltImage, ReadBack, Recovered, NoteAll;
    hashes := {};
    var index := NewParentIndex(parents);
    match index {
      case Err(e) => return Err(e), hashes;
      case Ok(hs) =>
        hashes := hs;
        SelfContainedHold(Against(cfg, hs), Images(parents), ops);
        assert SoundParents(Images(parents), cfg.codec);
        r := WriteThenRead(
          Against(cfg, hs), parents, ops, paths, metadata, shardBlock, shardPage, capacity, prefetchWindow,
          stream, off, len);
    }
  }
}
