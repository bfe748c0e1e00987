// What one chunk adds to an archive, byte by byte: what is stored, what is listed, and when a page is written.
module Chunks {
  import opened Common
  import opened Format
  import opened Index
  import opened WriterModel
  import opened WriterRuns

  /** What comes of a chunk: its descriptor, the bytes stored for it, and the table of stored chunks afterwards. */
  datatype Handling = Handling(b: BlockInfo, stored: Bytes, table: map<Hash, nat>)

  /**
   A chunk that a parent lists is never stored. Of the others, each is stored once without encryption, and each time,
   under its own index, with encryption.
   */
  predicate Handles(cfg: Config, st: WriterState, d: Bytes, r: Handling) {
    var h, raw := cfg.codec.hash(d), cfg.codec.compress(d);
    if cfg.parentIndex.Some? && h in cfg.parentIndex.value then
      r == Handling(BlockInfo(BLOCK_OFFSET_PARENT, 0, |d|, 0, h), [], st.dedup)
    else if cfg.encrypted then
      && r.stored == cfg.codec.encrypt(raw, st.globalBlockIdx) && r.table == st.dedup
      && r.b == BlockInfo(|st.out|, |r.stored|, |d|, cfg.codec.crc(r.stored), ZERO_HASH)
    else if h in st.dedup then
      r == Handling(BlockInfo(st.dedup[h], |raw|, |d|, cfg.codec.crc(raw), h), [], st.dedup)
    else
      r == Handling(BlockInfo(|st.out|, |raw|, |d|, cfg.codec.crc(raw), h), raw, st.dedup[h := |st.out|])
  }

  /** A block with descriptor `b` is listed in the open page, which is written if that makes it a page of 4096. */
  predicate Listed(cfg: Config, st: WriterState, b: BlockInfo, t: WriterState) {
    var page := st.page + [b];
    var raw := cfg.codec.encodePage(page);
    && t.globalBlockIdx == st.globalBlockIdx + 1 && t.currentLogicalPos == st.currentLogicalPos + b.logicalLen
    && t.dedup == st.dedup && t.isMain == st.isMain && t.streamActive == st.streamActive
    && if |page| < 4096 then
        && t.out == st.out && t.page == page && t.master == st.master
        && t.pageStartBlock == st.pageStartBlock && t.pageStartLogical == st.pageStartLogical
      else
        && t.out == st.out + raw && t.page == []
        && t.pageStartBlock == t.globalBlockIdx && t.pageStartLogical == t.currentLogicalPos
        && t.master == st.master.AddPage(st.Current(),
            PageEntry(|st.out|, |raw|, st.pageStartBlock, st.pageStartLogical))
  }

  /** The state once the bytes are appended. */
  predicate Stored(st: WriterState, r: Handling, t: WriterState) {
    && t.out == st.out + r.stored && t.dedup == r.table
    && t.page == st.page && t.master == st.master && t.globalBlockIdx == st.globalBlockIdx
    && t.pageStartBlock == st.pageStartBlock && t.pageStartLogical == st.pageStartLogical
    && t.currentLogicalPos == st.currentLogicalPos && t.isMain == st.isMain && t.streamActive == st.streamActive
  }

  lemma FlushShape(cfg: Config, st: WriterState)
    ensures var raw, t := cfg.codec.encodePage(st.page), FlushPage(cfg, st);
      && t.out == st.out + raw && t.page == [] && t.pageStartBlock == t.globalBlockIdx == st.globalBlockIdx
      && t.currentLogicalPos == st.currentLogicalPos && t.dedup == st.dedup
      && t.pageStartLogical == t.currentLogicalPos && t.isMain == st.isMain && t.streamActive == st.streamActive
      && t.master == st.master.AddPage(st.Current(),
          PageEntry(st.currentOffset, AsU32(|raw|), st.pageStartBlock, st.pageStartLogical))
  {
  }

  lemma PushShape(st: WriterState, b: BlockInfo, d: Bytes)
    ensures var t := Push(st, b, d);
      && t.out == st.out && t.currentOffset == st.currentOffset && t.master == st.master && t.dedup == st.dedup
      && t.page == st.page + [b] && t.globalBlockIdx == st.globalBlockIdx + 1
      && t.currentLogicalPos == st.currentLogicalPos + b.logicalLen
      && t.isMain == st.isMain && t.streamActive == st.streamActive
      && t.pageStartBlock == st.pageStartBlock && t.pageStartLogical == st.pageStartLogical
  {
  }

  lemma PageCast(cfg: Config, st: WriterState, b: BlockInfo, d: Bytes)
    requires cfg.codec.Lawful() && Ready(cfg, st) && st.streamActive
    requires BlockWritten(cfg, st.out, b, st.globalBlockIdx, d)
    ensures AsU32(|cfg.codec.encodePage(st.page + [b])|) == |cfg.codec.encodePage(st.page + [b])|
    ensures st.currentOffset == |st.out|
  {
    PushKeepsInv(cfg, st, b, d);
    var t := Push(st, b, d);
    hide Codec.Lawful, BlockWritten, StreamOk, DedupSound;
    PageEncodable(cfg, t.out, t.OpenPage(), t.history.Content(t.Current()));
    PageLength(cfg, t.page);
  }

  lemma PushLists(cfg: Config, st: WriterState, b: BlockInfo, d: Bytes)
    requires cfg.codec.Lawful() && Ready(cfg, st) && st.streamActive
    requires BlockWritten(cfg, st.out, b, st.globalBlockIdx, d)
    ensures Listed(cfg, st, b, PushBlock(cfg, st, b, d))
  {
    PageCast(cfg, st, b, d);
    PushShape(st, b, d);
    FlushShape(cfg, Push(st, b, d));
    hide Codec.Lawful, Ready, BlockWritten, Push, FlushPage, AsU32;
  }

  lemma StoredNothing(st: WriterState, b: BlockInfo)
    ensures Stored(st, Handling(b, [], st.dedup), st)
  {
    assert st.out + [] == st.out;
  }

  lemma StoreShape(st: WriterState, h: Hash, raw: Bytes, d: Bytes, b: BlockInfo)
    requires st.currentOffset == |st.out| && |raw| < U32_LIMIT
    ensures var (t, off) := StoreOnce(st, h, raw, d);
      if h in st.dedup then t == st && off == st.dedup[h]
      else t.hashBuf == st.hashBuf && off == |st.out| && Stored(st, Handling(b, raw, st.dedup[h := |st.out|]), t)
  {
  }

  lemma HashBufShape(st: WriterState, h: Hash, r: Handling, t: WriterState)
    ensures Stored(st.(hashBuf := h), r, t) <==> Stored(st, r, t)
  {
  }

  lemma PlainIsHandled(cfg: Config, st: WriterState, d: Bytes) returns (r: Handling)
    requires st.currentOffset == |st.out| && Storable(cfg, st, d)
    requires !cfg.encrypted && !InParent(cfg, cfg.codec.hash(d))
    ensures r.b == WriteBlock(cfg, st, d).1
    ensures Handles(cfg, st, d, r) && Stored(st, r, WriteBlock(cfg, st, d).0)
  {
    var h, raw := cfg.codec.hash(d), cfg.codec.compress(d);
    var (t, b) := WriteBlock(cfg, st, d);
    StoreShape(st.(hashBuf := h), h, raw, d, b);
    hide StoreOnce, Stored;
    r := if h in st.dedup then Handling(b, [], st.dedup) else Handling(b, raw, st.dedup[h := |st.out|]);
    HashBufShape(st, h, r, t);
    StoredNothing(st.(hashBuf := h), b);
  }

  lemma SealedIsHandled(cfg: Config, st: WriterState, d: Bytes) returns (r: Handling)
    requires st.currentOffset == |st.out| && Storable(cfg, st, d) && st.hashBuf == ZERO_HASH
    requires cfg.encrypted && !InParent(cfg, cfg.codec.hash(d))
    ensures r.b == WriteBlock(cfg, st, d).1
    ensures Handles(cfg, st, d, r) && Stored(st, r, WriteBlock(cfg, st, d).0)
  {
    r := Handling(WriteBlock(cfg, st, d).1, cfg.codec.encrypt(cfg.codec.compress(d), st.globalBlockIdx), st.dedup);
  }

  lemma NoHash(cfg: Config, st: WriterState)
    requires Ready(cfg, st) && cfg.encrypted
    ensures st.hashBuf == ZERO_HASH
  {
    hide StreamOk, PageOk;
  }

  /** A chunk that no parent lists, stored or found again. */
  lemma BlockIsHandled(cfg: Config, st: WriterState, d: Bytes) returns (r: Handling)
    requires cfg.codec.Lawful() && Ready(cfg, st) && Storable(cfg, st, d) && !InParent(cfg, cfg.codec.hash(d))
    ensures r.b == WriteBlock(cfg, st, d).1
    ensures Handles(cfg, st, d, r) && Stored(st, r, WriteBlock(cfg, st, d).0)
  {
    hide Ready, Codec.Lawful, Storable, Stored, Handles, WriteBlock;
    OffsetIsLength(cfg, st);
    if cfg.encrypted {
      NoHash(cfg, st);
      r := SealedIsHandled(cfg, st, d);
    } else {
      r := PlainIsHandled(cfg, st, d);
    }
  }

  lemma SealedIsListed(cfg: Config, st: WriterState, d: Bytes)
    requires cfg.codec.Lawful() && Ready(cfg, st) && st.streamActive && Storable(cfg, st, d) && cfg.encrypted
    ensures var (mid, b) := WriteBlock(cfg, st, d); Listed(cfg, mid, b, PushBlock(cfg, mid, b, d))
  {
    hide Codec.Lawful, Ready, LocalWritten, Storable;
    EncryptedBlockSound(cfg, st, d);
    var (mid, b) := WriteBlock(cfg, st, d);
    var plain := WithNonces(mid, st.history.nonces);
    PushLists(cfg, plain, b, d);
    assert WithNonces(PushBlock(cfg, plain, b, d), mid.history.nonces) == PushBlock(cfg, mid, b, d);
  }

  lemma PlainIsListed(cfg: Config, st: WriterState, d: Bytes)
    requires cfg.codec.Lawful() && Ready(cfg, st) && st.streamActive && Storable(cfg, st, d) && !cfg.encrypted
    ensures var (mid, b) := WriteBlock(cfg, st, d); Listed(cfg, mid, b, PushBlock(cfg, mid, b, d))
  {
    hide Codec.Lawful, Ready, LocalWritten, Storable, Listed, PushBlock;
    PlainBlockSound(cfg, st, d);
    var (mid, b) := WriteBlock(cfg, st, d);
    PushLists(cfg, mid, b, d);
  }

  lemma ReferenceIsListed(cfg: Config, st: WriterState, d: Bytes)
    requires cfg.codec.Lawful() && Ready(cfg, st) && st.streamActive && d in cfg.codec.universe && |d| < U32_LIMIT
    ensures var b := ParentBlock(cfg.codec.hash(d), |d|);
      Listed(cfg, st, b, PushBlock(cfg, st, b, d)) && Stored(st, Handling(b, [], st.dedup), st)
  {
    hide Codec.Lawful, Ready, Listed, PushBlock, Stored;
    DescriptorsFit(cfg, d);
    PushLists(cfg, st, ParentBlock(cfg.codec.hash(d), |d|), d);
    StoredNothing(st, ParentBlock(cfg.codec.hash(d), |d|));
  }

  lemma ZerosAreListed(cfg: Config, st: WriterState, d: Bytes)
    requires cfg.codec.Lawful() && Ready(cfg, st) && st.streamActive && IsZeroChunk(d) && |d| < U32_LIMIT
    ensures var b := ZeroBlock(|d|);
      Listed(cfg, st, b, PushBlock(cfg, st, b, d)) && Stored(st, Handling(b, [], st.dedup), st)
  {
    hide Codec.Lawful, Ready, Listed, PushBlock, Stored;
    DescriptorsFit(cfg, d);
    PushLists(cfg, st, ZeroBlock(|d|), d);
    StoredNothing(st, ZeroBlock(|d|));
  }

  /** Writing a chunk: zeros leave a descriptor only; any other chunk is handled, and listed in a page. */
  lemma ChunkIsHandled(cfg: Config, st: WriterState, d: Bytes) returns (r: Handling, mid: WriterState)
    requires cfg.codec.Lawful() && Ready(cfg, st) && st.streamActive && Storable(cfg, st, d)
    ensures if forall i :: 0 <= i < |d| ==> d[i] == 0 then
        r == Handling(BlockInfo(0, 0, |d|, 0, ZERO_HASH), [], st.dedup)
      else Handles(cfg, st, d, r)
    ensures Stored(st, r, mid) && Listed(cfg, mid, r.b, WriteDataBlock(cfg, st, d))
  {
    hide Codec.Lawful, Ready, Listed, PushBlock, Stored, WriteBlock;
    mid := st;
    if IsZeroChunk(d) {
      ZerosAreListed(cfg, st, d);
      r := Handling(ZeroBlock(|d|), [], st.dedup);
    } else if InParent(cfg, cfg.codec.hash(d)) {
      ReferenceIsListed(cfg, st, d);
      r := Handling(ParentBlock(cfg.codec.hash(d), |d|), [], st.dedup);
    } else {
      r := BlockIsHandled(cfg, st, d);
      mid := WriteBlock(cfg, st, d).0;
      hide Handles;
      if cfg.encrypted { SealedIsListed(cfg, st, d); } else { PlainIsListed(cfg, st, d); }
    }
  }

  /** The same for a chunk that a worker has compressed and hashed, except that zeros are nothing special. */
  lemma PrecompressedIsHandled(cfg: Config, st: WriterState, d: Bytes) returns (r: Handling, mid: WriterState)
    requires cfg.codec.Lawful() && Ready(cfg, st) && st.streamActive && Storable(cfg, st, d) && !cfg.encrypted
    ensures Handles(cfg, st, d, r) && Stored(st, r, mid)
    ensures Listed(cfg, mid, r.b, WritePrecompressed(cfg, st, cfg.codec.compress(d), cfg.codec.hash(d), |d|, d))
  {
    hide Codec.Lawful, Ready, Listed, PushBlock, Stored, StoreOnce;
    var h, raw := cfg.codec.hash(d), cfg.codec.compress(d);
    mid := st;
    if InParent(cfg, h) {
      ReferenceIsListed(cfg, st, d);
      r := Handling(ParentBlock(h, |d|), [], st.dedup);
    } else {
      var (t, off) := StoreOnce(st, h, raw, d);
      var b := BlockInfo(off, |raw|, |d|, cfg.codec.crc(raw), h);
      mid := t;
      r := if h in st.dedup then Handling(b, [], st.dedup) else Handling(b, raw, st.dedup[h := |st.out|]);
      OffsetIsLength(cfg, st);
      StoreShape(st, h, raw, d, b);
      StoredNothing(st, b);
      StoreOnceSound(cfg, st, d);
      cfg.codec.Widths(raw);
      cfg.codec.Widths(d);
      PushLists(cfg, t, b, d);
    }
  }

  /**
   Flushing or ending a stream leaves no open page: what was in it is at the end of the file, and its place, first block
   and first byte in the index of its stream. An empty page leaves no trace.
   */
  lemma PageIsWritten(cfg: Config, st: WriterState, op: Op)
    requires cfg.codec.Lawful() && Ready(cfg, st) && (op.Flush? || op.End?)
    ensures var t, raw := Apply(cfg, st, op), cfg.codec.encodePage(st.page);
      && t.page == [] && t.streamActive == (op.Flush? && st.streamActive)
      && t.globalBlockIdx == st.globalBlockIdx && t.dedup == st.dedup && t.currentLogicalPos == st.currentLogicalPos
      && if st.page == [] then t.out == st.out && t.master == st.master
        else
          && t.out == st.out + raw
          && t.master == st.master.AddPage(st.Current(),
              PageEntry(|st.out|, |raw|, st.pageStartBlock, st.pageStartLogical))
  {
    hide Codec.Lawful, Ready, FlushPage, AsU32;
    OffsetIsLength(cfg, st);
    OpenPageLength(cfg, st);
    FlushShape(cfg, st);
  }

  lemma OpenPageLength(cfg: Config, st: WriterState)
    requires cfg.codec.Lawful() && Ready(cfg, st)
    ensures st.page != [] ==> AsU32(|cfg.codec.encodePage(st.page)|) == |cfg.codec.encodePage(st.page)|
    ensures !st.streamActive ==> st.page == []
  {
    hide Codec.Lawful, StreamOk, DedupSound, PageWritten;
    if st.page != [] {
      PageEncodable(cfg, st.out, st.OpenPage(), st.history.Content(st.Current()));
      PageLength(cfg, st.page);
    }
  }

  lemma EndIsLength(cfg: Config, st: WriterState)
    requires Ready(cfg, st) && st.streamActive
    ensures st.currentLogicalPos == |st.history.Content(st.Current())|
  {
    hide StreamOk, DedupSound, NoncesFresh, PageWritten;
  }

  /** Lengths are kept in 32 bits: a chunk of zeros leaves the index in order if and only if it is below 4 GiB. */
  lemma LengthCast(cfg: Config, st: WriterState, d: Bytes)
    requires cfg.codec.Lawful() && Ready(cfg, st) && st.streamActive && IsZeroChunk(d)
    ensures Ready(cfg, WriteDataBlock(cfg, st, d)) <==> |d| < 0x1_0000_0000
  {
    hide Codec.Lawful, Ready;
    EndIsLength(cfg, st);
    if |d| < U32_LIMIT {
      DescriptorsFit(cfg, d);
      PushBlockReady(cfg, st, ZeroBlock(|d|), d);
    } else if Ready(cfg, WriteDataBlock(cfg, st, d)) {
      var b := ZeroBlock(AsU32(|d|));
      PushShape(st, b, d);
      FlushShape(cfg, Push(st, b, d));
      ContentShape(cfg, st, b, d);
      hide Push, FlushPage;
      EndIsLength(cfg, WriteDataBlock(cfg, st, d));
    }
  }

  lemma ContentShape(cfg: Config, st: WriterState, b: BlockInfo, d: Bytes)
    ensures var t := PushBlock(cfg, st, b, d);
      && t.streamActive == st.streamActive && t.isMain == st.isMain
      && t.history.Content(t.Current()) == st.history.Content(st.Current()) + d
  {
  }

  // ---------------------------------------------------------------------------------------------
  // Over a run: a chunk is stored once for as long as the table is kept

  /** The call starts with an empty table: the stream promises more blocks than the table has entries. */
  predicate ReplacesTable(cfg: Config, st: WriterState, op: Op) {
    op.Begin? && op.total > 0 && cfg.blockSize > 0 && op.total / cfg.blockSize > |st.dedup|
  }

  ghost predicate KeepsTable(cfg: Config, st: WriterState, ops: seq<Op>)
    decreases |ops|
  {
    ops == [] || (!ReplacesTable(cfg, st, ops[0]) && KeepsTable(cfg, Apply(cfg, st, ops[0]), ops[1..]))
  }

  predicate KnowsAt(st: WriterState, h: Hash, off: nat) { h in st.dedup && st.dedup[h] == off }

  lemma PushTable(cfg: Config, st: WriterState, b: BlockInfo, d: Bytes)
    ensures PushBlock(cfg, st, b, d).dedup == st.dedup
  {
  }

  lemma StoreKeeps(st: WriterState, g: Hash, raw: Bytes, d: Bytes, h: Hash, off: nat)
    requires KnowsAt(st, h, off)
    ensures KnowsAt(StoreOnce(st, g, raw, d).0, h, off)
  {
  }

  lemma TableGrows(cfg: Config, st: WriterState, op: Op, h: Hash, off: nat)
    requires KnowsAt(st, h, off) && !ReplacesTable(cfg, st, op)
    ensures KnowsAt(Apply(cfg, st, op), h, off)
  {
    hide PushBlock, StoreOnce;
    match op
    case Data(d) =>
      var (mid, b) := WriteBlock(cfg, st, d);
      var g := cfg.codec.hash(d);
      StoreKeeps(st.(hashBuf := g), g, cfg.codec.Seal(cfg.encrypted, d, st.globalBlockIdx), d, h, off);
      PushTable(cfg, mid, b, d);
      PushTable(cfg, st, ZeroBlock(AsU32(|d|)), d);
      PushTable(cfg, st, ParentBlock(g, AsU32(|d|)), d);
    case Precompressed(d) =>
      var g, raw := cfg.codec.hash(d), cfg.codec.compress(d);
      var (mid, at) := StoreOnce(st, g, raw, d);
      StoreKeeps(st, g, raw, d, h, off);
      PushTable(cfg, mid, BlockInfo(at, AsU32(|raw|), |d|, cfg.codec.crc(raw), g), d);
      PushTable(cfg, st, ParentBlock(g, |d|), d);
    case Delegate(d) => PushTable(cfg, st, ParentBlock(cfg.codec.hash(d), |d|), d);
    case Dictionary(_) =>
    case Begin(_, _) =>
    case Flush =>
    case End =>
  }

  lemma {:induction false} RunKnows(cfg: Config, st: WriterState, ops: seq<Op>, h: Hash, off: nat)
    requires KnowsAt(st, h, off) && KeepsTable(cfg, st, ops)
    ensures KnowsAt(Run(cfg, st, ops), h, off)
    decreases |ops|
  {
    hide Apply, ReplacesTable, KnowsAt;
    if ops != [] {
      TableGrows(cfg, st, ops[0], h, off);
      RunKnows(cfg, Apply(cfg, st, ops[0]), ops[1..], h, off);
    }
  }

  /**
   Deduplication over a run: a chunk that no parent lists, written twice without encryption, is stored once. Whatever is
   written in between, as long as the table is kept, the second time nothing is stored and the descriptor is the same.
   */
  lemma StoredOnce(cfg: Config, st: WriterState, d: Bytes, between: seq<Op>) returns (first: Handling, again: Handling)
    requires cfg.codec.Lawful() && Ready(cfg, st) && st.streamActive && Storable(cfg, st, d)
    requires !cfg.encrypted && !InParent(cfg, cfg.codec.hash(d)) && !IsZeroChunk(d)
    requires var mid := WriteDataBlock(cfg, st, d);
      && RunPermitted(cfg, mid, between) && KeepsTable(cfg, mid, between)
      && Run(cfg, mid, between).streamActive && Storable(cfg, Run(cfg, mid, between), d)
    ensures var u := Run(cfg, WriteDataBlock(cfg, st, d), between);
      Handles(cfg, st, d, first) && Handles(cfg, u, d, again) && again.stored == [] && again.b == first.b
  {
    hide Codec.Lawful, Ready, RunPermitted, Storable, Stored, Listed, WriteDataBlock, KeepsTable, Run;
    var mid;
    first, mid := ChunkIsHandled(cfg, st, d);
    var t := WriteDataBlock(cfg, st, d);
    DataBlockReady(cfg, st, d);
    RunReady(cfg, t, between);
    TableAfter(cfg, st, d, first, mid, t);
    RunKnows(cfg, t, between, cfg.codec.hash(d), first.b.offset);
    again, mid := ChunkIsHandled(cfg, Run(cfg, t, between), d);
  }

  lemma TableAfter(cfg: Config, st: WriterState, d: Bytes, r: Handling, mid: WriterState, t: WriterState)
    requires Handles(cfg, st, d, r) && !cfg.encrypted && !InParent(cfg, cfg.codec.hash(d))
    requires Stored(st, r, mid) && Listed(cfg, mid, r.b, t)
    ensures KnowsAt(t, cfg.codec.hash(d), r.b.offset)
  {
  }
}
