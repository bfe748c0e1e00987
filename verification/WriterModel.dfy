// The archive writer as a state machine, and the invariant that ties its file and index to the bytes written.
module WriterModel {
  import opened Common
  import opened Format
  import opened Index

  datatype Config = Config(
    codec: Codec, encrypted: bool, parentIndex: Option<set<Hash>>, blockSize: nat, variableBlocks: bool,
    key: KeyParams, compression: Compression, cdcParams: Option<(nat, nat, nat)>)

  /** What was asked of the writer so far; nothing in here is read by the writer. */
  datatype History = History(
    mainRecs: seq<PageRec>, auxRecs: seq<PageRec>, // flushed pages
    mainContent: Bytes, auxContent: Bytes,         // bytes handed to each stream
    bounds: seq<nat>,                              // block boundaries of the page being filled
    stored: map<Hash, Bytes>,                      // contents behind the dedup entries
    nonces: seq<nat>)                              // block indices given to the cipher, in order
  {
    function Recs(s: Stream): seq<PageRec> { if s.Main? then mainRecs else auxRecs }

    function Content(s: Stream): Bytes { if s.Main? then mainContent else auxContent }

    function AddRec(s: Stream, r: PageRec): History {
      if s.Main? then this.(mainRecs := mainRecs + [r]) else this.(auxRecs := auxRecs + [r])
    }

    function AddData(s: Stream, d: Bytes): History {
      if s.Main? then this.(mainContent := mainContent + d) else this.(auxContent := auxContent + d)
    }
  }

  datatype WriterState = WriterState(
    out: Bytes, currentOffset: nat, master: MasterIndex, globalBlockIdx: nat,
    dedup: map<Hash, nat>, hashBuf: Hash,
    page: seq<BlockInfo>, pageStartBlock: nat, pageStartLogical: nat, currentLogicalPos: nat,
    isMain: bool, streamActive: bool,
    dictOffset: Option<nat>, dictLen: Option<nat>,
    history: History)
  {
    function Current(): Stream { if isMain then Main else Auxiliary }

    function OpenPage(): PageRec { PageRec(pageStartBlock, page, history.bounds) }

    /** Flushed pages of `s` use block indices below this. */
    function IndexLimit(s: Stream): nat {
      if streamActive && s == Current() then pageStartBlock else globalBlockIdx
    }

    /** How much of stream `s` lies in flushed pages. */
    function Flushed(s: Stream): nat {
      if streamActive && s == Current() then pageStartLogical else |history.Content(s)|
    }
  }

  const EMPTY_HISTORY := History([], [], [], [], [0], map[], [])

  // ---------------------------------------------------------------------------------------------
  // Descriptors

  function ZeroBlock(n: nat): BlockInfo { BlockInfo(0, 0, n, 0, ZERO_HASH) }

  function ParentBlock(h: Hash, n: nat): BlockInfo { BlockInfo(BLOCK_OFFSET_PARENT, 0, n, 0, h) }

  predicate IsZeroChunk(d: Bytes) { forall i :: 0 <= i < |d| ==> d[i] == 0 }

  // ---------------------------------------------------------------------------------------------
  // Steps

  function Initial(): WriterState {
    WriterState(Zeros(HEADER_SIZE), HEADER_SIZE, EMPTY_MASTER, 0, map[], ZERO_HASH,
                [], 0, 0, 0, true, false, None, None, EMPTY_HISTORY)
  }

  function Append(st: WriterState, raw: Bytes): WriterState {
    st.(out := st.out + raw, currentOffset := st.currentOffset + AsU32(|raw|))
  }

  function WriteDictionary(st: WriterState, dict: Bytes): WriterState {
    st.(out := st.out + dict, currentOffset := st.currentOffset + |dict|,
        dictOffset := Some(st.currentOffset), dictLen := Some(AsU32(|dict|)))
  }

  function BeginStream(cfg: Config, st: WriterState, isMain: bool, total: nat): WriterState {
    var s := if isMain then Main else Auxiliary;
    var resetTable := total > 0 && cfg.blockSize > 0 && total / cfg.blockSize > |st.dedup|;
    var start := st.master.Size(s);
    st.(isMain := isMain, streamActive := true, page := [], pageStartBlock := st.globalBlockIdx,
        dedup := if resetTable then map[] else st.dedup,
        pageStartLogical := start, currentLogicalPos := start,
        master := st.master.Grow(s, total),
        history := st.history.(bounds := [start], stored := if resetTable then map[] else st.history.stored))
  }

  /** Stores `raw` unless the table already knows hash `h`; the offset to use comes back with the state. */
  function StoreOnce(st: WriterState, h: Hash, raw: Bytes, d: Bytes): (WriterState, nat) {
    if h in st.dedup then (st, st.dedup[h])
    else
      var hist := st.history.(stored := st.history.stored[h := d]);
      (Append(st.(dedup := st.dedup[h := st.currentOffset], history := hist), raw), st.currentOffset)
  }

  function WriteBlock(cfg: Config, st: WriterState, d: Bytes): (WriterState, BlockInfo) {
    var raw := cfg.codec.Seal(cfg.encrypted, d, st.globalBlockIdx);
    var (st', offset) :=
      if cfg.encrypted then
        var hist := st.history.(nonces := st.history.nonces + [st.globalBlockIdx]);
        (Append(st.(history := hist), raw), st.currentOffset)
      else
        StoreOnce(st.(hashBuf := cfg.codec.hash(d)), cfg.codec.hash(d), raw, d);
    (st', BlockInfo(offset, AsU32(|raw|), AsU32(|d|), cfg.codec.crc(raw), st'.hashBuf))
  }

  function Push(st: WriterState, b: BlockInfo, d: Bytes): WriterState {
    var pos := st.currentLogicalPos + b.logicalLen;
    st.(page := st.page + [b], globalBlockIdx := st.globalBlockIdx + 1, currentLogicalPos := pos,
        history := st.history.AddData(st.Current(), d).(bounds := st.history.bounds + [pos]))
  }

  function FlushPage(cfg: Config, st: WriterState): WriterState {
    var raw := cfg.codec.encodePage(st.page);
    var e := PageEntry(st.currentOffset, AsU32(|raw|), st.pageStartBlock, st.pageStartLogical);
    st.(out := st.out + raw, currentOffset := st.currentOffset + |raw|,
        master := st.master.AddPage(st.Current(), e),
        page := [], pageStartBlock := st.globalBlockIdx, pageStartLogical := st.currentLogicalPos,
        history := st.history.AddRec(st.Current(), st.OpenPage()).(bounds := [st.currentLogicalPos]))
  }

  function PushBlock(cfg: Config, st: WriterState, b: BlockInfo, d: Bytes): WriterState {
    var st' := Push(st, b, d);
    if |st'.page| >= ENTRIES_PER_PAGE then FlushPage(cfg, st') else st'
  }

  function WriteParentRef(cfg: Config, st: WriterState, h: Hash, n: nat, d: Bytes): WriterState {
    PushBlock(cfg, st, ParentBlock(h, n), d)
  }

  predicate InParent(cfg: Config, h: Hash) { cfg.parentIndex.Some? && h in cfg.parentIndex.value }

  function WriteDataBlock(cfg: Config, st: WriterState, d: Bytes): WriterState {
    if IsZeroChunk(d) then PushBlock(cfg, st, ZeroBlock(AsU32(|d|)), d)
    else if InParent(cfg, cfg.codec.hash(d)) then WriteParentRef(cfg, st, cfg.codec.hash(d), AsU32(|d|), d)
    else
      var (st', b) := WriteBlock(cfg, st, d);
      PushBlock(cfg, st', b, d)
  }

  /** `d` is the chunk that a worker compressed to `raw` and hashed to `h`. */
  function WritePrecompressed(cfg: Config, st: WriterState, raw: Bytes, h: Hash, n: nat, d: Bytes): WriterState {
    if InParent(cfg, h) then WriteParentRef(cfg, st, h, n, d)
    else
      var (st', offset) := StoreOnce(st, h, raw, d);
      PushBlock(cfg, st', BlockInfo(offset, AsU32(|raw|), n, cfg.codec.crc(raw), h), d)
  }

  function EndStream(cfg: Config, st: WriterState): WriterState {
    var st' := if st.page != [] then FlushPage(cfg, st) else st;
    st'.(streamActive := false)
  }

  function FlushStream(cfg: Config, st: WriterState): WriterState {
    if st.streamActive && st.page != [] then FlushPage(cfg, st) else st
  }

  // ---------------------------------------------------------------------------------------------
  // Invariant

  /** `g` keeps everything of `f` behind the header region. */
  ghost predicate Extends(f: Bytes, g: Bytes) {
    |f| <= |g| && forall i :: HEADER_SIZE <= i < |f| ==> g[i] == f[i]
  }

  ghost predicate StoredAt(file: Bytes, off: nat, raw: Bytes) {
    HEADER_SIZE <= off && off + |raw| <= |file| && file[off..off + |raw|] == raw
  }

  function Piece(content: Bytes, a: nat, b: nat): Bytes {
    if a <= b <= |content| then content[a..b] else []
  }

  /** Local block `b` holds contents `d`, sealed under global index `idx`. */
  ghost predicate LocalWritten(cfg: Config, file: Bytes, b: BlockInfo, idx: nat, d: Bytes) {
    var raw := cfg.codec.Seal(cfg.encrypted, d, idx);
    && StoredAt(file, b.offset, raw)
    && b.offset < BLOCK_OFFSET_PARENT
    && b.length == |raw|
    && b.checksum == cfg.codec.crc(raw)
    && b.hash == (if cfg.encrypted then ZERO_HASH else cfg.codec.hash(d))
    && d in cfg.codec.universe
  }

  ghost predicate DelegatedBlock(cfg: Config, b: BlockInfo, d: Bytes) {
    b == ParentBlock(cfg.codec.hash(d), |d|) && d in cfg.codec.universe
  }

  ghost predicate BlockWritten(cfg: Config, file: Bytes, b: BlockInfo, idx: nat, d: Bytes) {
    && b.logicalLen == |d| && b.Fits()
    && ((b == ZeroBlock(|d|) && IsZeroChunk(d)) || DelegatedBlock(cfg, b, d) || LocalWritten(cfg, file, b, idx, d))
  }

  ghost predicate PageWritten(cfg: Config, file: Bytes, p: PageRec, content: Bytes) {
    && p.Shape() && |p.blocks| <= ENTRIES_PER_PAGE
    && p.End() <= |content|
    && forall i {:trigger p.blocks[i]} :: 0 <= i < |p.blocks| ==>
      BlockWritten(cfg, file, p.blocks[i], p.startBlock + i, Piece(content, p.bounds[i], p.bounds[i + 1]))
  }

  ghost predicate EntryWritten(cfg: Config, file: Bytes, e: PageEntry, p: PageRec) {
    && StoredAt(file, e.offset, cfg.codec.encodePage(p.blocks))
    && e.length == |cfg.codec.encodePage(p.blocks)|
  }

  ghost predicate StreamWritten(
    cfg: Config, file: Bytes, entries: seq<PageEntry>, recs: seq<PageRec>, content: Bytes, end: nat)
  {
    && Covers(entries, recs)
    && Chain(recs, end)
    && end <= |content|
    && (forall k {:trigger recs[k]} :: 0 <= k < |recs| ==>
      EntryWritten(cfg, file, entries[k], recs[k]) && PageWritten(cfg, file, recs[k], content))
  }

  /** Block indices of flushed pages stay below `limit`. */
  ghost predicate IndicesBelow(recs: seq<PageRec>, limit: nat) {
    recs != [] ==> recs[|recs| - 1].startBlock + |recs[|recs| - 1].blocks| <= limit
  }

  /** Each dedup entry points at the compressed form of the contents with that hash. */
  ghost predicate DedupSound(cfg: Config, st: WriterState) {
    && (cfg.encrypted ==> st.dedup == map[] && st.hashBuf == ZERO_HASH)
    && forall h :: h in st.dedup ==>
      && h in st.history.stored
      && st.history.stored[h] in cfg.codec.universe
      && cfg.codec.hash(st.history.stored[h]) == h
      && StoredAt(st.out, st.dedup[h], cfg.codec.compress(st.history.stored[h]))
      && st.dedup[h] < BLOCK_OFFSET_PARENT
  }

  /** No index reaches the cipher twice. */
  ghost predicate NoncesFresh(nonces: seq<nat>, next: nat) {
    && (forall i, j :: 0 <= i < j < |nonces| ==> nonces[i] < nonces[j])
    && (forall i :: 0 <= i < |nonces| ==> nonces[i] < next)
  }

  ghost predicate StreamOk(cfg: Config, st: WriterState, s: Stream) {
    && StreamWritten(cfg, st.out, st.master.Pages(s), st.history.Recs(s), st.history.Content(s), st.Flushed(s))
    && IndicesBelow(st.history.Recs(s), st.IndexLimit(s))
  }

  ghost predicate PageOk(cfg: Config, st: WriterState) {
    if !st.streamActive then st.page == []
    else
      && |st.history.bounds| == |st.page| + 1
      && PageWritten(cfg, st.out, st.OpenPage(), st.history.Content(st.Current()))
      && st.OpenPage().Start() == st.pageStartLogical
      && st.OpenPage().End() == st.currentLogicalPos == |st.history.Content(st.Current())|
      && st.pageStartBlock + |st.page| == st.globalBlockIdx
      && |st.page| <= ENTRIES_PER_PAGE
  }

  ghost predicate Inv(cfg: Config, st: WriterState) {
    && st.currentOffset == |st.out| >= HEADER_SIZE
    && StreamOk(cfg, st, Main)
    && StreamOk(cfg, st, Auxiliary)
    && PageOk(cfg, st)
    && DedupSound(cfg, st)
    && NoncesFresh(st.history.nonces, st.globalBlockIdx)
  }

  /** Between two calls the page being filled is never full. */
  ghost predicate Ready(cfg: Config, st: WriterState) { Inv(cfg, st) && |st.page| < ENTRIES_PER_PAGE }

  // ---------------------------------------------------------------------------------------------
  // Growth of the file

  lemma StoredAtExtends(f: Bytes, g: Bytes, off: nat, raw: Bytes)
    requires Extends(f, g) && StoredAt(f, off, raw)
    ensures StoredAt(g, off, raw)
  {
    assert g[off..off + |raw|] == f[off..off + |raw|];
  }

  lemma AppendExtends(f: Bytes, raw: Bytes)
    ensures Extends(f, f + raw)
    ensures |f| >= HEADER_SIZE ==> StoredAt(f + raw, |f|, raw)
  {
  }

  lemma BlockWrittenExtends(cfg: Config, f: Bytes, g: Bytes, b: BlockInfo, idx: nat, d: Bytes)
    requires Extends(f, g) && BlockWritten(cfg, f, b, idx, d)
    ensures BlockWritten(cfg, g, b, idx, d)
  {
    if LocalWritten(cfg, f, b, idx, d) {
      StoredAtExtends(f, g, b.offset, cfg.codec.Seal(cfg.encrypted, d, idx));
    }
  }

  lemma PageWrittenExtends(cfg: Config, f: Bytes, g: Bytes, p: PageRec, c: Bytes, d: Bytes)
    requires Extends(f, g) && PageWritten(cfg, f, p, c)
    ensures PageWritten(cfg, g, p, c + d)
  {
    forall i {:trigger p.blocks[i]} | 0 <= i < |p.blocks|
      ensures BlockWritten(cfg, g, p.blocks[i], p.startBlock + i, Piece(c + d, p.bounds[i], p.bounds[i + 1]))
    {
      p.BoundsSorted(i, i + 1);
      p.BoundsSorted(i + 1, |p.blocks|);
      var x := Piece(c, p.bounds[i], p.bounds[i + 1]);
      assert Piece(c + d, p.bounds[i], p.bounds[i + 1]) == x;
      BlockWrittenExtends(cfg, f, g, p.blocks[i], p.startBlock + i, x);
    }
  }

  lemma StreamWrittenExtends(
    cfg: Config, f: Bytes, g: Bytes, entries: seq<PageEntry>, recs: seq<PageRec>, c: Bytes, d: Bytes, end: nat)
    requires Extends(f, g) && StreamWritten(cfg, f, entries, recs, c, end)
    ensures StreamWritten(cfg, g, entries, recs, c + d, end)
  {
    forall k {:trigger recs[k]} | 0 <= k < |recs|
      ensures EntryWritten(cfg, g, entries[k], recs[k]) && PageWritten(cfg, g, recs[k], c + d)
    {
      StoredAtExtends(f, g, entries[k].offset, cfg.codec.encodePage(recs[k].blocks));
      PageWrittenExtends(cfg, f, g, recs[k], c, d);
    }
  }

  lemma DedupSoundExtends(cfg: Config, st: WriterState, raw: Bytes)
    requires DedupSound(cfg, st)
    ensures DedupSound(cfg, st.(out := st.out + raw, currentOffset := st.currentOffset + |raw|))
  {
    AppendExtends(st.out, raw);
    forall h | h in st.dedup
      ensures StoredAt(st.out + raw, st.dedup[h], cfg.codec.compress(st.history.stored[h]))
    {
      StoredAtExtends(st.out, st.out + raw, st.dedup[h], cfg.codec.compress(st.history.stored[h]));
    }
  }

  function Grown(st: WriterState, raw: Bytes): WriterState {
    st.(out := st.out + raw, currentOffset := st.currentOffset + |raw|)
  }

  lemma StreamOkGrown(cfg: Config, st: WriterState, raw: Bytes, s: Stream)
    requires StreamOk(cfg, st, s)
    ensures StreamOk(cfg, Grown(st, raw), s)
  {
    AppendExtends(st.out, raw);
    StreamWrittenExtends(cfg, st.out, st.out + raw, st.master.Pages(s), st.history.Recs(s), st.history.Content(s), [],
      st.Flushed(s));
    assert st.history.Content(s) + [] == st.history.Content(s);
  }

  lemma PageOkGrown(cfg: Config, st: WriterState, raw: Bytes)
    requires PageOk(cfg, st)
    ensures PageOk(cfg, Grown(st, raw))
  {
    if st.streamActive {
      var c := st.history.Content(st.Current());
      AppendExtends(st.out, raw);
      PageWrittenExtends(cfg, st.out, st.out + raw, st.OpenPage(), c, []);
      assert c + [] == c;
    }
  }

  /** Appending bytes, as every write does, disturbs nothing that is already in the file. */
  lemma GrowthKeepsInv(cfg: Config, st: WriterState, raw: Bytes)
    requires Inv(cfg, st)
    ensures Inv(cfg, Grown(st, raw))
  {
    StreamOkGrown(cfg, st, raw, Main);
    StreamOkGrown(cfg, st, raw, Auxiliary);
    PageOkGrown(cfg, st, raw);
    DedupSoundExtends(cfg, st, raw);
  }

  // ---------------------------------------------------------------------------------------------
  // Each step keeps the invariant

  lemma InitialReady(cfg: Config)
    ensures Ready(cfg, Initial())
  {
  }

  /** A page with one more block, over content with that block's bytes appended. */
  lemma PageWrittenPush(cfg: Config, f: Bytes, p: PageRec, c: Bytes, b: BlockInfo, d: Bytes)
    requires PageWritten(cfg, f, p, c) && p.End() == |c| && |p.blocks| < ENTRIES_PER_PAGE
    requires BlockWritten(cfg, f, b, p.startBlock + |p.blocks|, d)
    ensures PageWritten(cfg, f, PageRec(p.startBlock, p.blocks + [b], p.bounds + [p.End() + b.logicalLen]), c + d)
  {
    assert Extends(f, f);
    PageWrittenExtends(cfg, f, f, p, c, d);
    var q := PageRec(p.startBlock, p.blocks + [b], p.bounds + [p.End() + b.logicalLen]);
    assert |d| == b.logicalLen;
    hide BlockWritten;
    forall i {:trigger q.blocks[i]} | 0 <= i < |q.blocks|
      ensures q.bounds[i + 1] == q.bounds[i] + q.blocks[i].logicalLen
      ensures BlockWritten(cfg, f, q.blocks[i], q.startBlock + i, Piece(c + d, q.bounds[i], q.bounds[i + 1]))
    {
      if i < |p.blocks| {
        assert q.blocks[i] == p.blocks[i] && q.bounds[i] == p.bounds[i] && q.bounds[i + 1] == p.bounds[i + 1];
      } else {
        assert Piece(c + d, |c|, |c| + |d|) == d;
      }
    }
  }

  lemma StreamOkPush(cfg: Config, st: WriterState, b: BlockInfo, d: Bytes, s: Stream)
    requires StreamOk(cfg, st, s) && st.streamActive
    ensures StreamOk(cfg, Push(st, b, d), s)
  {
    hide StreamWritten;
    var extra := if s == st.Current() then d else [];
    assert Extends(st.out, st.out);
    StreamWrittenExtends(cfg, st.out, st.out, st.master.Pages(s), st.history.Recs(s), st.history.Content(s), extra,
      st.Flushed(s));
    assert st.history.Content(s) + [] == st.history.Content(s);
    assert Push(st, b, d).history.Content(s) == st.history.Content(s) + extra;
  }

  lemma PushKeepsInv(cfg: Config, st: WriterState, b: BlockInfo, d: Bytes)
    requires Ready(cfg, st) && st.streamActive
    requires BlockWritten(cfg, st.out, b, st.globalBlockIdx, d)
    ensures Inv(cfg, Push(st, b, d))
  {
    hide StreamOk, StreamWritten;
    StreamOkPush(cfg, st, b, d, Main);
    StreamOkPush(cfg, st, b, d, Auxiliary);
    PageWrittenPush(cfg, st.out, st.OpenPage(), st.history.Content(st.Current()), b, d);
  }

  /** Moving the open page into the index of its stream. */
  lemma StreamWrittenFlush(
    cfg: Config, f: Bytes, entries: seq<PageEntry>, recs: seq<PageRec>, c: Bytes, e: PageEntry, p: PageRec)
    requires PageWritten(cfg, f, p, c) && p.blocks != []
    requires StreamWritten(cfg, f, entries, recs, c, p.Start()) && IndicesBelow(recs, p.startBlock)
    requires EntryWritten(cfg, f, e, p) && e.startBlock == p.startBlock && e.startLogical == p.Start()
    ensures StreamWritten(cfg, f, entries + [e], recs + [p], c, p.End())
  {
    ChainAppend(recs, p.Start(), p);
    var recs', entries' := recs + [p], entries + [e];
    forall k {:trigger recs'[k]} | 0 <= k < |recs'|
      ensures EntryWritten(cfg, f, entries'[k], recs'[k]) && PageWritten(cfg, f, recs'[k], c)
    {
      if k < |recs| { assert recs'[k] == recs[k] && entries'[k] == entries[k]; }
    }
  }

  lemma StreamOkFlushCurrent(cfg: Config, st: WriterState)
    requires cfg.codec.Lawful() && StreamOk(cfg, st, st.Current()) && PageOk(cfg, st) && st.streamActive &&
      st.page != []
    requires st.currentOffset == |st.out| >= HEADER_SIZE
    ensures StreamOk(cfg, FlushPage(cfg, st), st.Current())
  {
    hide StreamWritten, PageWritten, DedupSound;
    var s, raw, p := st.Current(), cfg.codec.encodePage(st.page), st.OpenPage();
    PageEncodable(cfg, st.out, p, st.history.Content(s));
    PageLength(cfg, st.page);
    StreamOkGrown(cfg, st, raw, s);
    PageOkGrown(cfg, st, raw);
    AppendExtends(st.out, raw);
    var e := PageEntry(st.currentOffset, |raw|, st.pageStartBlock, st.pageStartLogical);
    StreamWrittenFlush(cfg, st.out + raw, st.master.Pages(s), st.history.Recs(s), st.history.Content(s), e, p);
  }

  lemma PageLength(cfg: Config, page: seq<BlockInfo>)
    requires cfg.codec.Lawful() && Encodable(page) && page != []
    ensures 0 < |cfg.codec.encodePage(page)| == AsU32(|cfg.codec.encodePage(page)|)
  {
    hide Codec.Lawful;
    cfg.codec.PageFits(page);
  }

  lemma PageEncodable(cfg: Config, file: Bytes, p: PageRec, content: Bytes)
    requires PageWritten(cfg, file, p, content)
    ensures Encodable(p.blocks)
  {
    hide DelegatedBlock, LocalWritten, IsZeroChunk;
    forall i {:trigger p.blocks[i]} | 0 <= i < |p.blocks| ensures p.blocks[i].Fits() {
      assert BlockWritten(cfg, file, p.blocks[i], p.startBlock + i, Piece(content, p.bounds[i], p.bounds[i + 1]));
    }
  }

  lemma DescriptorsFit(cfg: Config, d: Bytes)
    requires cfg.codec.Lawful() && |d| < U32_LIMIT
    ensures ZeroBlock(|d|).Fits() && ParentBlock(cfg.codec.hash(d), |d|).Fits()
  {
    hide Codec.Lawful;
    cfg.codec.Widths(d);
  }

  lemma StreamOkFlushOther(cfg: Config, st: WriterState, s: Stream)
    requires StreamOk(cfg, st, s) && s != st.Current()
    ensures StreamOk(cfg, FlushPage(cfg, st), s)
  {
    StreamOkGrown(cfg, st, cfg.codec.encodePage(st.page), s);
  }

  lemma PageOkFlush(cfg: Config, st: WriterState)
    requires PageOk(cfg, st) && st.streamActive
    ensures PageOk(cfg, FlushPage(cfg, st))
  {
  }

  lemma DedupSoundFlush(cfg: Config, st: WriterState)
    requires DedupSound(cfg, st)
    ensures DedupSound(cfg, FlushPage(cfg, st))
  {
    DedupSoundExtends(cfg, st, cfg.codec.encodePage(st.page));
  }

  lemma FlushKeepsInv(cfg: Config, st: WriterState)
    requires cfg.codec.Lawful() && Inv(cfg, st) && st.streamActive && st.page != []
    ensures Ready(cfg, FlushPage(cfg, st))
  {
    hide StreamOk, PageOk, DedupSound, NoncesFresh;
    StreamOkFlushCurrent(cfg, st);
    StreamOkFlushOther(cfg, st, if st.isMain then Auxiliary else Main);
    PageOkFlush(cfg, st);
    DedupSoundFlush(cfg, st);
  }

  lemma PushBlockReady(cfg: Config, st: WriterState, b: BlockInfo, d: Bytes)
    requires cfg.codec.Lawful() && Ready(cfg, st) && st.streamActive
    requires BlockWritten(cfg, st.out, b, st.globalBlockIdx, d)
    ensures Ready(cfg, PushBlock(cfg, st, b, d))
  {
    PushKeepsInv(cfg, st, b, d);
    if |Push(st, b, d).page| >= ENTRIES_PER_PAGE { FlushKeepsInv(cfg, Push(st, b, d)); }
  }

  // ---------------------------------------------------------------------------------------------
  // Whole operations

  /** What is asked of a chunk: its sizes survive the u32 casts, and offsets stay below the parent sentinel. */
  ghost predicate Storable(cfg: Config, st: WriterState, d: Bytes) {
    && |d| < U32_LIMIT
    && |cfg.codec.Seal(cfg.encrypted, d, st.globalBlockIdx)| < U32_LIMIT
    && d in cfg.codec.universe
    && st.currentOffset < BLOCK_OFFSET_PARENT
  }

  function Remember(st: WriterState, h: Hash, d: Bytes): WriterState {
    st.(dedup := st.dedup[h := st.currentOffset], history := st.history.(stored := st.history.stored[h := d]))
  }

  lemma RememberSound(cfg: Config, st: WriterState, d: Bytes, g: WriterState)
    requires cfg.codec.Lawful() && !cfg.encrypted && d in cfg.codec.universe && st.currentOffset < BLOCK_OFFSET_PARENT
    requires DedupSound(cfg, st) && |st.out| == st.currentOffset >= HEADER_SIZE
    requires g == Grown(Remember(st, cfg.codec.hash(d), d), cfg.codec.compress(d))
    ensures DedupSound(cfg, g) && StoredAt(g.out, st.currentOffset, cfg.codec.compress(d))
  {
    DedupSoundExtends(cfg, st, cfg.codec.compress(d));
    AppendExtends(st.out, cfg.codec.compress(d));
  }

  /** Dedup soundness: storing or reusing leaves the compressed contents at the returned offset. */
  lemma StoreOnceSound(cfg: Config, st: WriterState, d: Bytes)
    requires cfg.codec.Lawful() && Ready(cfg, st) && !cfg.encrypted && Storable(cfg, st, d)
    ensures var (st', off) := StoreOnce(st, cfg.codec.hash(d), cfg.codec.compress(d), d);
      Ready(cfg, st') && StoredAt(st'.out, off, cfg.codec.compress(d)) && off < BLOCK_OFFSET_PARENT
  {
    hide Ready, Codec.Lawful, DedupSound;
    if cfg.codec.hash(d) in st.dedup {
      ReadyDedup(cfg, st);
      HitSound(cfg, st, d);
    } else {
      MissSound(cfg, st, d);
    }
  }

  lemma ReadyDedup(cfg: Config, st: WriterState)
    requires Ready(cfg, st)
    ensures DedupSound(cfg, st)
  {
  }

  lemma HitSound(cfg: Config, st: WriterState, d: Bytes)
    requires cfg.codec.Lawful() && d in cfg.codec.universe
    requires DedupSound(cfg, st) && cfg.codec.hash(d) in st.dedup
    ensures var off := st.dedup[cfg.codec.hash(d)];
      StoredAt(st.out, off, cfg.codec.compress(d)) && off < BLOCK_OFFSET_PARENT
  {
    assert st.history.stored[cfg.codec.hash(d)] == d;
  }

  lemma MissSound(cfg: Config, st: WriterState, d: Bytes)
    requires cfg.codec.Lawful() && Ready(cfg, st) && !cfg.encrypted && d in cfg.codec.universe
    requires st.currentOffset < BLOCK_OFFSET_PARENT
    ensures st.currentOffset == |st.out|
    ensures var g := Grown(Remember(st, cfg.codec.hash(d), d), cfg.codec.compress(d));
      Ready(cfg, g) && StoredAt(g.out, st.currentOffset, cfg.codec.compress(d))
  {
    hide StreamWritten, PageWritten, Codec.Lawful, DedupSound;
    var raw := cfg.codec.compress(d);
    StreamOkGrown(cfg, st, raw, Main);
    StreamOkGrown(cfg, st, raw, Auxiliary);
    PageOkGrown(cfg, st, raw);
    RememberSound(cfg, st, d, Grown(Remember(st, cfg.codec.hash(d), d), raw));
  }

  lemma HashBufIrrelevant(cfg: Config, st: WriterState, h: Hash)
    requires Ready(cfg, st) && !cfg.encrypted
    ensures Ready(cfg, st.(hashBuf := h))
  {
    hide StreamWritten, PageWritten;
  }

  lemma NoncesIrrelevant(cfg: Config, st: WriterState, nonces: seq<nat>)
    requires Ready(cfg, st) && NoncesFresh(nonces, st.globalBlockIdx)
    ensures Ready(cfg, st.(history := st.history.(nonces := nonces)))
  {
    hide StreamWritten, PageWritten, NoncesFresh;
  }

  function WithNonces(st: WriterState, nonces: seq<nat>): WriterState {
    st.(history := st.history.(nonces := nonces))
  }

  /** A plain block is stored, or found again, with a descriptor from which the reader recovers its contents. */
  lemma PlainBlockSound(cfg: Config, st: WriterState, d: Bytes)
    requires cfg.codec.Lawful() && Ready(cfg, st) && Storable(cfg, st, d) && !cfg.encrypted
    ensures var (st', b) := WriteBlock(cfg, st, d);
      Ready(cfg, st') && LocalWritten(cfg, st'.out, b, st.globalBlockIdx, d) && b.logicalLen == |d| && b.Fits()
  {
    hide Ready, Codec.Lawful;
    cfg.codec.Widths(d);
    cfg.codec.Widths(cfg.codec.compress(d));
    HashBufIrrelevant(cfg, st, cfg.codec.hash(d));
    StoreOnceSound(cfg, st.(hashBuf := cfg.codec.hash(d)), d);
  }

  /** An encrypted block is sealed under the next global index, which no earlier block has used. */
  lemma EncryptedBlockSound(cfg: Config, st: WriterState, d: Bytes)
    requires cfg.codec.Lawful() && Ready(cfg, st) && Storable(cfg, st, d) && cfg.encrypted
    ensures var (st', b) := WriteBlock(cfg, st, d);
      && Ready(cfg, WithNonces(st', st.history.nonces))
      && st'.history.nonces == st.history.nonces + [st.globalBlockIdx]
      && LocalWritten(cfg, st'.out, b, st.globalBlockIdx, d) && b.logicalLen == |d| && b.Fits()
  {
    hide Ready, Codec.Lawful;
    var raw := cfg.codec.Seal(true, d, st.globalBlockIdx);
    cfg.codec.Widths(raw);
    EncryptedGrowth(cfg, st, raw);
    AppendExtends(st.out, raw);
    var (st', b) := WriteBlock(cfg, st, d);
    assert WithNonces(st', st.history.nonces) == Grown(st, raw);
  }

  lemma EncryptedGrowth(cfg: Config, st: WriterState, raw: Bytes)
    requires Ready(cfg, st) && cfg.encrypted
    ensures Ready(cfg, Grown(st, raw)) && st.hashBuf == ZERO_HASH && st.currentOffset == |st.out| >= HEADER_SIZE
  {
    hide StreamOk, PageOk, NoncesFresh;
    GrowthKeepsInv(cfg, st, raw);
  }

  lemma DataBlockReady(cfg: Config, st: WriterState, d: Bytes)
    requires cfg.codec.Lawful() && Ready(cfg, st) && st.streamActive && Storable(cfg, st, d)
    ensures Ready(cfg, WriteDataBlock(cfg, st, d))
  {
    hide Ready, LocalWritten, Codec.Lawful, PushBlock;
    DescriptorsFit(cfg, d);
    if IsZeroChunk(d) {
      PushBlockReady(cfg, st, ZeroBlock(|d|), d);
    } else if InParent(cfg, cfg.codec.hash(d)) {
      PushBlockReady(cfg, st, ParentBlock(cfg.codec.hash(d), |d|), d);
    } else if !cfg.encrypted {
      PlainBlockSound(cfg, st, d);
      var (st', b) := WriteBlock(cfg, st, d);
      PushBlockReady(cfg, st', b, d);
    } else {
      EncryptedDataReady(cfg, st, d);
    }
  }

  lemma EncryptedDataReady(cfg: Config, st: WriterState, d: Bytes)
    requires cfg.codec.Lawful() && Ready(cfg, st) && st.streamActive && Storable(cfg, st, d) && cfg.encrypted
    ensures var (st', b) := WriteBlock(cfg, st, d); Ready(cfg, PushBlock(cfg, st', b, d))
  {
    hide StreamOk, PageOk, DedupSound, LocalWritten, Codec.Lawful;
    EncryptedBlockSound(cfg, st, d);
    var (st', b) := WriteBlock(cfg, st, d);
    var st0 := WithNonces(st', st.history.nonces);
    PushBlockReady(cfg, st0, b, d);
    NoncesIrrelevant(cfg, PushBlock(cfg, st0, b, d), st'.history.nonces);
    assert WithNonces(PushBlock(cfg, st0, b, d), st'.history.nonces) == PushBlock(cfg, st', b, d);
  }

  /** What a worker hands over for chunk `d` leads to a block that reads back as `d`. */
  lemma PrecompressedReady(cfg: Config, st: WriterState, d: Bytes)
    requires cfg.codec.Lawful() && Ready(cfg, st) && st.streamActive && Storable(cfg, st, d) && !cfg.encrypted
    ensures Ready(cfg, WritePrecompressed(cfg, st, cfg.codec.compress(d), cfg.codec.hash(d), |d|, d))
  {
    hide Ready, Codec.Lawful, PushBlock;
    var h, raw := cfg.codec.hash(d), cfg.codec.compress(d);
    DescriptorsFit(cfg, d);
    cfg.codec.Widths(raw);
    if InParent(cfg, h) {
      PushBlockReady(cfg, st, ParentBlock(h, |d|), d);
    } else {
      StoreOnceSound(cfg, st, d);
      var (st', off) := StoreOnce(st, h, raw, d);
      PushBlockReady(cfg, st', BlockInfo(off, AsU32(|raw|), |d|, cfg.codec.crc(raw), h), d);
    }
  }

  /** The stream's declared size has been reached: the next session on it starts where this one ended. */
  predicate Settled(st: WriterState, s: Stream) { st.master.Size(s) == |st.history.Content(s)| }

  /** The bytes of the active stream, if there is one, are all in flushed pages. */
  predicate NothingOpen(st: WriterState) {
    st.streamActive ==> st.pageStartLogical == |st.history.Content(st.Current())|
  }

  predicate CanBegin(st: WriterState, s: Stream) { Settled(st, s) && NothingOpen(st) }

  lemma StreamEnd(
    cfg: Config, f: Bytes, entries: seq<PageEntry>, recs: seq<PageRec>, c: Bytes, end: nat, other: nat)
    requires StreamWritten(cfg, f, entries, recs, c, end)
    ensures StreamWritten(cfg, f, entries, recs, c, other) <==> other == end
  {
    hide EntryWritten, PageWritten;
  }

  /** A stream stays in order exactly if the place where its next page would start does not move. */
  lemma BeginStreamOk(cfg: Config, st: WriterState, isMain: bool, total: nat, x: Stream)
    requires StreamOk(cfg, st, x) && PageOk(cfg, st)
    ensures var t := BeginStream(cfg, st, isMain, total); StreamOk(cfg, t, x) <==> t.Flushed(x) == st.Flushed(x)
  {
    hide StreamWritten, PageWritten;
    var t := BeginStream(cfg, st, isMain, total);
    StreamEnd(cfg, st.out, st.master.Pages(x), st.history.Recs(x), st.history.Content(x), st.Flushed(x), t.Flushed(x));
    assert t.master.Pages(x) == st.master.Pages(x) && t.history.Recs(x) == st.history.Recs(x);
    assert t.history.Content(x) == st.history.Content(x) && st.IndexLimit(x) <= t.IndexLimit(x);
  }

  lemma BeginPageOk(cfg: Config, st: WriterState, isMain: bool, total: nat)
    ensures PageOk(cfg, BeginStream(cfg, st, isMain, total)) <==> Settled(st, if isMain then Main else Auxiliary)
  {
    hide BlockWritten;
  }

  lemma BeginDedup(cfg: Config, st: WriterState, isMain: bool, total: nat)
    requires DedupSound(cfg, st)
    ensures DedupSound(cfg, BeginStream(cfg, st, isMain, total))
  {
  }

  /**
   Exactly when a stream may be begun or resumed: otherwise its pages would not start where its bytes end, or the
   open page of the stream before it would be dropped.
   */
  lemma BeginReady(cfg: Config, st: WriterState, isMain: bool, total: nat)
    requires Ready(cfg, st)
    ensures Ready(cfg, BeginStream(cfg, st, isMain, total)) <==> CanBegin(st, if isMain then Main else Auxiliary)
  {
    hide StreamOk, PageOk, DedupSound;
    BeginStreamOk(cfg, st, isMain, total, Main);
    BeginStreamOk(cfg, st, isMain, total, Auxiliary);
    BeginPageOk(cfg, st, isMain, total);
    BeginDedup(cfg, st, isMain, total);
  }

  lemma EndReady(cfg: Config, st: WriterState)
    requires cfg.codec.Lawful() && Ready(cfg, st)
    ensures Ready(cfg, EndStream(cfg, st))
  {
    if st.page != [] {
      FlushKeepsInv(cfg, st);
      DeactivateReady(cfg, FlushPage(cfg, st));
    } else if st.streamActive {
      DeactivateReady(cfg, st);
    }
  }

  lemma DeactivateReady(cfg: Config, st: WriterState)
    requires Ready(cfg, st) && st.streamActive && st.page == []
    ensures Ready(cfg, st.(streamActive := false))
  {
    hide StreamWritten;
    assert st.pageStartLogical == st.currentLogicalPos;
  }

  lemma FlushStreamReady(cfg: Config, st: WriterState)
    requires cfg.codec.Lawful() && Ready(cfg, st)
    ensures Ready(cfg, FlushStream(cfg, st))
  {
    hide StreamOk, PageOk, DedupSound;
    if st.streamActive && st.page != [] { FlushKeepsInv(cfg, st); }
  }

  lemma DictionaryReady(cfg: Config, st: WriterState, dict: Bytes)
    requires Ready(cfg, st)
    ensures Ready(cfg, WriteDictionary(st, dict))
  {
    hide StreamWritten, PageWritten;
    GrowthKeepsInv(cfg, st, dict);
  }
}
