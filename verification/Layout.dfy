// Where things lie in the file: every appended piece, in order, and what each descriptor points at.
module Layout {
  import opened Common
  import opened Format
  import opened Index
  import opened WriterModel
  import opened WriterRuns

  datatype Kind = DictionaryBytes | BlockBytes | PageBytes

  datatype Region = Region(start: nat, end: nat, kind: Kind)

  /** Non-empty regions, each starting where the one before it ends, from the end of the header to `upto`. */
  ghost predicate Tiles(rs: seq<Region>, upto: nat) {
    && (rs == [] ==> upto == HEADER_SIZE)
    && (rs != [] ==> rs[0].start == HEADER_SIZE && rs[|rs| - 1].end == upto)
    && (forall k {:trigger rs[k]} :: 0 <= k < |rs| ==> rs[k].start < rs[k].end)
    && (forall k {:trigger rs[k]} :: 0 < k < |rs| ==> rs[k - 1].end == rs[k].start)
  }

  function Mark(rs: seq<Region>, from: nat, to: nat, kind: Kind): seq<Region> {
    if from < to then rs + [Region(from, to, kind)] else rs
  }

  lemma MarkTiles(rs: seq<Region>, from: nat, to: nat, kind: Kind)
    requires Tiles(rs, from) && from <= to
    ensures Tiles(Mark(rs, from, to, kind), to)
    ensures forall r :: r in rs ==> r in Mark(rs, from, to, kind)
    ensures from < to ==> Region(from, to, kind) in Mark(rs, from, to, kind)
  {
    var more := Mark(rs, from, to, kind);
    forall k {:trigger more[k]} | 0 < k < |more| ensures more[k - 1].end == more[k].start {
      if k < |rs| { assert more[k] == rs[k] && more[k - 1] == rs[k - 1]; }
    }
  }

  lemma MarkNothing(rs: seq<Region>, at: nat, kind: Kind)
    ensures Mark(rs, at, at, kind) == rs
  {
  }

  lemma {:induction false} TilesSorted(rs: seq<Region>, upto: nat, i: nat, j: nat)
    requires Tiles(rs, upto) && i < j < |rs|
    ensures rs[i].end <= rs[j].start
    decreases j
  {
    assert rs[j - 1].end == rs[j].start;
    if i < j - 1 { TilesSorted(rs, upto, i, j - 1); }
  }

  /** Two regions of a tiling are the same or share no byte. */
  lemma SameOrApart(rs: seq<Region>, upto: nat, a: Region, b: Region)
    requires Tiles(rs, upto) && a in rs && b in rs
    ensures a == b || a.end <= b.start || b.end <= a.start
  {
    var i :| 0 <= i < |rs| && rs[i] == a;
    var j :| 0 <= j < |rs| && rs[j] == b;
    if i < j { TilesSorted(rs, upto, i, j); }
    if j < i { TilesSorted(rs, upto, j, i); }
  }

  // ---------------------------------------------------------------------------------------------
  // The regions of a run

  /** Where the file ends once the block of a call is stored, and before a full page is flushed. */
  function AfterBlock(cfg: Config, st: WriterState, op: Op): nat {
    match op
    case Data(d) =>
      if IsZeroChunk(d) || InParent(cfg, cfg.codec.hash(d)) then st.currentOffset
      else WriteBlock(cfg, st, d).0.currentOffset
    case Precompressed(d) =>
      if InParent(cfg, cfg.codec.hash(d)) then st.currentOffset
      else StoreOnce(st, cfg.codec.hash(d), cfg.codec.compress(d), d).0.currentOffset
    case _ => st.currentOffset
  }

  function Track(cfg: Config, st: WriterState, op: Op, rs: seq<Region>): seq<Region> {
    var end := Apply(cfg, st, op).currentOffset;
    if op.Dictionary? then Mark(rs, st.currentOffset, end, DictionaryBytes)
    else
      var mid := AfterBlock(cfg, st, op);
      Mark(Mark(rs, st.currentOffset, mid, BlockBytes), mid, end, PageBytes)
  }

  function TrackAll(cfg: Config, st: WriterState, ops: seq<Op>, rs: seq<Region>): seq<Region>
    decreases |ops|
  {
    if ops == [] then rs else TrackAll(cfg, Apply(cfg, st, ops[0]), ops[1..], Track(cfg, st, ops[0], rs))
  }

  predicate Occupies(rs: seq<Region>, offset: nat, length: nat, kind: Kind) {
    length > 0 ==> Region(offset, offset + length, kind) in rs
  }

  predicate IsStored(b: BlockInfo) { !b.ReadsAsZero() && b.offset != BLOCK_OFFSET_PARENT }

  predicate BlocksOccupy(rs: seq<Region>, bs: seq<BlockInfo>) {
    forall i {:trigger bs[i]} :: 0 <= i < |bs| && IsStored(bs[i]) ==>
      Occupies(rs, bs[i].offset, bs[i].length, BlockBytes)
  }

  /** Every page of a stream, and every stored block it lists, is a region of its own. */
  ghost predicate PagesOccupy(rs: seq<Region>, entries: seq<PageEntry>, recs: seq<PageRec>) {
    && (forall k {:trigger entries[k]} :: 0 <= k < |entries| ==>
      Occupies(rs, entries[k].offset, entries[k].length, PageBytes))
    && (forall k {:trigger recs[k]} :: 0 <= k < |recs| ==> BlocksOccupy(rs, recs[k].blocks))
  }

  ghost predicate DedupOccupies(cfg: Config, st: WriterState, rs: seq<Region>) {
    forall h {:trigger h in st.dedup} :: h in st.dedup && h in st.history.stored ==>
      Occupies(rs, st.dedup[h], |cfg.codec.compress(st.history.stored[h])|, BlockBytes)
  }

  ghost predicate LaidOut(cfg: Config, st: WriterState, rs: seq<Region>) {
    && Tiles(rs, st.currentOffset)
    && DedupOccupies(cfg, st, rs)
    && PagesOccupy(rs, st.master.mainPages, st.history.mainRecs)
    && PagesOccupy(rs, st.master.auxiliaryPages, st.history.auxRecs)
    && BlocksOccupy(rs, st.page)
  }

  lemma LaidOutMore(cfg: Config, st: WriterState, rs: seq<Region>, more: seq<Region>, st': WriterState)
    requires LaidOut(cfg, st, rs) && (forall r :: r in rs ==> r in more) && Tiles(more, st'.currentOffset)
    requires st'.dedup == st.dedup && st'.history.stored == st.history.stored && st'.page == st.page
    requires st'.master.mainPages == st.master.mainPages && st'.master.auxiliaryPages == st.master.auxiliaryPages
    requires st'.history.mainRecs == st.history.mainRecs && st'.history.auxRecs == st.history.auxRecs
    ensures LaidOut(cfg, st', more)
  {
    hide Tiles;
  }

  lemma PushLaidOut(cfg: Config, st: WriterState, b: BlockInfo, d: Bytes, rs: seq<Region>)
    requires LaidOut(cfg, st, rs) && (IsStored(b) ==> Occupies(rs, b.offset, b.length, BlockBytes))
    ensures LaidOut(cfg, Push(st, b, d), rs)
  {
    hide Tiles, Occupies;
  }

  lemma PagesMore(rs: seq<Region>, entries: seq<PageEntry>, recs: seq<PageRec>, e: PageEntry, p: PageRec)
    requires PagesOccupy(rs, entries, recs) && Occupies(rs, e.offset, e.length, PageBytes) && BlocksOccupy(rs, p.blocks)
    ensures PagesOccupy(rs, entries + [e], recs + [p])
  {
    hide Occupies, BlocksOccupy;
  }

  lemma FlushLaidOut(cfg: Config, st: WriterState, rs: seq<Region>)
    requires cfg.codec.Lawful() && LaidOut(cfg, st, rs) && st.page != [] && Encodable(st.page)
    ensures LaidOut(cfg, FlushPage(cfg, st), Mark(rs, st.currentOffset, FlushPage(cfg, st).currentOffset, PageBytes))
  {
    hide *;
    cfg.codec.PageFits(st.page);
    TilesSoFar(cfg, st, rs);
    var t := FlushPage(cfg, st);
    var e := FlushShape(cfg, st);
    var more := Mark(rs, st.currentOffset, t.currentOffset, PageBytes);
    MarkTiles(rs, st.currentOffset, t.currentOffset, PageBytes);
    RegionOccupies(more, e.offset, e.length, PageBytes);
    PageMoves(cfg, st, t, rs, more, e);
  }

  lemma FlushShape(cfg: Config, st: WriterState) returns (e: PageEntry)
    requires 0 < |cfg.codec.encodePage(st.page)| < U32_LIMIT
    ensures var t := FlushPage(cfg, st);
      && e.offset == st.currentOffset && t.currentOffset == st.currentOffset + e.length && e.length > 0
      && t.dedup == st.dedup && t.history.stored == st.history.stored && t.page == []
      && t.master == st.master.AddPage(st.Current(), e)
      && t.history.mainRecs == st.history.AddRec(st.Current(), st.OpenPage()).mainRecs
      && t.history.auxRecs == st.history.AddRec(st.Current(), st.OpenPage()).auxRecs
  {
    e := PageEntry(st.currentOffset, |cfg.codec.encodePage(st.page)|, st.pageStartBlock, st.pageStartLogical);
  }

  lemma RegionOccupies(rs: seq<Region>, offset: nat, length: nat, kind: Kind)
    requires length > 0 ==> Region(offset, offset + length, kind) in rs
    ensures Occupies(rs, offset, length, kind)
  {
  }

  /** More regions do no harm. */
  lemma Wider(rs: seq<Region>, more: seq<Region>, entries: seq<PageEntry>, recs: seq<PageRec>, bs: seq<BlockInfo>)
    requires PagesOccupy(rs, entries, recs) && BlocksOccupy(rs, bs) && forall r :: r in rs ==> r in more
    ensures PagesOccupy(more, entries, recs) && BlocksOccupy(more, bs)
  {
  }

  lemma PageMoves(cfg: Config, st: WriterState, t: WriterState, rs: seq<Region>, more: seq<Region>, e: PageEntry)
    requires LaidOut(cfg, st, rs) && Occupies(more, e.offset, e.length, PageBytes)
    requires (forall r :: r in rs ==> r in more) && Tiles(more, t.currentOffset)
    requires t.dedup == st.dedup && t.history.stored == st.history.stored && t.page == []
    requires t.master == st.master.AddPage(st.Current(), e)
    requires t.history.mainRecs == st.history.AddRec(st.Current(), st.OpenPage()).mainRecs
    requires t.history.auxRecs == st.history.AddRec(st.Current(), st.OpenPage()).auxRecs
    ensures LaidOut(cfg, t, more)
  {
    assert DedupOccupies(cfg, t, more);
    hide Tiles, Occupies, BlocksOccupy, PagesOccupy, DedupOccupies;
    Wider(rs, more, st.master.mainPages, st.history.mainRecs, st.page);
    Wider(rs, more, st.master.auxiliaryPages, st.history.auxRecs, st.page);
    NoBlocks(more);
    if st.isMain {
      PagesMore(more, st.master.mainPages, st.history.mainRecs, e, st.OpenPage());
    } else {
      PagesMore(more, st.master.auxiliaryPages, st.history.auxRecs, e, st.OpenPage());
    }
  }

  lemma NoBlocks(rs: seq<Region>)
    ensures BlocksOccupy(rs, [])
  {
  }

  lemma OneMoreFits(page: seq<BlockInfo>, b: BlockInfo)
    requires Encodable(page) && b.Fits() && |page| < ENTRIES_PER_PAGE
    ensures Encodable(page + [b])
  {
  }

  lemma OpenPageFits(cfg: Config, st: WriterState)
    requires Ready(cfg, st)
    ensures Encodable(st.page)
  {
    hide StreamOk, DedupSound, PageWritten;
    if st.streamActive { PageEncodable(cfg, st.out, st.OpenPage(), st.history.Content(st.Current())); }
  }

  /** The descriptor of a block that has just been stored, or found again. */
  lemma StoredFits(cfg: Config, st: WriterState, d: Bytes)
    requires cfg.codec.Lawful() && DedupSound(cfg, st) && Storable(cfg, st, d)
    ensures WriteBlock(cfg, st, d).1.Fits()
  {
    hide Codec.Lawful, StoredAt;
    cfg.codec.Widths(d);
    cfg.codec.Widths(cfg.codec.Seal(cfg.encrypted, d, st.globalBlockIdx));
  }

  lemma PushBlockLaidOut(cfg: Config, st: WriterState, b: BlockInfo, d: Bytes, rs: seq<Region>)
    requires cfg.codec.Lawful() && LaidOut(cfg, st, rs) && |st.page| < ENTRIES_PER_PAGE && Encodable(st.page) &&
      b.Fits()
    requires IsStored(b) ==> Occupies(rs, b.offset, b.length, BlockBytes)
    ensures LaidOut(cfg, PushBlock(cfg, st, b, d),
      Mark(rs, st.currentOffset, PushBlock(cfg, st, b, d).currentOffset, PageBytes))
  {
    hide LaidOut, Codec.Lawful, FlushPage, IsStored, Occupies;
    PushLaidOut(cfg, st, b, d, rs);
    var st' := Push(st, b, d);
    OneMoreFits(st.page, b);
    if |st'.page| >= ENTRIES_PER_PAGE { FlushLaidOut(cfg, st', rs); }
  }

  /** Storing a block, or finding it stored, leaves its region known. */
  lemma StoreLaidOut(cfg: Config, st: WriterState, d: Bytes, rs: seq<Region>)
    requires LaidOut(cfg, st, rs) && DedupSound(cfg, st) && d in cfg.codec.universe && cfg.codec.Lawful()
    requires |cfg.codec.compress(d)| < U32_LIMIT
    ensures var (t, off) := StoreOnce(st, cfg.codec.hash(d), cfg.codec.compress(d), d);
      var more := Mark(rs, st.currentOffset, t.currentOffset, BlockBytes);
      LaidOut(cfg, t, more) && Occupies(more, off, |cfg.codec.compress(d)|, BlockBytes)
  {
    hide *;
    TilesSoFar(cfg, st, rs);
    var h, raw := cfg.codec.hash(d), cfg.codec.compress(d);
    var (t, off) := StoreOnce(st, h, raw, d);
    StoreShape(st, h, raw, d);
    if h in st.dedup {
      KnownBlock(cfg, st, d, rs);
      MarkNothing(rs, st.currentOffset, BlockBytes);
    } else {
      var more := Mark(rs, st.currentOffset, t.currentOffset, BlockBytes);
      MarkTiles(rs, st.currentOffset, t.currentOffset, BlockBytes);
      RegionOccupies(more, off, |raw|, BlockBytes);
      var grown := st.(currentOffset := t.currentOffset);
      LaidOutMore(cfg, st, rs, more, grown);
      Remembered(cfg, grown, t, off, d, more);
    }
  }

  lemma StoreShape(st: WriterState, h: Hash, raw: Bytes, d: Bytes)
    requires |raw| < U32_LIMIT
    ensures var (t, off) := StoreOnce(st, h, raw, d);
      if h in st.dedup then t == st && off == st.dedup[h]
      else
        && off == st.currentOffset && t.currentOffset == st.currentOffset + |raw|
        && t.page == st.page && t.master == st.master && t.dedup == st.dedup[h := off]
        && t.history == st.history.(stored := st.history.stored[h := d])
  {
  }

  lemma TilesSoFar(cfg: Config, st: WriterState, rs: seq<Region>)
    requires LaidOut(cfg, st, rs)
    ensures Tiles(rs, st.currentOffset)
  {
  }

  lemma KnownBlock(cfg: Config, st: WriterState, d: Bytes, rs: seq<Region>)
    requires LaidOut(cfg, st, rs) && DedupSound(cfg, st) && d in cfg.codec.universe && cfg.codec.Lawful()
    requires cfg.codec.hash(d) in st.dedup
    ensures Occupies(rs, st.dedup[cfg.codec.hash(d)], |cfg.codec.compress(d)|, BlockBytes)
  {
    hide Codec.Lawful;
    cfg.codec.NoCollision(st.history.stored[cfg.codec.hash(d)], d);
    hide Tiles, PagesOccupy, BlocksOccupy, StoredAt;
  }

  lemma Remembered(cfg: Config, st: WriterState, t: WriterState, off: nat, d: Bytes, rs: seq<Region>)
    requires LaidOut(cfg, st, rs) && Occupies(rs, off, |cfg.codec.compress(d)|, BlockBytes)
    requires t.currentOffset == st.currentOffset && t.page == st.page && t.master == st.master
    requires t.dedup == st.dedup[cfg.codec.hash(d) := off]
    requires t.history == st.history.(stored := st.history.stored[cfg.codec.hash(d) := d])
    ensures LaidOut(cfg, t, rs)
  {
    hide Tiles, PagesOccupy, BlocksOccupy, Occupies;
  }

  /** Storing a block of either kind leaves its region known. */
  lemma BlockLaidOut(cfg: Config, st: WriterState, d: Bytes, rs: seq<Region>)
    requires cfg.codec.Lawful() && LaidOut(cfg, st, rs) && DedupSound(cfg, st) && Storable(cfg, st, d)
    ensures var (t, b) := WriteBlock(cfg, st, d);
      var more := Mark(rs, st.currentOffset, t.currentOffset, BlockBytes);
      LaidOut(cfg, t, more) && Occupies(more, b.offset, b.length, BlockBytes) && t.page == st.page
  {
    hide Codec.Lawful, LaidOut, Tiles, DedupSound, Mark;
    TilesSoFar(cfg, st, rs);
    if cfg.encrypted {
      SealedLaidOut(cfg, st, d, rs);
    } else {
      var hashed := st.(hashBuf := cfg.codec.hash(d));
      LaidOutMore(cfg, st, rs, rs, hashed);
      SoundWithHash(cfg, st, cfg.codec.hash(d));
      hide StoreOnce;
      StoreLaidOut(cfg, hashed, d, rs);
      StoreShape(hashed, cfg.codec.hash(d), cfg.codec.compress(d), d);
    }
  }

  lemma SealedLaidOut(cfg: Config, st: WriterState, d: Bytes, rs: seq<Region>)
    requires LaidOut(cfg, st, rs) && cfg.encrypted && |cfg.codec.Seal(true, d, st.globalBlockIdx)| < U32_LIMIT
    ensures var (t, b) := WriteBlock(cfg, st, d);
      var more := Mark(rs, st.currentOffset, t.currentOffset, BlockBytes);
      LaidOut(cfg, t, more) && Occupies(more, b.offset, b.length, BlockBytes) && t.page == st.page
  {
    hide LaidOut, Tiles, Mark, Codec.Seal;
    var t := WriteBlock(cfg, st, d).0;
    var more := Mark(rs, st.currentOffset, t.currentOffset, BlockBytes);
    TilesSoFar(cfg, st, rs);
    MarkTiles(rs, st.currentOffset, t.currentOffset, BlockBytes);
    LaidOutMore(cfg, st, rs, more, t);
  }

  lemma SoundWithHash(cfg: Config, st: WriterState, h: Hash)
    requires DedupSound(cfg, st) && !cfg.encrypted
    ensures DedupSound(cfg, st.(hashBuf := h))
  {
  }

  // ---------------------------------------------------------------------------------------------
  // Whole runs

  lemma DataLaidOut(cfg: Config, st: WriterState, d: Bytes, rs: seq<Region>)
    requires cfg.codec.Lawful() && Ready(cfg, st) && Permitted(cfg, st, Data(d)) && LaidOut(cfg, st, rs)
    ensures LaidOut(cfg, Apply(cfg, st, Data(d)), Track(cfg, st, Data(d), rs))
  {
    assert DedupSound(cfg, st) && |st.page| < ENTRIES_PER_PAGE;
    OpenPageFits(cfg, st);
    hide Ready, Codec.Lawful, LaidOut, DedupSound, WriteDataBlock, Storable;
    DataBlockLaidOut(cfg, st, d, rs);
  }

  lemma DataBlockLaidOut(cfg: Config, st: WriterState, d: Bytes, rs: seq<Region>)
    requires cfg.codec.Lawful() && LaidOut(cfg, st, rs) && DedupSound(cfg, st) && Storable(cfg, st, d)
    requires |st.page| < ENTRIES_PER_PAGE && Encodable(st.page)
    ensures var t := WriteDataBlock(cfg, st, d);
      LaidOut(cfg, t, Mark(Mark(rs, st.currentOffset, AfterBlock(cfg, st, Data(d)), BlockBytes),
                           AfterBlock(cfg, st, Data(d)), t.currentOffset, PageBytes))
  {
    DescriptorsFit(cfg, d);
    StoredFits(cfg, st, d);
    hide Codec.Lawful, LaidOut, Mark, PushBlock, WriteBlock, DedupSound, Storable, Encodable, BlockInfo.Fits;
    MarkNothing(rs, st.currentOffset, BlockBytes);
    if IsZeroChunk(d) {
      PushBlockLaidOut(cfg, st, ZeroBlock(AsU32(|d|)), d, rs);
    } else if InParent(cfg, cfg.codec.hash(d)) {
      PushBlockLaidOut(cfg, st, ParentBlock(cfg.codec.hash(d), AsU32(|d|)), d, rs);
    } else {
      var (t, b) := WriteBlock(cfg, st, d);
      BlockLaidOut(cfg, st, d, rs);
      PushBlockLaidOut(cfg, t, b, d, Mark(rs, st.currentOffset, t.currentOffset, BlockBytes));
    }
  }

  lemma PrecompressedLaidOut(cfg: Config, st: WriterState, d: Bytes, rs: seq<Region>)
    requires cfg.codec.Lawful() && Ready(cfg, st) && Permitted(cfg, st, Precompressed(d)) && LaidOut(cfg, st, rs)
    ensures LaidOut(cfg, Apply(cfg, st, Precompressed(d)), Track(cfg, st, Precompressed(d), rs))
  {
    assert DedupSound(cfg, st) && |st.page| < ENTRIES_PER_PAGE && |cfg.codec.compress(d)| < U32_LIMIT;
    OpenPageFits(cfg, st);
    hide Ready, Codec.Lawful, LaidOut, DedupSound, WritePrecompressed;
    PrecompressedBlockLaidOut(cfg, st, d, rs);
  }

  lemma SamePage(st: WriterState, h: Hash, raw: Bytes, d: Bytes)
    ensures StoreOnce(st, h, raw, d).0.page == st.page
  {
  }

  lemma SmallCast(n: nat)
    requires n < U32_LIMIT
    ensures AsU32(n) == n
  {
  }

  /** The descriptor made for a chunk that arrives compressed. */
  function PrecompressedBlock(cfg: Config, st: WriterState, d: Bytes): BlockInfo {
    var h, raw := cfg.codec.hash(d), cfg.codec.compress(d);
    BlockInfo(StoreOnce(st, h, raw, d).1, AsU32(|raw|), |d|, cfg.codec.crc(raw), h)
  }

  lemma PrecompressedFits(cfg: Config, st: WriterState, d: Bytes)
    requires cfg.codec.Lawful() && DedupSound(cfg, st) && st.currentOffset < BLOCK_OFFSET_PARENT && |d| < U32_LIMIT
    ensures PrecompressedBlock(cfg, st, d).Fits()
  {
    hide Codec.Lawful, StoredAt;
    cfg.codec.Widths(d);
    cfg.codec.Widths(cfg.codec.compress(d));
  }

  lemma PrecompressedBlockLaidOut(cfg: Config, st: WriterState, d: Bytes, rs: seq<Region>)
    requires cfg.codec.Lawful() && LaidOut(cfg, st, rs) && DedupSound(cfg, st) && d in cfg.codec.universe
    requires |st.page| < ENTRIES_PER_PAGE && Encodable(st.page) && |cfg.codec.compress(d)| < U32_LIMIT
    requires |d| < U32_LIMIT && st.currentOffset < BLOCK_OFFSET_PARENT
    ensures var t := WritePrecompressed(cfg, st, cfg.codec.compress(d), cfg.codec.hash(d), |d|, d);
      LaidOut(cfg, t, Mark(Mark(rs, st.currentOffset, AfterBlock(cfg, st, Precompressed(d)), BlockBytes),
                           AfterBlock(cfg, st, Precompressed(d)), t.currentOffset, PageBytes))
  {
    hide Codec.Lawful, LaidOut, Mark, PushBlock, StoreOnce, DedupSound, Encodable, BlockInfo.Fits, AsU32;
    DescriptorsFit(cfg, d);
    PrecompressedFits(cfg, st, d);
    MarkNothing(rs, st.currentOffset, BlockBytes);
    if InParent(cfg, cfg.codec.hash(d)) {
      PushBlockLaidOut(cfg, st, ParentBlock(cfg.codec.hash(d), |d|), d, rs);
    } else {
      var t := StoreOnce(st, cfg.codec.hash(d), cfg.codec.compress(d), d).0;
      StoreLaidOut(cfg, st, d, rs);
      SamePage(st, cfg.codec.hash(d), cfg.codec.compress(d), d);
      SmallCast(|cfg.codec.compress(d)|);
      PushBlockLaidOut(cfg, t, PrecompressedBlock(cfg, st, d), d,
        Mark(rs, st.currentOffset, t.currentOffset, BlockBytes));
    }
  }

  lemma DictionaryLaidOut(cfg: Config, st: WriterState, dict: Bytes, rs: seq<Region>)
    requires LaidOut(cfg, st, rs)
    ensures LaidOut(cfg, Apply(cfg, st, Dictionary(dict)), Track(cfg, st, Dictionary(dict), rs))
  {
    hide LaidOut, Tiles, Mark;
    TilesSoFar(cfg, st, rs);
    var t := WriteDictionary(st, dict);
    MarkTiles(rs, st.currentOffset, t.currentOffset, DictionaryBytes);
    LaidOutMore(cfg, st, rs, Mark(rs, st.currentOffset, t.currentOffset, DictionaryBytes), t);
  }

  lemma BeginLaidOut(cfg: Config, st: WriterState, isMain: bool, total: nat, rs: seq<Region>)
    requires LaidOut(cfg, st, rs)
    ensures LaidOut(cfg, BeginStream(cfg, st, isMain, total), rs)
  {
    hide Tiles, Occupies, PagesOccupy;
  }

  lemma FlushOpLaidOut(cfg: Config, st: WriterState, op: Op, rs: seq<Region>)
    requires cfg.codec.Lawful() && Ready(cfg, st) && LaidOut(cfg, st, rs) && (op.Flush? || op.End?)
    ensures LaidOut(cfg, Apply(cfg, st, op), Track(cfg, st, op, rs))
  {
    OpenPageFits(cfg, st);
    hide Ready, Codec.Lawful, LaidOut, Tiles, Mark, FlushPage;
    MarkNothing(rs, st.currentOffset, BlockBytes);
    MarkNothing(rs, st.currentOffset, PageBytes);
    TilesSoFar(cfg, st, rs);
    var t := if st.page != [] then FlushPage(cfg, st) else st;
    var more := Mark(rs, st.currentOffset, t.currentOffset, PageBytes);
    if st.page != [] { FlushLaidOut(cfg, st, rs); }
    if op.End? {
      TilesSoFar(cfg, t, more);
      LaidOutMore(cfg, t, more, more, t.(streamActive := false));
    }
  }

  lemma ApplyLaidOut(cfg: Config, st: WriterState, op: Op, rs: seq<Region>)
    requires cfg.codec.Lawful() && Ready(cfg, st) && Permitted(cfg, st, op) && LaidOut(cfg, st, rs)
    ensures LaidOut(cfg, Apply(cfg, st, op), Track(cfg, st, op, rs))
  {
    match op
    case Dictionary(dict) => DictionaryLaidOut(cfg, st, dict, rs);
    case Begin(isMain, total) =>
      BeginLaidOut(cfg, st, isMain, total, rs);
      hide LaidOut, Ready;
    case Data(d) => DataLaidOut(cfg, st, d, rs);
    case Precompressed(d) => PrecompressedLaidOut(cfg, st, d, rs);
    case Delegate(d) =>
      assert |st.page| < ENTRIES_PER_PAGE;
      OpenPageFits(cfg, st);
      DescriptorsFit(cfg, d);
      hide Ready, Codec.Lawful, LaidOut, Mark, PushBlock;
      MarkNothing(rs, st.currentOffset, BlockBytes);
      PushBlockLaidOut(cfg, st, ParentBlock(cfg.codec.hash(d), |d|), d, rs);
    case Flush => FlushOpLaidOut(cfg, st, op, rs);
    case End => FlushOpLaidOut(cfg, st, op, rs);
  }

  /**
   Physical layout. After every permitted run, dictionary, blocks and pages tile the file from the end of the
   header without gap or overlap, and every index entry and every stored block is one of these regions.
   */
  lemma {:induction false} RunLaidOut(cfg: Config, st: WriterState, ops: seq<Op>, rs: seq<Region>)
    requires cfg.codec.Lawful() && Ready(cfg, st) && RunPermitted(cfg, st, ops) && LaidOut(cfg, st, rs)
    ensures LaidOut(cfg, Run(cfg, st, ops), TrackAll(cfg, st, ops, rs))
    decreases |ops|
  {
    hide Codec.Lawful, Ready, Permitted, Apply, LaidOut, Track;
    if ops != [] {
      ApplyReady(cfg, st, ops[0]);
      ApplyLaidOut(cfg, st, ops[0], rs);
      RunLaidOut(cfg, Apply(cfg, st, ops[0]), ops[1..], Track(cfg, st, ops[0], rs));
    }
  }

  lemma InitialLaidOut(cfg: Config)
    ensures LaidOut(cfg, Initial(), [])
  {
  }

  /** A stored block of a flushed page of stream `s`. */
  ghost predicate Lists(st: WriterState, s: Stream, k: nat, i: nat) {
    k < |st.history.Recs(s)| && i < |st.history.Recs(s)[k].blocks| && IsStored(st.history.Recs(s)[k].blocks[i])
  }

  /** Two stored blocks share all their bytes or none; and no stored block shares a byte with an index page. */
  lemma BlocksApart(cfg: Config, ops: seq<Op>, s: Stream, k: nat, i: nat, t: Stream, l: nat, j: nat, m: nat)
    requires cfg.codec.Lawful() && RunPermitted(cfg, Initial(), ops)
    ensures var st := Run(cfg, Initial(), ops);
      Lists(st, s, k, i) && st.history.Recs(s)[k].blocks[i].length > 0 ==>
        var b := st.history.Recs(s)[k].blocks[i];
        && HEADER_SIZE <= b.offset && b.offset + b.length <= st.currentOffset
        && (Lists(st, t, l, j) && st.history.Recs(t)[l].blocks[j].length > 0 ==>
            var c := st.history.Recs(t)[l].blocks[j];
            || (b.offset == c.offset && b.length == c.length)
            || b.offset + b.length <= c.offset || c.offset + c.length <= b.offset)
        && (m < |st.master.Pages(t)| && st.master.Pages(t)[m].length > 0 ==>
            var e := st.master.Pages(t)[m];
            b.offset + b.length <= e.offset || e.offset + e.length <= b.offset)
  {
    hide *;
    InitialReady(cfg);
    InitialLaidOut(cfg);
    RunLaidOut(cfg, Initial(), ops, []);
    LaidOutApart(cfg, Run(cfg, Initial(), ops), TrackAll(cfg, Initial(), ops, []), s, k, i, t, l, j, m);
  }

  lemma LaidOutApart(
    cfg: Config, st: WriterState, rs: seq<Region>, s: Stream, k: nat, i: nat, t: Stream, l: nat, j: nat, m: nat)
    requires LaidOut(cfg, st, rs)
    ensures Lists(st, s, k, i) && st.history.Recs(s)[k].blocks[i].length > 0 ==>
      var b := st.history.Recs(s)[k].blocks[i];
      && HEADER_SIZE <= b.offset && b.offset + b.length <= st.currentOffset
      && (Lists(st, t, l, j) && st.history.Recs(t)[l].blocks[j].length > 0 ==>
          var c := st.history.Recs(t)[l].blocks[j];
          || (b.offset == c.offset && b.length == c.length)
          || b.offset + b.length <= c.offset || c.offset + c.length <= b.offset)
      && (m < |st.master.Pages(t)| && st.master.Pages(t)[m].length > 0 ==>
          var e := st.master.Pages(t)[m];
          b.offset + b.length <= e.offset || e.offset + e.length <= b.offset)
  {
    hide LaidOut, Tiles;
    TilesSoFar(cfg, st, rs);
    if Lists(st, s, k, i) && st.history.Recs(s)[k].blocks[i].length > 0 {
      var b := BlockRegion(cfg, st, rs, s, k, i);
      InTiling(rs, st.currentOffset, b);
      if Lists(st, t, l, j) && st.history.Recs(t)[l].blocks[j].length > 0 {
        var c := BlockRegion(cfg, st, rs, t, l, j);
        SameOrApart(rs, st.currentOffset, b, c);
      }
      if m < |st.master.Pages(t)| && st.master.Pages(t)[m].length > 0 {
        var e := PageRegion(cfg, st, rs, t, m);
        SameOrApart(rs, st.currentOffset, b, e);
      }
    }
  }

  lemma BlockRegion(cfg: Config, st: WriterState, rs: seq<Region>, s: Stream, k: nat, i: nat) returns (r: Region)
    requires LaidOut(cfg, st, rs) && Lists(st, s, k, i) && st.history.Recs(s)[k].blocks[i].length > 0
    ensures var b := st.history.Recs(s)[k].blocks[i];
      r in rs && r == Region(b.offset, b.offset + b.length, BlockBytes)
  {
    hide Tiles, DedupOccupies;
    var b := st.history.Recs(s)[k].blocks[i];
    assert BlocksOccupy(rs, st.history.Recs(s)[k].blocks);
    r := Region(b.offset, b.offset + b.length, BlockBytes);
  }

  lemma PageRegion(cfg: Config, st: WriterState, rs: seq<Region>, s: Stream, k: nat) returns (r: Region)
    requires LaidOut(cfg, st, rs) && k < |st.master.Pages(s)| && st.master.Pages(s)[k].length > 0
    ensures var e := st.master.Pages(s)[k];
      r in rs && r == Region(e.offset, e.offset + e.length, PageBytes)
  {
    hide Tiles, DedupOccupies, BlocksOccupy;
    var e := st.master.Pages(s)[k];
    r := Region(e.offset, e.offset + e.length, PageBytes);
  }

  lemma InTiling(rs: seq<Region>, upto: nat, r: Region)
    requires Tiles(rs, upto) && r in rs
    ensures HEADER_SIZE <= r.start && r.end <= upto
  {
    var i :| 0 <= i < |rs| && rs[i] == r;
    EndsInTiling(rs, upto, i);
  }

  lemma EndsInTiling(rs: seq<Region>, upto: nat, i: nat)
    requires Tiles(rs, upto) && i < |rs|
    ensures HEADER_SIZE <= rs[i].start < rs[i].end <= upto
  {
    if i > 0 { TilesSorted(rs, upto, 0, i); }
    if i < |rs| - 1 { TilesSorted(rs, upto, i, |rs| - 1); }
    assert rs[0].start < rs[0].end && rs[|rs| - 1].start < rs[|rs| - 1].end;
  }
}
