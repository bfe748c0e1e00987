// From the writer's finished file to what a reader faces: the image it opens, and why every block reads.
module Bridge {
  import opened Common
  import opened Format
  import opened Index
  import opened Image
  import opened WriterModel
  import opened WriterRuns
  import opened Recovery
  import Reader

  /** The image of a file whose streams read back as ledger `l` says. */
  function ImageOf(cfg: Config, file: Bytes, master: MasterIndex, h: History, l: Ledger, parents: seq<Image>): Image {
    Image(cfg.codec, cfg.encrypted, file, master, h.mainRecs, h.auxRecs, l.main, l.aux, parents)
  }

  /** The reader's three-way test finds the kind of block the writer chose. */
  lemma KindIsRecovered(cfg: Config, file: Bytes, b: BlockInfo, idx: nat, d: Bytes)
    requires BlockWritten(cfg, file, b, idx, d)
    ensures b.ReadsAsZero() <==> b == ZeroBlock(|d|) && IsZeroChunk(d)
    ensures !b.ReadsAsZero() && b.offset == BLOCK_OFFSET_PARENT <==> DelegatedBlock(cfg, b, d)
    ensures !b.ReadsAsZero() && b.offset != BLOCK_OFFSET_PARENT <==> LocalWritten(cfg, file, b, idx, d)
  {
  }

  /**
   A written block reads as the contents it was written for, dedup hits and every nonce included; only a reference
   that no parent holds reads as zeros.
   */
  lemma WrittenReads(cfg: Config, img: Image, b: BlockInfo, idx: nat, d: Bytes)
    requires cfg.codec.Lawful() && BlockWritten(cfg, img.file, b, idx, d)
    requires img.codec == cfg.codec && img.encrypted == cfg.encrypted && SoundParents(img.parents, cfg.codec)
    ensures BlockReads(img, b, idx, BlockBack(img.parents, b, d))
  {
    hide Codec.Lawful, Codec.Seal, Codec.Unseal, ResolvesTo, HeldByAny, Readable, Dense, Honest;
    cfg.codec.UnsealSeal(cfg.encrypted, d, idx);
    if DelegatedBlock(cfg, b, d) {
      if HeldByAny(img.parents, b.hash) {
        ResolvesIff(cfg.codec, img.parents, d);
      } else {
        UnheldResolvesToZeros(img.parents, b.hash, |d|);
      }
    }
  }

  /** Stored bytes, as a slice and as the beginning of what follows. */
  lemma StoredSlice(file: Bytes, off: nat, raw: Bytes)
    requires StoredAt(file, off, raw)
    ensures off + |raw| <= |file| && file[off..off + |raw|] == raw + []
    ensures file[off..] == raw + file[off + |raw|..]
  {
  }

  lemma EntryDecodes(cfg: Config, img: Image, e: PageEntry, p: PageRec)
    requires cfg.codec.Lawful() && img.codec == cfg.codec && EntryWritten(cfg, img.file, e, p) && Encodable(p.blocks)
    ensures PageDecodes(img, e, p)
  {
    hide Codec.Lawful, StoredAt;
    StoredSlice(img.file, e.offset, cfg.codec.encodePage(p.blocks));
    cfg.codec.DecodePage(p.blocks, []);
  }

  /** What the decoder makes of the file from a page's place on. */
  lemma DecodesThere(cfg: Config, file: Bytes, e: PageEntry, p: PageRec)
    requires cfg.codec.Lawful() && EntryWritten(cfg, file, e, p) && Encodable(p.blocks)
    ensures e.offset <= |file| && cfg.codec.decodePage(file[e.offset..]) == Some(p.blocks)
  {
    hide Codec.Lawful, StoredAt;
    var raw := cfg.codec.encodePage(p.blocks);
    StoredSlice(file, e.offset, raw);
    cfg.codec.DecodePage(p.blocks, file[e.offset + |raw|..]);
  }

  lemma PageIsReadable(cfg: Config, img: Image, s: Stream, k: nat, c: Bytes)
    requires cfg.codec.Lawful() && k < |img.Recs(s)| && PageWritten(cfg, img.file, img.Recs(s)[k], c)
    requires PageBack(img.parents, img.Recs(s)[k], c, img.Content(s))
    requires img.codec == cfg.codec && img.encrypted == cfg.encrypted && SoundParents(img.parents, cfg.codec)
    ensures PageReads(img, s, k)
  {
    hide Codec.Lawful, SoundParents, BlockWritten, BlockReads, BlockBack;
    var p := img.Recs(s)[k];
    forall i {:trigger img.Recs(s)[k].blocks[i]} {:trigger img.BlockAt(s, k, i)} | 0 <= i < |img.Recs(s)[k].blocks|
      ensures BlockReads(img, img.BlockAt(s, k, i), img.IndexAt(s, k, i), img.DataAt(s, k, i))
    {
      assert img.DataAt(s, k, i) == BlockBack(img.parents, p.blocks[i], Piece(c, p.bounds[i], p.bounds[i + 1]));
      WrittenReads(cfg, img, img.BlockAt(s, k, i), img.IndexAt(s, k, i), Piece(c, p.bounds[i], p.bounds[i + 1]));
    }
  }

  lemma StreamIsReadable(cfg: Config, img: Image, s: Stream, c: Bytes)
    requires cfg.codec.Lawful()
    requires StreamWritten(cfg, img.file, img.master.Pages(s), img.Recs(s), c, |c|)
    requires RecsBack(img.parents, img.Recs(s), c, img.Content(s))
    requires img.codec == cfg.codec && img.encrypted == cfg.encrypted && SoundParents(img.parents, cfg.codec)
    ensures StreamReads(img, s)
  {
    hide Codec.Lawful, SoundParents, PageWritten, EntryWritten, PageReads, PageDecodes, PageBack, Chain;
    forall k {:trigger img.Recs(s)[k]} {:trigger PageReads(img, s, k)} | 0 <= k < |img.Recs(s)|
      ensures PageDecodes(img, img.master.Pages(s)[k], img.Recs(s)[k]) && PageReads(img, s, k)
    {
      PageEncodable(cfg, img.file, img.Recs(s)[k], c);
      EntryDecodes(cfg, img, img.master.Pages(s)[k], img.Recs(s)[k]);
      PageIsReadable(cfg, img, s, k, c);
    }
  }

  /** Two pages at one place: the decoder reads only one value there. */
  lemma OnePagePerPlace(cfg: Config, file: Bytes, d: PageEntry, e: PageEntry, p: PageRec, q: PageRec)
    requires cfg.codec.Lawful() && EntryWritten(cfg, file, d, p) && EntryWritten(cfg, file, e, q)
    requires d.offset == e.offset && Encodable(p.blocks) && Encodable(q.blocks)
    ensures p.blocks == q.blocks
  {
    hide *;
    DecodesThere(cfg, file, d, p);
    DecodesThere(cfg, file, e, q);
  }

  lemma PagesAreApart(cfg: Config, img: Image, h: History)
    requires cfg.codec.Lawful()
    requires forall s: Stream {:trigger img.Recs(s)} ::
      StreamWritten(cfg, img.file, img.master.Pages(s), img.Recs(s), h.Content(s), |h.Content(s)|)
    ensures PagesApart(img)
  {
    hide Codec.Lawful, PageWritten, EntryWritten, Covers, Chain;
    forall s, t, k, l {:trigger img.master.Pages(s)[k], img.master.Pages(t)[l]} |
      k < |img.master.Pages(s)| && l < |img.master.Pages(t)| && k < |img.Recs(s)| && l < |img.Recs(t)|
      && 0 <= k && 0 <= l && img.master.Pages(s)[k].offset == img.master.Pages(t)[l].offset
      ensures img.Recs(s)[k].blocks == img.Recs(t)[l].blocks
    {
      PageEncodable(cfg, img.file, img.Recs(s)[k], h.Content(s));
      PageEncodable(cfg, img.file, img.Recs(t)[l], h.Content(t));
      OnePagePerPlace(cfg, img.file, img.master.Pages(s)[k], img.master.Pages(t)[l], img.Recs(s)[k], img.Recs(t)[l]);
    }
  }

  /** A finished file over any sound parents is readable throughout, as the bytes that come back of it. */
  lemma FileIsReadable(
    cfg: Config, file: Bytes, header: Header, master: MasterIndex, h: History, l: Ledger, parents: seq<Image>)
    requires cfg.codec.Lawful() && FileHolds(cfg, file, header, master, h) && SoundParents(parents, cfg.codec)
    requires RecsBack(parents, h.mainRecs, h.mainContent, l.main) && RecsBack(parents, h.auxRecs, h.auxContent, l.aux)
    ensures Readable(ImageOf(cfg, file, master, h, l, parents))
  {
    var img := ImageOf(cfg, file, master, h, l, parents);
    hide Codec.Lawful, StreamWritten, PagesApart, StreamReads, RecsBack, Dense, Honest;
    assert forall s: Stream {:trigger img.Recs(s)} ::
      StreamWritten(cfg, img.file, img.master.Pages(s), img.Recs(s), h.Content(s), |h.Content(s)|);
    StreamIsReadable(cfg, img, Main, h.mainContent);
    StreamIsReadable(cfg, img, Auxiliary, h.auxContent);
    PagesAreApart(cfg, img, h);
  }

  // ---------------------------------------------------------------------------------------------
  // Opening a finished file

  lemma FlushAppends(cfg: Config, st: WriterState)
    ensures st.out <= FlushPage(cfg, st).out
    ensures FlushPage(cfg, st).dictOffset == st.dictOffset && FlushPage(cfg, st).dictLen == st.dictLen
  {
  }

  lemma PushAppends(cfg: Config, st: WriterState, b: BlockInfo, d: Bytes)
    ensures st.out <= PushBlock(cfg, st, b, d).out
    ensures PushBlock(cfg, st, b, d).dictOffset == st.dictOffset && PushBlock(cfg, st, b, d).dictLen == st.dictLen
  {
    hide FlushPage;
    FlushAppends(cfg, Push(st, b, d));
  }

  lemma StoreAppends(st: WriterState, h: Hash, raw: Bytes, d: Bytes)
    ensures st.out <= StoreOnce(st, h, raw, d).0.out
    ensures StoreOnce(st, h, raw, d).0.dictOffset == st.dictOffset && StoreOnce(st, h, raw, d).0.dictLen == st.dictLen
  {
  }

  lemma BlockAppends(cfg: Config, st: WriterState, d: Bytes)
    ensures st.out <= WriteBlock(cfg, st, d).0.out
    ensures WriteBlock(cfg, st, d).0.dictOffset == st.dictOffset && WriteBlock(cfg, st, d).0.dictLen == st.dictLen
  {
    hide StoreOnce;
    StoreAppends(st.(hashBuf := cfg.codec.hash(d)), cfg.codec.hash(d),
      cfg.codec.Seal(cfg.encrypted, d, st.globalBlockIdx), d);
  }

  /** The file only ever grows, and only a dictionary call moves the dictionary. */
  lemma ApplyAppends(cfg: Config, st: WriterState, op: Op)
    ensures st.out <= Apply(cfg, st, op).out
    ensures !op.Dictionary? ==>
      Apply(cfg, st, op).dictOffset == st.dictOffset && Apply(cfg, st, op).dictLen == st.dictLen
  {
    hide PushBlock, FlushPage, StoreOnce, WriteBlock, IsZeroChunk, InParent;
    match op
    case Dictionary(_) =>
    case Begin(_, _) =>
    case Data(d) =>
      var (st', b) := WriteBlock(cfg, st, d);
      BlockAppends(cfg, st, d);
      PushAppends(cfg, st, ZeroBlock(AsU32(|d|)), d);
      PushAppends(cfg, st, ParentBlock(cfg.codec.hash(d), AsU32(|d|)), d);
      PushAppends(cfg, st', b, d);
    case Precompressed(d) => PrecompressedAppends(cfg, st, d);
    case Delegate(d) => PushAppends(cfg, st, ParentBlock(cfg.codec.hash(d), |d|), d);
    case Flush => FlushAppends(cfg, st);
    case End => FlushAppends(cfg, st);
  }

  lemma PrecompressedAppends(cfg: Config, st: WriterState, d: Bytes)
    ensures var t := WritePrecompressed(cfg, st, cfg.codec.compress(d), cfg.codec.hash(d), |d|, d);
      st.out <= t.out && t.dictOffset == st.dictOffset && t.dictLen == st.dictLen
  {
    hide PushBlock, StoreOnce, InParent;
    var h, raw := cfg.codec.hash(d), cfg.codec.compress(d);
    var (st', off) := StoreOnce(st, h, raw, d);
    StoreAppends(st, h, raw, d);
    PushAppends(cfg, st, ParentBlock(h, |d|), d);
    PushAppends(cfg, st', BlockInfo(off, AsU32(|raw|), |d|, cfg.codec.crc(raw), h), d);
  }

  /** Over every run, the dictionary given last lies where the writer noted it. */
  lemma {:induction false} RunKeepsDict(cfg: Config, st: WriterState, ops: seq<Op>, dict: Option<Bytes>)
    requires cfg.codec.Lawful() && Ready(cfg, st) && RunPermitted(cfg, st, ops) && DictAt(st, dict)
    ensures DictAt(Run(cfg, st, ops), LastDictionary(dict, ops))
    decreases |ops|
  {
    hide Codec.Lawful, Ready, Permitted, Apply, DictAt;
    if ops != [] {
      ApplyReady(cfg, st, ops[0]);
      DictAfter(cfg, st, ops[0], dict);
      RunKeepsDict(
        cfg, Apply(cfg, st, ops[0]), ops[1..], if ops[0].Dictionary? then Some(ops[0].dict) else dict);
    }
  }

  lemma DictAfter(cfg: Config, st: WriterState, op: Op, dict: Option<Bytes>)
    requires Ready(cfg, st) && DictAt(st, dict)
    ensures DictAt(Apply(cfg, st, op), if op.Dictionary? then Some(op.dict) else dict)
  {
    hide StreamOk, PageOk, DedupSound, NoncesFresh;
    OffsetIsLength(cfg, st);
    ApplyAppends(cfg, st, op);
    if !op.Dictionary? {
      hide Apply, Ready;
      if dict.Some? { StoredAtExtends(st.out, Apply(cfg, st, op).out, st.dictOffset.value, dict.value); }
    }
  }

  /**
   The file opens with or without a key exactly when index and metadata together stay within the reader's limit of
   64 MiB and there is a key if it is encrypted; a missing key is reported as such, and nothing is found missing.
   */
  lemma FinishedOpens(
    cfg: Config, file: Bytes, paths: seq<Bytes>, dict: Option<Bytes>, metadata: Option<Bytes>, m: MasterIndex,
    at: nat, hasKey: bool)
    requires HeaderSays(cfg, file, paths, dict, metadata, m)
    requires at <= |file| && cfg.codec.decodeHeader(file[..HEADER_SIZE]).value.indexOffset == at
    ensures Reader.CanOpen(cfg.codec, hasKey, file) <==>
      (cfg.encrypted ==> hasKey) && |file| - at <= MAX_INDEX_SIZE
    ensures Reader.LacksKey(cfg.codec, hasKey, file) <==> cfg.encrypted && !hasKey
    ensures !Reader.IsShort(cfg.codec, hasKey, file)
  {
  }

  /** What is found in such a file is what was written, while the metadata's length keeps within its width. */
  lemma FoundAsWritten(
    cfg: Config, file: Bytes, paths: seq<Bytes>, dict: Option<Bytes>, metadata: Option<Bytes>, m: MasterIndex,
    foundIndex: MasterIndex, found: Option<Bytes>)
    requires HeaderSays(cfg, file, paths, dict, metadata, m)
    requires Reader.Finds(cfg.codec, file, foundIndex, found) && |MetadataBytes(metadata)| < U32_LIMIT
    ensures foundIndex == m && found == metadata
  {
  }
}
