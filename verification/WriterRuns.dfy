// Whole writer runs: every permitted sequence of calls, and the finished file.
module WriterRuns {
  import opened Common
  import opened Format
  import opened Index
  import opened WriterModel

  /** The public calls of the writer. `Precompressed(d)` hands over what a worker made of chunk `d`. */
  datatype Op =
    | Dictionary(dict: Bytes)
    | Begin(isMain: bool, total: nat)
    | Data(d: Bytes)
    | Precompressed(d: Bytes)
    | Delegate(d: Bytes)
    | Flush
    | End

  function Apply(cfg: Config, st: WriterState, op: Op): WriterState {
    match op
    case Dictionary(dict) => WriteDictionary(st, dict)
    case Begin(isMain, total) => BeginStream(cfg, st, isMain, total)
    case Data(d) => WriteDataBlock(cfg, st, d)
    case Precompressed(d) => WritePrecompressed(cfg, st, cfg.codec.compress(d), cfg.codec.hash(d), |d|, d)
    case Delegate(d) => WriteParentRef(cfg, st, cfg.codec.hash(d), |d|, d)
    case Flush => FlushStream(cfg, st)
    case End => EndStream(cfg, st)
  }

  function StreamOf(isMain: bool): Stream { if isMain then Main else Auxiliary }

  /**
   The calling discipline: a stream begins when no page of another is open and all bytes declared for it so far have
   come, blocks go to an active stream, and only plain archives take precompressed blocks.
   */
  ghost predicate Permitted(cfg: Config, st: WriterState, op: Op) {
    match op
    case Dictionary(_) => true
    case Begin(isMain, _) => CanBegin(st, StreamOf(isMain))
    case Data(d) => st.streamActive && Storable(cfg, st, d)
    case Precompressed(d) => st.streamActive && !cfg.encrypted && Storable(cfg, st, d)
    case Delegate(d) => st.streamActive && d in cfg.codec.universe && |d| < U32_LIMIT
    case Flush => true
    case End => true
  }

  function Run(cfg: Config, st: WriterState, ops: seq<Op>): WriterState
    decreases |ops|
  {
    if ops == [] then st else Run(cfg, Apply(cfg, st, ops[0]), ops[1..])
  }

  ghost predicate RunPermitted(cfg: Config, st: WriterState, ops: seq<Op>)
    decreases |ops|
  {
    ops == [] || (Permitted(cfg, st, ops[0]) && RunPermitted(cfg, Apply(cfg, st, ops[0]), ops[1..]))
  }

  // ---------------------------------------------------------------------------------------------
  // A ledger that knows nothing of pages, offsets or dedup: which bytes went to which stream

  datatype Ledger = Ledger(current: Stream, main: Bytes, aux: Bytes, mainDeclared: nat, auxDeclared: nat) {
    function Content(s: Stream): Bytes { if s.Main? then main else aux }

    function Declared(s: Stream): nat { if s.Main? then mainDeclared else auxDeclared }

    function Receive(d: Bytes): Ledger {
      if current.Main? then this.(main := main + d) else this.(aux := aux + d)
    }
  }

  function Note(l: Ledger, op: Op): Ledger {
    match op
    case Begin(isMain, total) =>
      var l' := l.(current := StreamOf(isMain));
      if isMain then l'.(mainDeclared := l.mainDeclared + total) else l'.(auxDeclared := l.auxDeclared + total)
    case Data(d) => l.Receive(d)
    case Precompressed(d) => l.Receive(d)
    case Delegate(d) => l.Receive(d)
    case Dictionary(_) => l
    case Flush => l
    case End => l
  }

  function NoteAll(l: Ledger, ops: seq<Op>): Ledger
    decreases |ops|
  {
    if ops == [] then l else NoteAll(Note(l, ops[0]), ops[1..])
  }

  /** The dictionary a run leaves behind: the one given last, `before` being the one given earlier. */
  function LastDictionary(before: Option<Bytes>, ops: seq<Op>): Option<Bytes>
    decreases |ops|
  {
    if ops == [] then before
    else LastDictionary(if ops[0].Dictionary? then Some(ops[0].dict) else before, ops[1..])
  }

  function LedgerOf(st: WriterState): Ledger {
    Ledger(st.Current(), st.history.mainContent, st.history.auxContent, st.master.mainSize, st.master.auxiliarySize)
  }

  const EMPTY_LEDGER := Ledger(Main, [], [], 0, 0)

  lemma FlushLedger(cfg: Config, st: WriterState)
    ensures LedgerOf(FlushPage(cfg, st)) == LedgerOf(st)
  {
  }

  lemma PushBlockLedger(cfg: Config, st: WriterState, b: BlockInfo, d: Bytes)
    ensures LedgerOf(PushBlock(cfg, st, b, d)) == LedgerOf(st).Receive(d)
  {
    FlushLedger(cfg, Push(st, b, d));
  }

  lemma WriteBlockLedger(cfg: Config, st: WriterState, d: Bytes)
    ensures LedgerOf(WriteBlock(cfg, st, d).0) == LedgerOf(st)
  {
  }

  lemma ApplyLedger(cfg: Config, st: WriterState, op: Op)
    ensures LedgerOf(Apply(cfg, st, op)) == Note(LedgerOf(st), op)
  {
    hide PushBlock, FlushPage;
    match op
    case Data(d) =>
      WriteBlockLedger(cfg, st, d);
      PushBlockLedger(cfg, st, ZeroBlock(AsU32(|d|)), d);
      PushBlockLedger(cfg, st, ParentBlock(cfg.codec.hash(d), AsU32(|d|)), d);
      var (st', b) := WriteBlock(cfg, st, d);
      PushBlockLedger(cfg, st', b, d);
    case Precompressed(d) => PrecompressedLedger(cfg, st, d);
    case Delegate(d) => PushBlockLedger(cfg, st, ParentBlock(cfg.codec.hash(d), |d|), d);
    case Flush => FlushLedger(cfg, st);
    case End => FlushLedger(cfg, st);
    case Dictionary(_) =>
    case Begin(_, _) =>
  }

  lemma PrecompressedLedger(cfg: Config, st: WriterState, d: Bytes)
    ensures LedgerOf(WritePrecompressed(cfg, st, cfg.codec.compress(d), cfg.codec.hash(d), |d|, d))
      == LedgerOf(st).Receive(d)
  {
    hide PushBlock, FlushPage;
    var h, raw := cfg.codec.hash(d), cfg.codec.compress(d);
    PushBlockLedger(cfg, st, ParentBlock(h, |d|), d);
    var (st', off) := StoreOnce(st, h, raw, d);
    PushBlockLedger(cfg, st', BlockInfo(off, AsU32(|raw|), |d|, cfg.codec.crc(raw), h), d);
  }

  lemma ApplyReady(cfg: Config, st: WriterState, op: Op)
    requires cfg.codec.Lawful() && Ready(cfg, st) && Permitted(cfg, st, op)
    ensures Ready(cfg, Apply(cfg, st, op))
  {
    hide Ready, Codec.Lawful;
    match op
    case Dictionary(dict) => DictionaryReady(cfg, st, dict);
    case Begin(isMain, total) => BeginReady(cfg, st, isMain, total);
    case Data(d) => DataBlockReady(cfg, st, d);
    case Precompressed(d) => PrecompressedReady(cfg, st, d);
    case Delegate(d) =>
      DescriptorsFit(cfg, d);
      PushBlockReady(cfg, st, ParentBlock(cfg.codec.hash(d), |d|), d);
    case Flush => FlushStreamReady(cfg, st);
    case End => EndReady(cfg, st);
  }

  /**
   Every permitted run, from any state in which the invariant holds: the invariant survives, and the streams
   hold exactly the bytes the ledger says they were given.
   */
  lemma {:induction false} RunReady(cfg: Config, st: WriterState, ops: seq<Op>)
    requires cfg.codec.Lawful() && Ready(cfg, st) && RunPermitted(cfg, st, ops)
    ensures Ready(cfg, Run(cfg, st, ops))
    ensures LedgerOf(Run(cfg, st, ops)) == NoteAll(LedgerOf(st), ops)
    decreases |ops|
  {
    hide Ready, Codec.Lawful, Permitted;
    if ops != [] {
      ApplyReady(cfg, st, ops[0]);
      ApplyLedger(cfg, st, ops[0]);
      RunReady(cfg, Apply(cfg, st, ops[0]), ops[1..]);
    }
  }

  // ---------------------------------------------------------------------------------------------
  // The finished file

  function Close(cfg: Config, st: WriterState): WriterState {
    if st.streamActive then EndStream(cfg, st) else st
  }

  function MetadataBytes(metadata: Option<Bytes>): Bytes {
    match metadata case None => [] case Some(m) => m
  }

  function FinalHeader(cfg: Config, st: WriterState, paths: seq<Bytes>, metadata: Option<Bytes>): Header {
    var metaOffset := st.currentOffset + |cfg.codec.encodeMaster(st.master)|;
    Header(MAGIC_BYTES, FORMAT_VERSION, cfg.blockSize, st.currentOffset, paths, st.dictOffset, st.dictLen,
           if metadata.Some? then Some(metaOffset) else None,
           if metadata.Some? then Some(AsU32(|metadata.value|)) else None,
           None, None, if cfg.encrypted then Some(cfg.key) else None, cfg.compression,
           st.master.mainPages != [], st.master.auxiliaryPages != [], cfg.variableBlocks, cfg.cdcParams)
  }

  /** The header keeps within its region, and the fields of header and index within their widths on disk. */
  predicate Finalizable(cfg: Config, closed: WriterState, paths: seq<Bytes>, metadata: Option<Bytes>) {
    var header := FinalHeader(cfg, closed, paths, metadata);
    |cfg.codec.encodeHeader(header)| <= HEADER_SIZE && header.Fits() && closed.master.Fits()
  }

  /** Rewinding to the start and writing `h` over the reserved region. */
  function Overwrite(file: Bytes, h: Bytes): Bytes {
    if |h| <= |file| then h + file[|h|..] else h
  }

  function Tail(cfg: Config, st: WriterState, metadata: Option<Bytes>): Bytes {
    cfg.codec.encodeMaster(st.master) + MetadataBytes(metadata)
  }

  function Finalize(cfg: Config, st: WriterState, paths: seq<Bytes>, metadata: Option<Bytes>): Bytes {
    var closed := Close(cfg, st);
    Overwrite(closed.out + Tail(cfg, closed, metadata),
      cfg.codec.encodeHeader(FinalHeader(cfg, closed, paths, metadata)))
  }

  /** A file from which the reader can recover the index and both streams. */
  ghost predicate FileHolds(cfg: Config, file: Bytes, header: Header, master: MasterIndex, h: History) {
    && |file| >= HEADER_SIZE
    && cfg.codec.decodeHeader(file[..HEADER_SIZE]) == Some(header)
    && header.magic == MAGIC_BYTES
    && header.version == FORMAT_VERSION
    && header.Encrypted() == cfg.encrypted
    && header.indexOffset < |file|
    && cfg.codec.decodeMaster(file[header.indexOffset..]) == Some(master)
    && StreamWritten(cfg, file, master.mainPages, h.mainRecs, h.mainContent, |h.mainContent|)
    && StreamWritten(cfg, file, master.auxiliaryPages, h.auxRecs, h.auxContent, |h.auxContent|)
  }

  // ---------------------------------------------------------------------------------------------
  // What the header of a finished file says, field by field

  /** What was configured, and nothing signed. */
  predicate Configured(cfg: Config, paths: seq<Bytes>, h: Header) {
    && h.magic == MAGIC_BYTES && h.version == FORMAT_VERSION
    && h.parentPaths == paths
    && h.blockSize == cfg.blockSize && h.variableBlocks == cfg.variableBlocks && h.cdcParams == cfg.cdcParams
    && h.compression == cfg.compression
    && (if cfg.encrypted then h.encryption == Some(cfg.key) else h.encryption == None)
    && h.signatureOffset == None && h.signatureLength == None
  }

  /** The two flags tell which streams have pages. */
  predicate FlagsPages(h: Header, m: MasterIndex) {
    (h.hasMain <==> |m.mainPages| > 0) && (h.hasAuxiliary <==> |m.auxiliaryPages| > 0)
  }

  /** A place in the header: of exactly these bytes in the file (lengths drop their high bits), or of nothing. */
  predicate Names(file: Bytes, offset: Option<nat>, length: Option<nat>, content: Option<Bytes>) {
    match content
    case None => offset == None && length == None
    case Some(b) =>
      && offset.Some? && length == Some(AsU32(|b|))
      && offset.value + |b| <= |file| && file[offset.value..offset.value + |b|] == b
  }

  /** The dictionary `dict` lies in the file where the writer noted it; or there is none. */
  ghost predicate DictAt(st: WriterState, dict: Option<Bytes>) {
    match dict
    case None => st.dictOffset == None && st.dictLen == None
    case Some(d) =>
      st.dictOffset.Some? && st.dictLen == Some(AsU32(|d|)) && StoredAt(st.out, st.dictOffset.value, d)
  }

  /** The header of `file` decodes, and says what was configured, where everything lies, and which streams there are. */
  ghost predicate HeaderSays(
    cfg: Config, file: Bytes, paths: seq<Bytes>, dict: Option<Bytes>, metadata: Option<Bytes>, m: MasterIndex)
  {
    && |file| >= HEADER_SIZE && cfg.codec.decodeHeader(file[..HEADER_SIZE]).Some?
    && var h := cfg.codec.decodeHeader(file[..HEADER_SIZE]).value;
      && Configured(cfg, paths, h) && FlagsPages(h, m)
      && Names(file, h.dictionaryOffset, h.dictionaryLength, dict)
      && Names(file, h.metadataOffset, h.metadataLength, metadata)
      && h.indexOffset < |file| && cfg.codec.decodeMaster(file[h.indexOffset..]) == Some(m)
  }

  /** The header found in a finished file. */
  lemma FinalHeaderSays(cfg: Config, st: WriterState, paths: seq<Bytes>, metadata: Option<Bytes>, dict: Option<Bytes>)
    requires cfg.codec.Lawful() && Ready(cfg, st) && DictAt(st, dict)
    requires Finalizable(cfg, Close(cfg, st), paths, metadata)
    ensures HeaderSays(cfg, Finalize(cfg, st, paths, metadata), paths, dict, metadata, Close(cfg, st).master)
  {
    hide Codec.Lawful, Ready, StreamWritten, Finalize, Finalizable, DictAt, Names;
    var c := Close(cfg, st);
    var file := Finalize(cfg, st, paths, metadata);
    FinalFileHolds(cfg, st, paths, metadata);
    CloseReady(cfg, st);
    CloseKeepsDict(cfg, st, dict);
    FinalExtends(cfg, st, paths, metadata);
    hide Close;
    DictNamed(c, file, dict);
    MetadataNamed(cfg, c, file, metadata);
  }

  lemma CloseKeepsDict(cfg: Config, st: WriterState, dict: Option<Bytes>)
    requires DictAt(st, dict)
    ensures DictAt(Close(cfg, st), dict)
  {
    if dict.Some? { StoredAtExtends(st.out, Close(cfg, st).out, st.dictOffset.value, dict.value); }
  }

  lemma FinalExtends(cfg: Config, st: WriterState, paths: seq<Bytes>, metadata: Option<Bytes>)
    requires cfg.codec.Lawful() && Ready(cfg, st)
    requires Finalizable(cfg, Close(cfg, st), paths, metadata)
    ensures Extends(Close(cfg, st).out, Finalize(cfg, st, paths, metadata))
    ensures Close(cfg, st).currentOffset == |Close(cfg, st).out|
  {
    hide Codec.Lawful, Ready, Close, FinalHeader, Overwrite, Tail;
    var c := Close(cfg, st);
    CloseReady(cfg, st);
    OffsetIsLength(cfg, c);
    OverwriteExtends(c.out, cfg.codec.encodeHeader(FinalHeader(cfg, c, paths, metadata)), Tail(cfg, c, metadata));
  }

  lemma DictNamed(c: WriterState, file: Bytes, dict: Option<Bytes>)
    requires DictAt(c, dict) && Extends(c.out, file)
    ensures Names(file, c.dictOffset, c.dictLen, dict)
  {
    if dict.Some? { StoredAtExtends(c.out, file, c.dictOffset.value, dict.value); }
  }

  lemma MetadataNamed(cfg: Config, c: WriterState, file: Bytes, metadata: Option<Bytes>)
    requires c.currentOffset <= |file| && file[c.currentOffset..] == Tail(cfg, c, metadata)
    ensures var h := FinalHeader(cfg, c, [], metadata); Names(file, h.metadataOffset, h.metadataLength, metadata)
  {
    if metadata.Some? {
      var at, index, m := c.currentOffset, cfg.codec.encodeMaster(c.master), metadata.value;
      assert |file[at..]| == |index| + |m|;
      assert file[at + |index|..at + |index| + |m|] == file[at..][|index|..] == m;
    }
  }

  lemma CloseReady(cfg: Config, st: WriterState)
    requires cfg.codec.Lawful() && Ready(cfg, st)
    ensures Ready(cfg, Close(cfg, st)) && !Close(cfg, st).streamActive && LedgerOf(Close(cfg, st)) == LedgerOf(st)
  {
    hide Ready, Codec.Lawful, FlushPage;
    EndReady(cfg, st);
    FlushLedger(cfg, st);
  }

  lemma OverwriteExtends(file: Bytes, h: Bytes, t: Bytes)
    requires |h| <= HEADER_SIZE <= |file|
    ensures Extends(file, Overwrite(file + t, h))
    ensures |Overwrite(file + t, h)| == |file + t|
    ensures Overwrite(file + t, h)[..HEADER_SIZE] == h + file[|h|..HEADER_SIZE]
    ensures Overwrite(file + t, h)[|file|..] == t
  {
  }

  /** The header overwrites only the reserved region: index, metadata and all blocks stay where they were. */
  lemma FinalFileHolds(cfg: Config, st: WriterState, paths: seq<Bytes>, metadata: Option<Bytes>)
    requires cfg.codec.Lawful() && Ready(cfg, st)
    requires Finalizable(cfg, Close(cfg, st), paths, metadata)
    ensures var c := Close(cfg, st);
      && FileHolds(cfg, Finalize(cfg, st, paths, metadata), FinalHeader(cfg, c, paths, metadata), c.master, c.history)
      && c.currentOffset <= |Finalize(cfg, st, paths, metadata)|
      && Finalize(cfg, st, paths, metadata)[c.currentOffset..] == Tail(cfg, c, metadata)
  {
    CloseReady(cfg, st);
    ClosedFileHolds(cfg, Close(cfg, st), paths, metadata);
  }

  lemma ClosedFileHolds(cfg: Config, c: WriterState, paths: seq<Bytes>, metadata: Option<Bytes>)
    requires cfg.codec.Lawful() && Ready(cfg, c) && !c.streamActive
    requires Finalizable(cfg, c, paths, metadata)
    ensures var file := Overwrite(c.out + Tail(cfg, c, metadata),
      cfg.codec.encodeHeader(FinalHeader(cfg, c, paths, metadata)));
      && FileHolds(cfg, file, FinalHeader(cfg, c, paths, metadata), c.master, c.history)
      && c.currentOffset <= |file|
      && file[c.currentOffset..] == Tail(cfg, c, metadata)
  {
    hide Codec.Lawful, Ready, StreamWritten, Overwrite, Extends, Header.Fits, MasterIndex.Fits;
    var header, tail := FinalHeader(cfg, c, paths, metadata), Tail(cfg, c, metadata);
    var hdr := cfg.codec.encodeHeader(header);
    var file := Overwrite(c.out + tail, hdr);
    OffsetIsLength(cfg, c);
    OverwriteExtends(c.out, hdr, tail);
    cfg.codec.DecodeHeader(header, c.out[|hdr|..HEADER_SIZE]);
    cfg.codec.DecodeMaster(c.master, MetadataBytes(metadata));
    ClosedStreams(cfg, c, file);
  }

  lemma OffsetIsLength(cfg: Config, c: WriterState)
    requires Ready(cfg, c)
    ensures c.currentOffset == |c.out| >= HEADER_SIZE
  {
    hide StreamOk, PageOk, DedupSound, NoncesFresh;
  }

  lemma ClosedStreams(cfg: Config, c: WriterState, file: Bytes)
    requires Ready(cfg, c) && !c.streamActive && Extends(c.out, file)
    ensures StreamWritten(cfg, file, c.master.mainPages, c.history.mainRecs, c.history.mainContent,
      |c.history.mainContent|)
    ensures StreamWritten(cfg, file, c.master.auxiliaryPages, c.history.auxRecs, c.history.auxContent,
      |c.history.auxContent|)
  {
    assert StreamOk(cfg, c, Main) && StreamOk(cfg, c, Auxiliary) by { hide StreamOk, PageOk, DedupSound; }
    hide Ready, StreamWritten, StreamOk, Extends;
    ClosedStream(cfg, c, file, Main);
    ClosedStream(cfg, c, file, Auxiliary);
  }

  lemma ClosedStream(cfg: Config, c: WriterState, file: Bytes, s: Stream)
    requires StreamOk(cfg, c, s) && !c.streamActive && Extends(c.out, file)
    ensures StreamWritten(cfg, file, c.master.Pages(s), c.history.Recs(s), c.history.Content(s), |c.history.Content(s)|)
  {
    hide StreamWritten, Extends;
    var content := c.history.Content(s);
    StreamWrittenExtends(cfg, c.out, file, c.master.Pages(s), c.history.Recs(s), content, [], |content|);
    assert content + [] == content;
  }

  /** The finished file of any permitted run holds both streams, byte for byte. */
  lemma FinishedRunHolds(cfg: Config, ops: seq<Op>, paths: seq<Bytes>, metadata: Option<Bytes>)
    requires cfg.codec.Lawful() && RunPermitted(cfg, Initial(), ops)
    requires Finalizable(cfg, Close(cfg, Run(cfg, Initial(), ops)), paths, metadata)
    ensures var st := Run(cfg, Initial(), ops);
      var c := Close(cfg, st);
      var l := NoteAll(EMPTY_LEDGER, ops);
      && FileHolds(cfg, Finalize(cfg, st, paths, metadata), FinalHeader(cfg, c, paths, metadata), c.master, c.history)
      && c.history.mainContent == l.main && c.history.auxContent == l.aux
      && c.master.mainSize == l.mainDeclared && c.master.auxiliarySize == l.auxDeclared
  {
    hide Ready, Codec.Lawful, FileHolds, Permitted, Finalize, FinalHeader, Close, Run, Finalizable;
    InitialReady(cfg);
    RunReady(cfg, Initial(), ops);
    CloseReady(cfg, Run(cfg, Initial(), ops));
    FinalFileHolds(cfg, Run(cfg, Initial(), ops), paths, metadata);
    InitialLedger();
  }

  lemma InitialLedger()
    ensures LedgerOf(Initial()) == EMPTY_LEDGER
  {
  }
}
