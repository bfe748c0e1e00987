// End to end: what any read of a finished file returns, in terms of what the writer was given.
module RoundTrip {
  import opened Common
  import opened Format
  import opened Image
  import opened WriterModel
  import opened WriterRuns
  import opened Recovery
  import opened Bridge
  import Reader
  import Writer

  type Archive = Reader.Archive

  /** One public call of the writer. */
  method Perform(w: Writer.ArchiveWriter, op: Op)
    requires w.Valid() && Permitted(w.cfg, w.State(), op)
    modifies w, w.dedupMap
    ensures w.Valid() && w.State() == Apply(w.cfg, old(w.State()), op)
    ensures w.dedupMap == old(w.dedupMap) || fresh(w.dedupMap)
  {
    hide Ready, Codec.Lawful, Apply, Storable;
    match op {
      case Dictionary(dict) => w.WriteDictionary(dict);
      case Begin(isMain, total) => w.BeginStream(isMain, total);
      case Data(d) => w.WriteDataBlock(d);
      case Precompressed(d) => w.WritePrecompressedBlock(w.cfg.codec.compress(d), w.cfg.codec.hash(d), |d|, d);
      case Delegate(d) => w.WriteParentRef(w.cfg.codec.hash(d), |d|, d);
      case Flush => w.FlushStream();
      case End => w.EndStream();
    }
  }

  method PerformAll(w: Writer.ArchiveWriter, ops: seq<Op>)
    requires w.Valid() && RunPermitted(w.cfg, w.State(), ops)
    modifies w, w.dedupMap
    ensures w.Valid() && w.State() == Run(w.cfg, old(w.State()), ops)
  {
    hide Ready, Codec.Lawful, Permitted, Apply;
    var i := 0;
    assert ops[0..] == ops;
    while i < |ops|
      invariant i <= |ops|
      invariant w.Valid() && (w.dedupMap == old(w.dedupMap) || fresh(w.dedupMap))
      invariant RunPermitted(w.cfg, w.State(), ops[i..])
      invariant Run(w.cfg, w.State(), ops[i..]) == Run(w.cfg, old(w.State()), ops)
    {
      assert ops[i..][1..] == ops[i + 1..];
      Perform(w, ops[i]);
      i := i + 1;
    }
  }

  ghost predicate HeaderFits(cfg: Config, ops: seq<Op>, paths: seq<Bytes>, metadata: Option<Bytes>) {
    Finalizable(cfg, Close(cfg, Run(cfg, Initial(), ops)), paths, metadata)
  }

  method Build(cfg: Config, ops: seq<Op>, paths: seq<Bytes>, metadata: Option<Bytes>) returns (file: Bytes)
    requires cfg.codec.Lawful() && RunPermitted(cfg, Initial(), ops) && HeaderFits(cfg, ops, paths, metadata)
    ensures file == Finalize(cfg, Run(cfg, Initial(), ops), paths, metadata)
  {
    hide Ready, Codec.Lawful, Permitted, Run, Initial, Finalize, FinalHeader, FileHolds, Finalizable;
    var w := new Writer.ArchiveWriter(cfg);
    PerformAll(w, ops);
    file := w.Finalize(paths, metadata);
  }

  /** The image of the file that a run produces, opened over these parents. */
  ghost function BuiltImage(
    cfg: Config, ops: seq<Op>, paths: seq<Bytes>, metadata: Option<Bytes>, parents: seq<Image>): Image
  {
    var c := Close(cfg, Run(cfg, Initial(), ops));
    var file := Finalize(cfg, Run(cfg, Initial(), ops), paths, metadata);
    ImageOf(cfg, file, c.master, c.history, Recovered(cfg, parents, ops), parents)
  }

  /** Index and metadata, which the reader loads in one piece. */
  ghost function IndexBytes(cfg: Config, ops: seq<Op>, metadata: Option<Bytes>): nat {
    |Tail(cfg, Close(cfg, Run(cfg, Initial(), ops)), metadata)|
  }

  /**
   The header found in the file of any permitted run: parents, block size, compression, chunking and key as
   configured, the dictionary given last, the metadata and the index in the places it names, and a flag set for
   exactly the streams that have pages, so for each that was given any bytes.
   */
  lemma BuiltHeader(cfg: Config, ops: seq<Op>, paths: seq<Bytes>, metadata: Option<Bytes>)
    requires cfg.codec.Lawful() && RunPermitted(cfg, Initial(), ops) && HeaderFits(cfg, ops, paths, metadata)
    ensures var st := Run(cfg, Initial(), ops);
      var file, c := Finalize(cfg, st, paths, metadata), Close(cfg, st);
      && HeaderSays(cfg, file, paths, LastDictionary(None, ops), metadata, c.master)
      && var h, l := cfg.codec.decodeHeader(file[..HEADER_SIZE]).value, NoteAll(EMPTY_LEDGER, ops);
        (l.main != [] ==> h.hasMain) && (l.aux != [] ==> h.hasAuxiliary)
  {
    hide Ready, Codec.Lawful, Permitted, Run, Finalize, Finalizable, NoteAll, Close, Initial;
    var st := Run(cfg, Initial(), ops);
    InitialReady(cfg);
    RunReady(cfg, Initial(), ops);
    InitialDict();
    RunKeepsDict(cfg, Initial(), ops, None);
    FinalHeaderSays(cfg, st, paths, metadata, LastDictionary(None, ops));
    FinishedRunHolds(cfg, ops, paths, metadata);
    hide FinalHeader, PageWritten, EntryWritten, Names, Configured, LastDictionary;
  }

  lemma InitialDict()
    ensures DictAt(Initial(), None)
  {
  }

  /**
   The file of any permitted run opens if and only if index and metadata together keep within the reader's limit, and
   there is a key if it is encrypted: the error tells a missing key, and nothing is ever missing from the file. What is
   found then are the index as the writer left it and the metadata as given.
   */
  lemma BuiltOpens(cfg: Config, ops: seq<Op>, paths: seq<Bytes>, metadata: Option<Bytes>, hasKey: bool)
    requires cfg.codec.Lawful() && RunPermitted(cfg, Initial(), ops) && HeaderFits(cfg, ops, paths, metadata)
    ensures var st := Run(cfg, Initial(), ops);
      var file, c := Finalize(cfg, st, paths, metadata), Close(cfg, st);
      && (Reader.CanOpen(cfg.codec, hasKey, file) <==>
          (cfg.encrypted ==> hasKey) && IndexBytes(cfg, ops, metadata) <= MAX_INDEX_SIZE)
      && (Reader.LacksKey(cfg.codec, hasKey, file) <==> cfg.encrypted && !hasKey)
      && !Reader.IsShort(cfg.codec, hasKey, file)
      && forall m, found {:trigger Reader.Finds(cfg.codec, file, m, found)} ::
        Reader.Finds(cfg.codec, file, m, found) && IndexBytes(cfg, ops, metadata) <= MAX_INDEX_SIZE ==>
          m == c.master && found == metadata
  {
    hide Ready, Codec.Lawful, Permitted, Run, Finalize, Finalizable, NoteAll, Close, Initial, FinalHeader, Tail;
    var st := Run(cfg, Initial(), ops);
    var file, c := Finalize(cfg, st, paths, metadata), Close(cfg, st);
    BuiltHeader(cfg, ops, paths, metadata);
    InitialReady(cfg);
    RunReady(cfg, Initial(), ops);
    FinalFileHolds(cfg, st, paths, metadata);
    var at := FinalHeader(cfg, c, paths, metadata).indexOffset;
    IndexPlace(cfg, c, paths, metadata);
    assert |file[at..]| == IndexBytes(cfg, ops, metadata);
    hide FileHolds, IndexBytes, LastDictionary;
    FinishedOpens(cfg, file, paths, LastDictionary(None, ops), metadata, c.master, at, hasKey);
    hide HeaderSays, Reader.Finds, Reader.CanOpen, Reader.LacksKey, Reader.IsShort;
    forall m, found {:trigger Reader.Finds(cfg.codec, file, m, found)} |
      Reader.Finds(cfg.codec, file, m, found) && IndexBytes(cfg, ops, metadata) <= MAX_INDEX_SIZE
      ensures m == c.master && found == metadata
    {
      FoundAsWritten(cfg, file, paths, LastDictionary(None, ops), metadata, c.master, m, found);
    }
  }

  lemma IndexPlace(cfg: Config, c: WriterState, paths: seq<Bytes>, metadata: Option<Bytes>)
    ensures FinalHeader(cfg, c, paths, metadata).indexOffset == c.currentOffset
    ensures |MetadataBytes(metadata)| <= |Tail(cfg, c, metadata)|
  {
  }

  /**
   The file of any permitted run, over any sound parents, is readable; its streams have the length of what they were
   given and the sizes declared for them, and they are what was given if and only if every delegated, non-zero chunk
   is held by a parent.
   */
  lemma BuiltFile(cfg: Config, ops: seq<Op>, paths: seq<Bytes>, metadata: Option<Bytes>, parents: seq<Image>)
    requires cfg.codec.Lawful() && RunPermitted(cfg, Initial(), ops) && HeaderFits(cfg, ops, paths, metadata)
    requires SoundParents(parents, cfg.codec)
    ensures var img, l := BuiltImage(cfg, ops, paths, metadata, parents), NoteAll(EMPTY_LEDGER, ops);
      && Readable(img)
      && (forall s: Stream {:trigger img.Content(s)} :: |img.Content(s)| == |l.Content(s)|)
      && (forall s: Stream {:trigger img.master.Size(s)} :: img.master.Size(s) == l.Declared(s))
      && (img.Content(Main) == l.main && img.Content(Auxiliary) == l.aux <==> AllHeld(cfg, parents, ops))
  {
    hide Ready, Codec.Lawful, Permitted, Run, Initial, Close, Finalize, FinalHeader, FileHolds, Readable, SoundParents,
      RecsBack, Finalizable, NoteAll, AllHeld;
    var st := Run(cfg, Initial(), ops);
    var c := Close(cfg, st);
    FinishedRunHolds(cfg, ops, paths, metadata);
    ClosedTracks(cfg, parents, ops);
    RecoveredIff(cfg, parents, ops);
    RecoveredSizes(cfg, parents, EMPTY_LEDGER, EMPTY_LEDGER, ops);
    FileIsReadable(cfg, Finalize(cfg, st, paths, metadata), FinalHeader(cfg, c, paths, metadata), c.master, c.history,
      Recovered(cfg, parents, ops), parents);
  }

  /** A stream's content, cut or padded with zeros to its declared size. */
  function Fit(content: Bytes, size: nat): (r: Bytes)
    ensures |r| == size
    ensures |content| == size ==> r == content
  {
    if |content| >= size then content[..size] else content + Zeros(size - |content|)
  }

  /** What a read of up to `len` bytes at `off` returns: nothing past the declared size, else what `ReadSpec` says. */
  ghost function ReadBack(img: Image, s: Stream, off: nat, len: nat): Bytes {
    var size := img.master.Size(s);
    if off >= size then [] else ReadSpec(img, s, off, Min(len, size - off))
  }

  /** Without parents, a read is a cut of the content as it fits the declared size. */
  lemma LoneRead(img: Image, s: Stream, off: nat, len: nat)
    requires img.parents == []
    ensures ReadBack(img, s, off, len) == Cut(Fit(img.Content(s), img.master.Size(s)), off, len)
  {
    var size := img.master.Size(s);
    if off < size {
      var n := Min(len, size - off);
      var own := Cut(img.Content(s), off, n);
      NoFallback(img, s, off + |own|, n - |own|);
      hide Fallback;
      LoneCut(img.Content(s), size, off, len);
    }
  }

  /** When blocks describe all of the declared size, a read is a cut of the content, whatever the parents. */
  lemma SettledRead(img: Image, s: Stream, off: nat, len: nat)
    requires img.master.Size(s) <= |img.Content(s)|
    ensures ReadBack(img, s, off, len) == Cut(Fit(img.Content(s), img.master.Size(s)), off, len)
  {
    var size := img.master.Size(s);
    if off < size { ReadSpecIsCut(img, s, off, Min(len, size - off)); }
  }

  lemma LoneCut(c: Bytes, size: nat, off: nat, len: nat)
    requires off < size
    ensures var n := Min(len, size - off);
      Cut(Fit(c, size), off, len) == Cut(c, off, n) + Zeros(n - |Cut(c, off, n)|)
  {
    var n := Min(len, size - off);
    var own := Cut(c, off, n);
    var l, r := Cut(Fit(c, size), off, len), own + Zeros(n - |own|);
    assert l == Fit(c, size)[off..off + n];
    assert |own| == if off >= |c| then 0 else Min(n, |c| - off);
    forall i | 0 <= i < n ensures l[i] == r[i] {
      assert l[i] == Fit(c, size)[off + i];
      if i < |own| { assert own[i] == c[off + i]; }
    }
  }

  ghost function Images(parents: seq<Archive>): (r: seq<Image>)
    ensures |r| == |parents| && forall p :: 0 <= p < |parents| ==> r[p] == parents[p].img
  {
    seq(|parents|, p requires 0 <= p < |parents| => parents[p].img)
  }

  /** Opens the finished file of a run over its parents, with or without a key. */
  method OpenFinished(
    cfg: Config, hasKey: bool, parents: seq<Archive>, file: Bytes, ghost ops: seq<Op>, ghost paths: seq<Bytes>,
    ghost metadata: Option<Bytes>, shardBlock: Reader.BlockKey -> nat, shardPage: nat -> nat, capacity: Option<nat>,
    prefetchWindow: nat)
    returns (r: Result<Archive>)
    requires cfg.codec.Lawful() && RunPermitted(cfg, Initial(), ops) && HeaderFits(cfg, ops, paths, metadata)
    requires file == Finalize(cfg, Run(cfg, Initial(), ops), paths, metadata)
    requires forall p: Archive {:trigger p in parents} :: p in parents ==> p.Valid()
    requires SoundParents(Images(parents), cfg.codec)
    ensures r.Ok? <==> (cfg.encrypted ==> hasKey) && IndexBytes(cfg, ops, metadata) <= MAX_INDEX_SIZE
    ensures r.Err? ==> r == Err(if cfg.encrypted && !hasKey then EncryptionError else FormatError)
    ensures r.Ok? ==> r.value.metadata == metadata && fresh(r.value.repr - Reader.Archive.Closure(parents))
    ensures r.Ok? && hasKey == cfg.encrypted ==>
      r.value.Valid() && r.value.img == BuiltImage(cfg, ops, paths, metadata, Images(parents))
  {
    hide *;
    BuiltFile(cfg, ops, paths, metadata, Images(parents));
    BuiltOpens(cfg, ops, paths, metadata, hasKey);
    BuiltDescribes(cfg, ops, paths, metadata, parents);
    r := Reader.Archive.Open(
      cfg.codec, hasKey, file, parents, shardBlock, shardPage, capacity, prefetchWindow,
      BuiltImage(cfg, ops, paths, metadata, Images(parents)));
    match r {
      case Ok(_) =>
      case Err(e) => assert e.EncryptionError? || e.IoError? || e.FormatError?;
    }
  }

  /** Writes an archive and opens it over its parents. */
  method OpenBuilt(
    cfg: Config, parents: seq<Archive>, ops: seq<Op>, paths: seq<Bytes>, metadata: Option<Bytes>,
    shardBlock: Reader.BlockKey -> nat, shardPage: nat -> nat, capacity: Option<nat>, prefetchWindow: nat)
    returns (r: Result<Archive>)
    requires cfg.codec.Lawful() && RunPermitted(cfg, Initial(), ops) && HeaderFits(cfg, ops, paths, metadata)
    requires forall p: Archive {:trigger p in parents} :: p in parents ==> p.Valid()
    requires SoundParents(Images(parents), cfg.codec)
    ensures if IndexBytes(cfg, ops, metadata) > MAX_INDEX_SIZE then r == Err(FormatError)
            else
              && r.Ok? && r.value.Valid() && r.value.img == BuiltImage(cfg, ops, paths, metadata, Images(parents))
              && fresh(r.value.repr - Reader.Archive.Closure(parents))
  {
    hide *;
    var file := Build(cfg, ops, paths, metadata);
    r := OpenFinished(
      cfg, cfg.encrypted, parents, file, ops, paths, metadata, shardBlock, shardPage, capacity, prefetchWindow);
  }

  lemma BuiltDescribes(cfg: Config, ops: seq<Op>, paths: seq<Bytes>, metadata: Option<Bytes>, parents: seq<Archive>)
    ensures var img := BuiltImage(cfg, ops, paths, metadata, Images(parents));
      && img.file == Finalize(cfg, Run(cfg, Initial(), ops), paths, metadata)
      && img.master == Close(cfg, Run(cfg, Initial(), ops)).master
      && Reader.Archive.Describes(img, cfg.codec, cfg.encrypted, img.file, img.master, parents)
  {
    hide Finalize, Run, Initial, Close, Recovered;
  }

  /** The two cases in which a read of the finished file is a cut of its stream. */
  lemma BuiltReads(
    cfg: Config, ops: seq<Op>, paths: seq<Bytes>, metadata: Option<Bytes>, parents: seq<Image>, s: Stream, off: nat,
    len: nat)
    requires cfg.codec.Lawful() && RunPermitted(cfg, Initial(), ops) && HeaderFits(cfg, ops, paths, metadata)
    requires SoundParents(parents, cfg.codec)
    requires var l := NoteAll(EMPTY_LEDGER, ops); parents == [] || l.Declared(s) <= |l.Content(s)|
    ensures var img, l := BuiltImage(cfg, ops, paths, metadata, parents), NoteAll(EMPTY_LEDGER, ops);
      && ReadBack(img, s, off, len) == Cut(Fit(Recovered(cfg, parents, ops).Content(s), l.Declared(s)), off, len)
      && (AllHeld(cfg, parents, ops) ==> ReadBack(img, s, off, len) == Cut(Fit(l.Content(s), l.Declared(s)), off, len))
  {
    hide Codec.Lawful, RunPermitted, HeaderFits, SoundParents, AllHeld, Fit, Cut, ReadBack, NoteAll, Recovered,
      Readable, Initial, Run, Close, Finalize;
    var img := BuiltImage(cfg, ops, paths, metadata, parents);
    BuiltFile(cfg, ops, paths, metadata, parents);
    assert img.parents == parents && img.Content(s) == Recovered(cfg, parents, ops).Content(s);
    assert |img.Content(s)| == |NoteAll(EMPTY_LEDGER, ops).Content(s)|;
    assert img.master.Size(s) == NoteAll(EMPTY_LEDGER, ops).Declared(s);
    if parents == [] { LoneRead(img, s, off, len); } else { SettledRead(img, s, off, len); }
  }

  /**
   Round trip. For every permitted sequence of calls on a fresh writer, encrypted or not, with or without a parent
   index, and over any sound parents: every read of the finished file returns what its streams denote, whatever the
   cache capacity and placement. That is the matching slice of what comes back of the stream's bytes, cut or padded
   with zeros to the size declared for it, when there are no parents or the stream reached that size; and all bytes
   come back as they were given when each delegated, non-zero chunk is held by a parent.
   */
  method WriteThenRead(
    cfg: Config, parents: seq<Archive>, ops: seq<Op>, paths: seq<Bytes>, metadata: Option<Bytes>,
    shardBlock: Reader.BlockKey -> nat, shardPage: nat -> nat, capacity: Option<nat>, prefetchWindow: nat,
    stream: Stream, off: nat, len: nat)
    returns (r: Result<Bytes>)
    requires cfg.codec.Lawful()
    requires forall p: Archive {:trigger p in parents} :: p in parents ==> p.Valid()
    requires SoundParents(Images(parents), cfg.codec)
    requires RunPermitted(cfg, Initial(), ops) && HeaderFits(cfg, ops, paths, metadata)
    modifies Reader.Archive.Closure(parents)
    ensures r ==
      if IndexBytes(cfg, ops, metadata) > MAX_INDEX_SIZE then Err(FormatError)
      else Ok(ReadBack(BuiltImage(cfg, ops, paths, metadata, Images(parents)), stream, off, len))
    ensures var l := NoteAll(EMPTY_LEDGER, ops);
      r.Ok? && (parents == [] || l.Declared(stream) <= |l.Content(stream)|) ==>
        && r.value == Cut(Fit(Recovered(cfg, Images(parents), ops).Content(stream), l.Declared(stream)), off, len)
        && (AllHeld(cfg, Images(parents), ops) ==>
          r.value == Cut(Fit(l.Content(stream), l.Declared(stream)), off, len))
  {
    hide *;
    var found := OpenBuilt(cfg, parents, ops, paths, metadata, shardBlock, shardPage, capacity, prefetchWindow);
    match found {
      case Err(e) => return Err(e);
      case Ok(archive) =>
        archive.SizeIsDeclared(stream);
        ReadBackMeans(archive.img, stream, off, len);
        assert parents == [] ==> Images(parents) == [];
        var l := NoteAll(EMPTY_LEDGER, ops);
        if Images(parents) == [] || l.Declared(stream) <= |l.Content(stream)| {
          BuiltReads(cfg, ops, paths, metadata, Images(parents), stream, off, len);
        }
        r := archive.ReadAt(stream, off, len);
    }
  }

  lemma ReadBackMeans(img: Image, s: Stream, off: nat, len: nat)
    ensures var size := img.master.Size(s);
      ReadBack(img, s, off, len) == if off >= size then [] else ReadSpec(img, s, off, Min(len, size - off))
  {
  }

  /** Every byte that was given to either stream is in the reads of its own place. */
  ghost predicate ReadsAsWritten(img: Image, l: Ledger) {
    forall s: Stream, off: nat, n: nat {:trigger ReadBack(img, s, off, n)} :: off + n <= |l.Content(s)| ==>
      ReadBack(img, s, off, n) == l.Content(s)[off..off + n]
  }

  /**
   The exact condition for getting back what was given, when sizes are declared in full: every read of every part
   returns the bytes written there if and only if each chunk this run delegated is zeros or held by a parent.
   */
  lemma ReadsAsWrittenIff(cfg: Config, ops: seq<Op>, paths: seq<Bytes>, metadata: Option<Bytes>, parents: seq<Image>)
    requires cfg.codec.Lawful() && RunPermitted(cfg, Initial(), ops) && HeaderFits(cfg, ops, paths, metadata)
    requires SoundParents(parents, cfg.codec)
    requires var l := NoteAll(EMPTY_LEDGER, ops); |l.main| <= l.mainDeclared && |l.aux| <= l.auxDeclared
    ensures ReadsAsWritten(BuiltImage(cfg, ops, paths, metadata, parents), NoteAll(EMPTY_LEDGER, ops)) <==>
      AllHeld(cfg, parents, ops)
  {
    hide Codec.Lawful, RunPermitted, HeaderFits, SoundParents, AllHeld, NoteAll, BuiltImage, Readable, Initial;
    var img, l := BuiltImage(cfg, ops, paths, metadata, parents), NoteAll(EMPTY_LEDGER, ops);
    BuiltFile(cfg, ops, paths, metadata, parents);
    assert |img.Content(Main)| == |l.Content(Main)| && |img.Content(Auxiliary)| == |l.Content(Auxiliary)|;
    assert img.master.Size(Main) == l.Declared(Main) && img.master.Size(Auxiliary) == l.Declared(Auxiliary);
    ReadsAsWrittenMeans(img, l);
  }

  lemma ReadsAsWrittenMeans(img: Image, l: Ledger)
    requires forall s: Stream {:trigger img.Content(s)} ::
      |img.Content(s)| == |l.Content(s)| <= img.master.Size(s)
    ensures ReadsAsWritten(img, l) <==> img.Content(Main) == l.main && img.Content(Auxiliary) == l.aux
  {
    hide ReadBack;
    forall s: Stream, off: nat, n: nat {:trigger ReadBack(img, s, off, n)} | off + n <= |l.Content(s)|
      ensures ReadBack(img, s, off, n) == img.Content(s)[off..off + n]
    {
      CoveredRead(img, s, off, n);
    }
    forall s: Stream ensures ReadBack(img, s, 0, |l.Content(s)|) == img.Content(s) {
      assert img.Content(s)[0..|l.Content(s)|] == img.Content(s);
    }
    forall s: Stream ensures l.Content(s)[0..|l.Content(s)|] == l.Content(s) {}
  }

  /** Bytes that blocks describe are read as they are. */
  lemma CoveredRead(img: Image, s: Stream, off: nat, n: nat)
    requires off + n <= |img.Content(s)| <= img.master.Size(s)
    ensures ReadBack(img, s, off, n) == img.Content(s)[off..off + n]
  {
    if off < img.master.Size(s) {
      assert |Fallback(img, s, off + n, 0)| == 0;
    }
  }
}
