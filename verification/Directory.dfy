// Packing a file or directory and extracting it again (pack_archive, extract_archive).
module Directory {
  import opened Common
  import opened Format
  import opened Image
  import opened WriterModel
  import opened WriterRuns
  import opened Recovery
  import opened RoundTrip
  import opened PackStream
  import Chunks
  import Reader
  import Writer

  /** A file as the walk finds it, already cut into chunks. */
  datatype SourceFile = SourceFile(path: string, chunks: seq<Bytes>, mode: nat, mtime: nat) {
    function Content(): Bytes { Flatten(chunks) }
  }

  datatype FileEntry = FileEntry(path: string, offset: nat, size: nat, mode: nat, mtime: nat)

  type Manifest = seq<FileEntry>

  /** The manifest's own serialization. */
  datatype ManifestCodec = ManifestCodec(encode: Manifest -> Bytes, decode: Bytes -> Option<Manifest>) {
    ghost predicate Lawful() { forall m :: decode(encode(m)) == Some(m) }
  }

  // ---------------------------------------------------------------------------------------------
  // What packing a directory amounts to

  function FileOps(parallel: bool, f: SourceFile): seq<Op> { ChunkOps(parallel, f.chunks) + [Flush] }

  function FilesOps(parallel: bool, files: seq<SourceFile>): seq<Op> {
    if files == [] then [] else FilesOps(parallel, files[..|files| - 1]) + FileOps(parallel, files[|files| - 1])
  }

  /** All files of a stream, one after the other. */
  function Contents(files: seq<SourceFile>): Bytes {
    if files == [] then [] else Contents(files[..|files| - 1]) + files[|files| - 1].Content()
  }

  function StreamOps(parallel: bool, isMain: bool, files: seq<SourceFile>): seq<Op> {
    [Begin(isMain, |Contents(files)|)] + FilesOps(parallel, files) + [End]
  }

  function DirectoryOps(parallel: bool, main: seq<SourceFile>, aux: seq<SourceFile>): seq<Op> {
    StreamOps(parallel, true, main) + if aux == [] then [] else StreamOps(parallel, false, aux)
  }

  /** Manifest entries of main-stream files: each starts where the ones before it end. */
  function MainEntries(files: seq<SourceFile>): (entries: Manifest)
    ensures |entries| == |files|
  {
    if files == [] then []
    else
      var n := |files| - 1;
      MainEntries(files[..n]) + [EntryFor(files[n], |Contents(files[..n])|)]
  }

  function EntryFor(f: SourceFile, offset: nat): FileEntry {
    FileEntry(f.path, offset, |f.Content()|, f.mode, f.mtime)
  }

  /** The entry has the file's path, length, permissions and time. */
  predicate Describes(e: FileEntry, f: SourceFile) {
    e.path == f.path && e.size == |f.Content()| && e.mode == f.mode && e.mtime == f.mtime
  }

  /** Auxiliary entries all claim offset 0. */
  function AuxEntries(files: seq<SourceFile>): (entries: Manifest)
    ensures |entries| == |files| && forall k :: 0 <= k < |files| ==> entries[k] == EntryFor(files[k], 0)
    ensures forall k :: 0 <= k < |files| ==> Describes(entries[k], files[k]) && entries[k].offset == 0
  {
    seq(|files|, k requires 0 <= k < |files| => EntryFor(files[k], 0))
  }

  lemma ContentsNext(files: seq<SourceFile>, k: nat)
    requires k < |files|
    ensures Contents(files[..k + 1]) == Contents(files[..k]) + files[k].Content()
  {
    assert files[..k + 1][..k] == files[..k];
  }

  lemma {:induction false} ContentsPrefix(files: seq<SourceFile>, j: nat)
    requires j <= |files|
    ensures Contents(files[..j]) <= Contents(files)
    decreases |files| - j
  {
    if j == |files| {
      assert files[..j] == files;
    } else {
      ContentsNext(files, j);
      ContentsPrefix(files, j + 1);
      hide Contents;
    }
  }

  lemma {:induction false} EntryAt(files: seq<SourceFile>, k: nat)
    requires k < |files|
    ensures MainEntries(files)[k] == EntryFor(files[k], |Contents(files[..k])|)
  {
    var n := |files| - 1;
    if k < n {
      EntryAt(files[..n], k);
      assert files[..n][..k] == files[..k];
    }
  }

  /** The manifest's ranges follow each other without gap or overlap, cover the stream, and hold the files. */
  lemma ManifestTiles(files: seq<SourceFile>, k: nat)
    requires k < |files|
    ensures var e := MainEntries(files)[k];
      && Describes(e, files[k])
      && (k == 0 ==> e.offset == 0)
      && (k + 1 < |files| ==> MainEntries(files)[k + 1].offset == e.offset + e.size)
      && (k + 1 == |files| ==> e.offset + e.size == |Contents(files)|)
      && e.offset + e.size <= |Contents(files)|
      && Contents(files)[e.offset..e.offset + e.size] == files[k].Content()
  {
    EntryAt(files, k);
    if k + 1 < |files| { EntryAt(files, k + 1); }
    ContentsNext(files, k);
    ContentsPrefix(files, k + 1);
    if k == 0 { assert files[..k] == []; }
    if k + 1 == |files| { assert files[..k + 1] == files; }
    hide Contents, MainEntries, SourceFile.Content;
    PieceOfPrefix(Contents(files[..k]), files[k].Content(), Contents(files));
  }

  lemma PieceOfPrefix(a: Bytes, b: Bytes, c: Bytes)
    requires a + b <= c
    ensures |a| + |b| <= |c| && c[|a|..|a| + |b|] == b
  {
    assert c[..|a + b|] == a + b;
    assert c[|a|..|a| + |b|] == c[..|a + b|][|a|..];
  }

  lemma {:induction false} FilesLedger(l: Ledger, parallel: bool, files: seq<SourceFile>)
    ensures NoteAll(l, FilesOps(parallel, files)) == l.Receive(Contents(files))
  {
    if files == [] {
      ReceiveNothing(l);
    } else {
      var n := |files| - 1;
      var mid := l.Receive(Contents(files[..n]));
      FilesLedger(l, parallel, files[..n]);
      NoteConcat(l, FilesOps(parallel, files[..n]), FileOps(parallel, files[n]));
      NoteConcat(mid, ChunkOps(parallel, files[n].chunks), [Flush]);
      ChunksLedger(mid, parallel, files[n].chunks);
      NoteOne(mid.Receive(files[n].Content()), Flush);
      ReceiveTwice(l, Contents(files[..n]), files[n].Content());
    }
  }

  lemma StreamLedger(l: Ledger, parallel: bool, isMain: bool, files: seq<SourceFile>)
    ensures NoteAll(l, StreamOps(parallel, isMain, files)) ==
      Note(l, Begin(isMain, |Contents(files)|)).Receive(Contents(files))
  {
    var first := Begin(isMain, |Contents(files)|);
    NoteConcat(l, [first] + FilesOps(parallel, files), [End]);
    NoteConcat(l, [first], FilesOps(parallel, files));
    NoteOne(l, first);
    FilesLedger(Note(l, first), parallel, files);
    NoteOne(Note(l, first).Receive(Contents(files)), End);
  }

  /** After packing, the main stream holds exactly the main files and is settled; so is the auxiliary one. */
  lemma DirectoryLedger(parallel: bool, main: seq<SourceFile>, aux: seq<SourceFile>)
    ensures var l := NoteAll(EMPTY_LEDGER, DirectoryOps(parallel, main, aux));
      && l.main == Contents(main) && l.mainDeclared == |Contents(main)|
      && l.aux == Contents(aux) && l.auxDeclared == |Contents(aux)|
  {
    var rest := if aux == [] then [] else StreamOps(parallel, false, aux);
    NoteConcat(EMPTY_LEDGER, StreamOps(parallel, true, main), rest);
    StreamLedger(EMPTY_LEDGER, parallel, true, main);
    var mid := Note(EMPTY_LEDGER, Begin(true, |Contents(main)|)).Receive(Contents(main));
    if aux != [] { StreamLedger(mid, parallel, false, aux); }
  }

  // ---------------------------------------------------------------------------------------------
  // Packing

  /** One file; the next one starts on a page of its own. */
  method PackFileToStream(w: Writer.ArchiveWriter, f: SourceFile, parallel: bool)
    requires w.Valid() && RunPermitted(w.cfg, w.State(), FileOps(RunsParallel(w.cfg, parallel), f))
    modifies w, w.dedupMap
    ensures w.Valid() && w.State() == Run(w.cfg, old(w.State()), FileOps(RunsParallel(w.cfg, parallel), f))
    ensures w.dedupMap == old(w.dedupMap) && w.streamActive == old(w.streamActive) && w.page == []
  {
    hide Ready, Codec.Lawful, Permitted, Apply, Writer.ArchiveWriter.State, Writer.ArchiveWriter.Valid;
    ghost var ops := ChunkOps(RunsParallel(w.cfg, parallel), f.chunks);
    RunConcat(w.cfg, w.State(), ops, [Flush]);
    PackChunks(w, f.chunks, parallel);
    RunOne(w.cfg, w.State(), Flush);
    ValidIsReady(w);
    Chunks.PageIsWritten(w.cfg, w.State(), Flush);
    w.FlushStream();
    PageOfState(w);
  }

  lemma ValidIsReady(w: Writer.ArchiveWriter)
    requires w.Valid()
    ensures w.cfg.codec.Lawful() && Ready(w.cfg, w.State())
  {
    hide Ready, Codec.Lawful;
  }

  lemma PageOfState(w: Writer.ArchiveWriter)
    ensures w.page == w.State().page
  {
  }

  /** Where the writer stands is how much its stream has been given. */
  lemma PositionIsLength(w: Writer.ArchiveWriter)
    requires w.Valid() && w.streamActive
    ensures w.currentLogicalPos == |LedgerOf(w.State()).Content(w.State().Current())|
  {
    hide StreamOk, PageWritten, DedupSound;
  }

  lemma FilesSplit(parallel: bool, files: seq<SourceFile>, i: nat)
    requires i < |files|
    ensures FilesOps(parallel, files[..i + 1]) == FilesOps(parallel, files[..i]) + FileOps(parallel, files[i])
  {
    assert files[..i + 1][..i] == files[..i];
  }

  lemma {:induction false} FilesPrefix(cfg: Config, st: WriterState, parallel: bool, files: seq<SourceFile>, i: nat)
    requires i < |files| && RunPermitted(cfg, st, FilesOps(parallel, files))
    ensures RunPermitted(cfg, st, FilesOps(parallel, files[..i]))
    ensures RunPermitted(cfg, Run(cfg, st, FilesOps(parallel, files[..i])), FileOps(parallel, files[i]))
    decreases |files|
  {
    hide Permitted, Apply, FileOps, Run, RunPermitted;
    var n := |files| - 1;
    RunConcat(cfg, st, FilesOps(parallel, files[..n]), FileOps(parallel, files[n]));
    if i < n {
      assert files[..n][..i] == files[..i];
      FilesPrefix(cfg, st, parallel, files[..n], i);
    }
  }

  /** Packs the main-stream files, listing each at the position the writer has reached. */
  method PackMainFiles(w: Writer.ArchiveWriter, files: seq<SourceFile>, parallel: bool) returns (entries: Manifest)
    requires w.Valid() && w.streamActive && LedgerOf(w.State()).Content(w.State().Current()) == []
    requires RunPermitted(w.cfg, w.State(), FilesOps(RunsParallel(w.cfg, parallel), files))
    modifies w, w.dedupMap
    ensures w.Valid() && w.streamActive && w.dedupMap == old(w.dedupMap)
    ensures w.State() == Run(w.cfg, old(w.State()), FilesOps(RunsParallel(w.cfg, parallel), files))
    ensures entries == MainEntries(files)
  {
    hide Ready, Codec.Lawful, Permitted, Apply, Run, Writer.ArchiveWriter.State, Writer.ArchiveWriter.Valid, FilesOps,
      FileOps, LedgerOf;
    ghost var par := RunsParallel(w.cfg, parallel);
    ghost var st0 := w.State();
    entries := [];
    var currentLogicalOffset := 0;
    var i := 0;
    NoFiles(w.cfg, st0, par, files);
    while i < |files|
      invariant i <= |files|
      invariant w.Valid() && w.streamActive && w.dedupMap == old(w.dedupMap)
      invariant w.State() == Run(w.cfg, st0, FilesOps(par, files[..i]))
      invariant currentLogicalOffset == |Contents(files[..i])|
      invariant entries == MainEntries(files[..i])
    {
      var f := files[i];
      FilesPrefix(w.cfg, st0, par, files, i);
      FilesSplit(par, files, i);
      RunConcat(w.cfg, st0, FilesOps(par, files[..i]), FileOps(par, f));
      assert files[..i + 1][..i] == files[..i];
      PackFileToStream(w, f, parallel);
      entries := entries + [FileEntry(f.path, currentLogicalOffset, |f.Content()|, f.mode, f.mtime)];
      PositionAfter(w, st0, par, files[..i + 1]);
      currentLogicalOffset := w.currentLogicalPos;
      i := i + 1;
    }
    assert files[..i] == files;
  }

  lemma NoFiles(cfg: Config, st: WriterState, parallel: bool, files: seq<SourceFile>)
    ensures files[..0] == [] && Run(cfg, st, FilesOps(parallel, files[..0])) == st
    ensures Contents(files[..0]) == []
  {
  }

  lemma PositionAfter(w: Writer.ArchiveWriter, st0: WriterState, parallel: bool, files: seq<SourceFile>)
    requires w.Valid() && w.streamActive && w.State() == Run(w.cfg, st0, FilesOps(parallel, files))
    requires LedgerOf(st0).Content(st0.Current()) == []
    ensures w.currentLogicalPos == |Contents(files)|
  {
    hide Ready, Codec.Lawful, Permitted, Apply, Run, FilesOps;
    PositionIsLength(w);
    RunLedger(w.cfg, st0, FilesOps(parallel, files));
    FilesLedger(LedgerOf(st0), parallel, files);
  }

  lemma {:induction false} RunLedger(cfg: Config, st: WriterState, ops: seq<Op>)
    ensures LedgerOf(Run(cfg, st, ops)) == NoteAll(LedgerOf(st), ops)
    decreases |ops|
  {
    hide Apply, LedgerOf, Note;
    if ops != [] {
      ApplyLedger(cfg, st, ops[0]);
      RunLedger(cfg, Apply(cfg, st, ops[0]), ops[1..]);
    }
  }

  /** Packs the root-level files that go to the auxiliary stream. */
  method PackAuxiliaryFiles(w: Writer.ArchiveWriter, files: seq<SourceFile>, parallel: bool) returns (entries: Manifest)
    requires w.Valid() && RunPermitted(w.cfg, w.State(), FilesOps(RunsParallel(w.cfg, parallel), files))
    modifies w, w.dedupMap
    ensures w.Valid() && w.dedupMap == old(w.dedupMap)
    ensures w.State() == Run(w.cfg, old(w.State()), FilesOps(RunsParallel(w.cfg, parallel), files))
    ensures entries == AuxEntries(files)
  {
    hide Ready, Codec.Lawful, Permitted, Apply, Run, Writer.ArchiveWriter.State, Writer.ArchiveWriter.Valid, FilesOps,
      FileOps;
    ghost var par := RunsParallel(w.cfg, parallel);
    ghost var st0 := w.State();
    entries := [];
    var i := 0;
    NoFiles(w.cfg, st0, par, files);
    while i < |files|
      invariant i <= |files|
      invariant w.Valid() && w.dedupMap == old(w.dedupMap)
      invariant w.State() == Run(w.cfg, st0, FilesOps(par, files[..i]))
      invariant entries == AuxEntries(files)[..i]
    {
      var f := files[i];
      FilesPrefix(w.cfg, st0, par, files, i);
      FilesSplit(par, files, i);
      RunConcat(w.cfg, st0, FilesOps(par, files[..i]), FileOps(par, f));
      PackFileToStream(w, f, parallel);
      entries := entries + [FileEntry(f.path, 0, |f.Content()|, f.mode, f.mtime)];
      i := i + 1;
    }
    assert files[..i] == files && AuxEntries(files)[..i] == AuxEntries(files);
  }

  function TotalSize(files: seq<SourceFile>): (n: nat)
    ensures n == |Contents(files)|
  {
    if files == [] then 0 else TotalSize(files[..|files| - 1]) + |files[|files| - 1].Content()|
  }

  /** Packs a whole directory into a fresh main stream and, if there is anything for it, the auxiliary stream. */
  method PackDirectory(w: Writer.ArchiveWriter, main: seq<SourceFile>, aux: seq<SourceFile>, parallel: bool)
    returns (manifest: Manifest)
    requires w.Valid() && w.Written(Main) == []
    requires RunPermitted(w.cfg, w.State(), DirectoryOps(RunsParallel(w.cfg, parallel), main, aux))
    modifies w, w.dedupMap
    ensures w.Valid() && (w.dedupMap == old(w.dedupMap) || fresh(w.dedupMap))
    ensures w.State() == Run(w.cfg, old(w.State()), DirectoryOps(RunsParallel(w.cfg, parallel), main, aux))
    ensures manifest == MainEntries(main) + AuxEntries(aux)
  {
    hide Ready, Codec.Lawful, Apply, Run, RunPermitted, FilesOps;
    ghost var par := RunsParallel(w.cfg, parallel);
    ghost var st0 := w.State();
    ghost var rest := if aux == [] then [] else StreamOps(par, false, aux);
    RunConcat(w.cfg, st0, StreamOps(par, true, main), rest);
    var mainEntries := PackMainStream(w, main, parallel);
    var auxEntries := [];
    if aux != [] {
      auxEntries := PackAuxiliaryStream(w, aux, parallel);
    } else {
      RunNothing(w.cfg, w.State());
    }
    manifest := mainEntries + auxEntries;
  }

  lemma RunNothing(cfg: Config, st: WriterState)
    ensures Run(cfg, st, []) == st
  {
  }

  lemma StreamSteps(cfg: Config, st: WriterState, parallel: bool, isMain: bool, files: seq<SourceFile>)
    requires RunPermitted(cfg, st, StreamOps(parallel, isMain, files))
    ensures var first := Begin(isMain, |Contents(files)|);
      && Permitted(cfg, st, first)
      && RunPermitted(cfg, Apply(cfg, st, first), FilesOps(parallel, files))
      && Run(cfg, st, StreamOps(parallel, isMain, files)) ==
         Apply(cfg, Run(cfg, Apply(cfg, st, first), FilesOps(parallel, files)), End)
  {
    hide Permitted, Apply, FilesOps;
    var first := Begin(isMain, |Contents(files)|);
    RunConcat(cfg, st, [first] + FilesOps(parallel, files), [End]);
    RunConcat(cfg, st, [first], FilesOps(parallel, files));
    RunOne(cfg, st, first);
    RunOne(cfg, Run(cfg, Apply(cfg, st, first), FilesOps(parallel, files)), End);
  }

  method PackMainStream(w: Writer.ArchiveWriter, files: seq<SourceFile>, parallel: bool) returns (entries: Manifest)
    requires w.Valid() && w.Written(Main) == []
    requires RunPermitted(w.cfg, w.State(), StreamOps(RunsParallel(w.cfg, parallel), true, files))
    modifies w, w.dedupMap
    ensures w.Valid() && (w.dedupMap == old(w.dedupMap) || fresh(w.dedupMap))
    ensures w.State() == Run(w.cfg, old(w.State()), StreamOps(RunsParallel(w.cfg, parallel), true, files))
    ensures entries == MainEntries(files)
  {
    hide Ready, Codec.Lawful, Run, RunPermitted, FilesOps, StreamOps;
    StreamSteps(w.cfg, w.State(), RunsParallel(w.cfg, parallel), true, files);
    ApplyLedger(w.cfg, w.State(), Begin(true, |Contents(files)|));
    hide Apply;
    w.BeginStream(true, TotalSize(files));
    entries := PackMainFiles(w, files, parallel);
    w.EndStream();
  }

  method PackAuxiliaryStream(w: Writer.ArchiveWriter, files: seq<SourceFile>, parallel: bool)
    returns (entries: Manifest)
    requires w.Valid() && RunPermitted(w.cfg, w.State(), StreamOps(RunsParallel(w.cfg, parallel), false, files))
    modifies w, w.dedupMap
    ensures w.Valid() && (w.dedupMap == old(w.dedupMap) || fresh(w.dedupMap))
    ensures w.State() == Run(w.cfg, old(w.State()), StreamOps(RunsParallel(w.cfg, parallel), false, files))
    ensures entries == AuxEntries(files)
  {
    hide Ready, Codec.Lawful, Run, RunPermitted, FilesOps, StreamOps;
    StreamSteps(w.cfg, w.State(), RunsParallel(w.cfg, parallel), false, files);
    hide Apply;
    w.BeginStream(false, TotalSize(files));
    entries := PackAuxiliaryFiles(w, files, parallel);
    w.EndStream();
  }

  // ---------------------------------------------------------------------------------------------
  // Extracting

  datatype Extraction = Files(files: seq<(string, Bytes)>) | Raw(data: Bytes)

  const EXTRACT_CHUNK: nat := 1024 * 1024

  /** Main-stream content, all of it described by blocks: what a settled archive holds. */
  ghost predicate HoldsMain(a: Reader.Archive, content: Bytes) {
    a.img.Content(Main) == content && a.img.master.mainSize == |content|
  }

  /** A read of a settled main stream is a cut of it. */
  method ReadMain(a: Reader.Archive, ghost content: Bytes, offset: nat, len: nat) returns (r: Result<Bytes>)
    requires a.Valid() && HoldsMain(a, content)
    modifies a.repr
    ensures a.Valid() && r == Ok(Cut(content, offset, len))
  {
    hide Reader.Archive.Valid, ReadSpec, Cut;
    a.SameMasterWhenValid();
    SettledRead(a.img, Main, offset, len);
    r := a.ReadAt(Main, offset, len);
  }

  /** One output file per manifest entry, read from the main stream. */
  method ExtractFiles(a: Reader.Archive, manifest: Manifest, ghost content: Bytes)
    returns (r: Result<seq<(string, Bytes)>>)
    requires a.Valid() && HoldsMain(a, content)
    modifies a.repr
    ensures a.Valid() && r.Ok? && |r.value| == |manifest|
    ensures forall k :: 0 <= k < |manifest| ==>
      r.value[k] == (manifest[k].path, Cut(content, manifest[k].offset, manifest[k].size))
  {
    hide Reader.Archive.Valid, Cut;
    var out := [];
    var k := 0;
    while k < |manifest|
      invariant k <= |manifest| == |manifest[..k]| + |manifest| - k
      invariant a.Valid() && |out| == k
      invariant forall j :: 0 <= j < k ==>
        out[j] == (manifest[j].path, Cut(content, manifest[j].offset, manifest[j].size))
    {
      var data := ReadMain(a, content, manifest[k].offset, manifest[k].size);
      match data {
        case Err(e) => return Err(e);
        case Ok(bytes) => out := out + [(manifest[k].path, bytes)];
      }
      k := k + 1;
    }
    return Ok(out);
  }

  /** Without a manifest: the whole main stream, in pieces of one MiB. */
  method ExtractRaw(a: Reader.Archive, ghost content: Bytes) returns (r: Result<Bytes>)
    requires a.Valid() && HoldsMain(a, content)
    modifies a.repr
    ensures a.Valid() && r == Ok(content)
  {
    hide Reader.Archive.Valid;
    a.SameMasterWhenValid();
    var size := a.Size(Main);
    var out := [];
    var pos := 0;
    while pos < size
      invariant pos <= size == |content|
      invariant a.Valid() && out == content[..pos]
    {
      var len := Min(EXTRACT_CHUNK, size - pos);
      var data := ReadMain(a, content, pos, len);
      match data {
        case Err(e) => return Err(e);
        case Ok(bytes) =>
          assert content[..pos] + content[pos..pos + len] == content[..pos + len];
          out := out + bytes;
      }
      pos := pos + len;
    }
    assert content[..pos] == content;
    return Ok(out);
  }

  /** With a readable manifest in the metadata, a directory; else a single file. */
  method Extract(a: Reader.Archive, mc: ManifestCodec, ghost content: Bytes) returns (r: Result<Extraction>)
    requires a.Valid() && HoldsMain(a, content)
    modifies a.repr
    ensures r.Ok?
    ensures a.metadata.Some? && mc.decode(a.metadata.value).Some? ==>
      var manifest := mc.decode(a.metadata.value).value;
      && r.value.Files? && |r.value.files| == |manifest|
      && forall k :: 0 <= k < |manifest| ==>
        r.value.files[k] == (manifest[k].path, Cut(content, manifest[k].offset, manifest[k].size))
    ensures !(a.metadata.Some? && mc.decode(a.metadata.value).Some?) ==> r == Ok(Raw(content))
  {
    hide Reader.Archive.Valid, Cut;
    if a.metadata.Some? && mc.decode(a.metadata.value).Some? {
      var files := ExtractFiles(a, mc.decode(a.metadata.value).value, content);
      match files {
        case Err(e) => return Err(e);
        case Ok(fs) => return Ok(Files(fs));
      }
    }
    var raw := ExtractRaw(a, content);
    match raw {
      case Err(e) => return Err(e);
      case Ok(data) => return Ok(Raw(data));
    }
  }

  // ---------------------------------------------------------------------------------------------
  // Directory round trip

  /** What extraction makes of each packed file: auxiliary ones come out of the main stream, from its start. */
  function Extracted(main: seq<SourceFile>, aux: seq<SourceFile>): (files: seq<(string, Bytes)>)
    ensures |files| == |main| + |aux|
    ensures forall k :: 0 <= k < |main| ==> files[k] == (main[k].path, main[k].Content())
    ensures forall k {:trigger aux[k]} :: 0 <= k < |aux| ==>
      files[|main| + k] == (aux[k].path, Cut(Contents(main), 0, |aux[k].Content()|))
  {
    seq(|main|, k requires 0 <= k < |main| => (main[k].path, main[k].Content())) +
    seq(|aux|, k requires 0 <= k < |aux| => (aux[k].path, Cut(Contents(main), 0, |aux[k].Content()|)))
  }

  lemma ManifestExtracts(main: seq<SourceFile>, aux: seq<SourceFile>, files: seq<(string, Bytes)>)
    requires var m := MainEntries(main) + AuxEntries(aux);
      && |files| == |m|
      && forall k :: 0 <= k < |m| ==> files[k] == (m[k].path, Cut(Contents(main), m[k].offset, m[k].size))
    ensures files == Extracted(main, aux)
  {
    hide MainEntries, AuxEntries, Contents, SourceFile.Content, Cut, Extracted;
    forall k | 0 <= k < |files| ensures files[k] == Extracted(main, aux)[k] {
      if k < |main| {
        EntryExtracts(main, k);
      } else {
        assert AuxEntries(aux)[k - |main|] == EntryFor(aux[k - |main|], 0);
      }
    }
  }

  lemma EntryExtracts(main: seq<SourceFile>, k: nat)
    requires k < |main|
    ensures var e := MainEntries(main)[k];
      e.path == main[k].path && Cut(Contents(main), e.offset, e.size) == main[k].Content()
  {
    hide MainEntries, Contents, SourceFile.Content, Cut;
    ManifestTiles(main, k);
    WholeCut(Contents(main), MainEntries(main)[k].offset, main[k].Content());
  }

  lemma WholeCut(c: Bytes, at: nat, piece: Bytes)
    requires at + |piece| <= |c| && c[at..at + |piece|] == piece
    ensures Cut(c, at, |piece|) == piece
  {
  }

  /** An auxiliary file survives the trip exactly when the main stream happens to begin with its content. */
  lemma AuxiliarySurvivesIff(main: seq<SourceFile>, aux: seq<SourceFile>, k: nat)
    requires k < |aux|
    ensures Extracted(main, aux)[|main| + k] == (aux[k].path, aux[k].Content()) <==> aux[k].Content() <= Contents(main)
  {
    hide Contents, SourceFile.Content, Cut;
    CutIsPrefix(aux[k].Content(), Contents(main));
  }

  lemma CutIsPrefix(a: Bytes, b: Bytes)
    ensures Cut(b, 0, |a|) == a <==> a <= b
  {
    if |a| <= |b| && |b| > 0 { assert Cut(b, 0, |a|) == b[..|a|]; }
  }

  // ---------------------------------------------------------------------------------------------
  // Whole archives

  /** What is packed: a directory, or a single file. */
  datatype Input = Tree(main: seq<SourceFile>, aux: seq<SourceFile>) | Lone(chunks: seq<Bytes>)

  function InputOps(parallel: bool, input: Input): seq<Op> {
    match input
    case Tree(main, aux) => DirectoryOps(parallel, main, aux)
    case Lone(chunks) => WholeStreamOps(parallel, true, chunks)
  }

  function DictionaryOps(dict: Option<Bytes>): seq<Op> { if dict.Some? then [Dictionary(dict.value)] else [] }

  function ArchiveOps(parallel: bool, dict: Option<Bytes>, input: Input): seq<Op> {
    DictionaryOps(dict) + InputOps(parallel, input)
  }

  /** Only directories have a manifest. */
  function Metadata(mc: ManifestCodec, input: Input): Option<Bytes> {
    match input
    case Tree(main, aux) => Some(mc.encode(MainEntries(main) + AuxEntries(aux)))
    case Lone(_) => None
  }

  function MainBytes(input: Input): Bytes {
    match input case Tree(main, _) => Contents(main) case Lone(chunks) => Flatten(chunks)
  }

  lemma WholeStreamLedger(l: Ledger, parallel: bool, isMain: bool, chunks: seq<Bytes>)
    ensures NoteAll(l, WholeStreamOps(parallel, isMain, chunks)) ==
      Note(l, Begin(isMain, |Flatten(chunks)|)).Receive(Flatten(chunks))
  {
    var first := Begin(isMain, |Flatten(chunks)|);
    NoteConcat(l, [first] + ChunkOps(parallel, chunks), [End]);
    NoteConcat(l, [first], ChunkOps(parallel, chunks));
    NoteOne(l, first);
    ChunksLedger(Note(l, first), parallel, chunks);
    NoteOne(Note(l, first).Receive(Flatten(chunks)), End);
  }

  /** After packing, the main stream holds exactly the input's bytes and is settled. */
  lemma ArchiveLedger(parallel: bool, dict: Option<Bytes>, input: Input)
    ensures var l := NoteAll(EMPTY_LEDGER, ArchiveOps(parallel, dict, input));
      l.main == MainBytes(input) && l.mainDeclared == |MainBytes(input)|
  {
    hide DirectoryOps, WholeStreamOps, Contents, Flatten, DictionaryOps;
    NoteDictionary(EMPTY_LEDGER, dict, InputOps(parallel, input));
    match input {
      case Tree(main, aux) => DirectoryLedger(parallel, main, aux);
      case Lone(chunks) =>
        WholeStreamLedger(EMPTY_LEDGER, parallel, true, chunks);
        assert [] + Flatten(chunks) == Flatten(chunks);
    }
  }

  lemma NoteDictionary(l: Ledger, dict: Option<Bytes>, ops: seq<Op>)
    ensures NoteAll(l, DictionaryOps(dict) + ops) == NoteAll(l, ops)
  {
    NoteConcat(l, DictionaryOps(dict), ops);
    if dict.Some? { NoteOne(l, Dictionary(dict.value)); }
  }

  ghost predicate NoDictionary(ops: seq<Op>) { forall i {:trigger ops[i]} :: 0 <= i < |ops| ==> !ops[i].Dictionary? }

  lemma {:induction false} DictionaryStays(before: Option<Bytes>, ops: seq<Op>)
    requires NoDictionary(ops)
    ensures LastDictionary(before, ops) == before
    decreases |ops|
  {
    if ops != [] { DictionaryStays(before, ops[1..]); }
  }

  lemma {:induction false} FilesWithout(parallel: bool, files: seq<SourceFile>)
    ensures NoDictionary(FilesOps(parallel, files))
  {
    if files != [] {
      FilesWithout(parallel, files[..|files| - 1]);
      hide SourceFile.Content;
    }
  }

  lemma StreamWithout(parallel: bool, isMain: bool, files: seq<SourceFile>)
    ensures NoDictionary(StreamOps(parallel, isMain, files))
  {
    FilesWithout(parallel, files);
    hide FilesOps, Contents;
  }

  lemma InputWithout(parallel: bool, input: Input)
    ensures NoDictionary(InputOps(parallel, input))
  {
    hide StreamOps, Flatten;
    match input
    case Tree(main, aux) =>
      StreamWithout(parallel, true, main);
      StreamWithout(parallel, false, aux);
    case Lone(chunks) =>
  }

  /** The dictionary in the archive is the one it was packed with. */
  lemma ArchiveDictionary(parallel: bool, dict: Option<Bytes>, input: Input)
    ensures LastDictionary(None, ArchiveOps(parallel, dict, input)) == dict
  {
    InputWithout(parallel, input);
    hide InputOps, NoDictionary;
    DictionaryStays(dict, InputOps(parallel, input));
    if dict.Some? {
      assert ArchiveOps(parallel, dict, input)[1..] == InputOps(parallel, input);
    } else {
      assert ArchiveOps(parallel, dict, input) == InputOps(parallel, input);
    }
  }

  /** Packs what there is to pack; the metadata to finish with comes back. */
  method PackInput(w: Writer.ArchiveWriter, mc: ManifestCodec, input: Input, parallel: bool)
    returns (metadata: Option<Bytes>)
    requires w.Valid() && w.Written(Main) == []
    requires RunPermitted(w.cfg, w.State(), InputOps(RunsParallel(w.cfg, parallel), input))
    modifies w, w.dedupMap
    ensures w.Valid() && w.State() == Run(w.cfg, old(w.State()), InputOps(RunsParallel(w.cfg, parallel), input))
    ensures metadata == Metadata(mc, input)
  {
    hide Writer.ArchiveWriter.Valid, Run, RunPermitted, DirectoryOps, WholeStreamOps;
    match input {
      case Tree(main, aux) =>
        var manifest := PackDirectory(w, main, aux, parallel);
        metadata := Some(mc.encode(manifest));
      case Lone(chunks) =>
        ProcessStream(w, true, chunks, parallel);
        metadata := None;
    }
  }

  /** Packs an input, its dictionary first and its manifest last; the header tells where both are. */
  method PackArchive(
    cfg: Config, mc: ManifestCodec, dict: Option<Bytes>, input: Input, parallel: bool, paths: seq<Bytes>)
    returns (file: Bytes)
    requires cfg.codec.Lawful()
    requires RunPermitted(cfg, Initial(), ArchiveOps(RunsParallel(cfg, parallel), dict, input))
    requires HeaderFits(cfg, ArchiveOps(RunsParallel(cfg, parallel), dict, input), paths, Metadata(mc, input))
    ensures var ops := ArchiveOps(RunsParallel(cfg, parallel), dict, input);
      && file == Finalize(cfg, Run(cfg, Initial(), ops), paths, Metadata(mc, input))
      && HeaderSays(cfg, file, paths, dict, Metadata(mc, input), Close(cfg, Run(cfg, Initial(), ops)).master)
  {
    hide Ready, Codec.Lawful, Run, RunPermitted, InputOps, DictionaryOps, Finalize, FinalHeader, FileHolds, Apply;
    hide Writer.ArchiveWriter.Valid, Initial, Finalizable, Close, HeaderSays, HeaderFits, NoteAll, Metadata;
    BuiltHeader(cfg, ArchiveOps(RunsParallel(cfg, parallel), dict, input), paths, Metadata(mc, input));
    ArchiveDictionary(RunsParallel(cfg, parallel), dict, input);
    HeaderFitsMeans(cfg, ArchiveOps(RunsParallel(cfg, parallel), dict, input), paths, Metadata(mc, input));
    var w := new Writer.ArchiveWriter(cfg);
    ghost var ops := InputOps(RunsParallel(cfg, parallel), input);
    RunConcat(cfg, Initial(), DictionaryOps(dict), ops);
    RunDictionary(cfg, Initial(), dict);
    NothingWritten(cfg, dict);
    if dict.Some? {
      w.WriteDictionary(dict.value);
    }
    var metadata := PackInput(w, mc, input, parallel);
    file := w.Finalize(paths, metadata);
  }

  lemma HeaderFitsMeans(cfg: Config, ops: seq<Op>, paths: seq<Bytes>, metadata: Option<Bytes>)
    requires HeaderFits(cfg, ops, paths, metadata)
    ensures Finalizable(cfg, Close(cfg, Run(cfg, Initial(), ops)), paths, metadata)
  {
    hide Finalizable, Run, Initial, Close;
  }

  lemma RunDictionary(cfg: Config, st: WriterState, dict: Option<Bytes>)
    ensures Run(cfg, st, DictionaryOps(dict)) == if dict.Some? then Apply(cfg, st, Dictionary(dict.value)) else st
  {
    if dict.Some? { RunOne(cfg, st, Dictionary(dict.value)); }
  }

  lemma NothingWritten(cfg: Config, dict: Option<Bytes>)
    ensures Initial().history.mainContent == [] && !Initial().streamActive
    ensures dict.Some? ==> Apply(cfg, Initial(), Dictionary(dict.value)).history.mainContent == []
  {
  }

  // ---------------------------------------------------------------------------------------------
  // What comes back of files

  ghost function BackFile(cfg: Config, parents: seq<Image>, f: SourceFile): SourceFile {
    f.(chunks := BackChunks(cfg, parents, f.chunks))
  }

  ghost function BackFiles(cfg: Config, parents: seq<Image>, files: seq<SourceFile>): (r: seq<SourceFile>)
    ensures |r| == |files| && forall k :: 0 <= k < |r| ==> r[k] == BackFile(cfg, parents, files[k])
  {
    seq(|files|, k requires 0 <= k < |files| => BackFile(cfg, parents, files[k]))
  }

  ghost function BackInput(cfg: Config, parents: seq<Image>, input: Input): Input {
    match input
    case Tree(main, aux) => Tree(BackFiles(cfg, parents, main), BackFiles(cfg, parents, aux))
    case Lone(chunks) => Lone(BackChunks(cfg, parents, chunks))
  }

  lemma {:induction false} BackFilesOps(cfg: Config, parents: seq<Image>, parallel: bool, files: seq<SourceFile>)
    ensures BackOps(cfg, parents, FilesOps(parallel, files)) == FilesOps(parallel, BackFiles(cfg, parents, files))
    ensures |Contents(BackFiles(cfg, parents, files))| == |Contents(files)|
    ensures MainEntries(BackFiles(cfg, parents, files)) == MainEntries(files)
  {
    hide Back, ChunkOps, BackOps;
    if files != [] {
      var n := |files| - 1;
      var f, back := files[n], BackFiles(cfg, parents, files);
      assert back[..n] == BackFiles(cfg, parents, files[..n]) && back[n] == BackFile(cfg, parents, f);
      BackFilesOps(cfg, parents, parallel, files[..n]);
      BackOpsConcat(cfg, parents, FilesOps(parallel, files[..n]), FileOps(parallel, f));
      BackOpsConcat(cfg, parents, ChunkOps(parallel, f.chunks), [Flush]);
      BackChunkOps(cfg, parents, parallel, f.chunks);
      BackOne(cfg, parents, Flush);
      BackLength(cfg, parents, f.chunks);
    } else {
      assert BackFiles(cfg, parents, files) == [];
      BackNothing(cfg, parents);
    }
  }

  lemma BackOne(cfg: Config, parents: seq<Image>, op: Op)
    requires op.Flush? || op.End? || op.Begin? || op.Dictionary?
    ensures BackOps(cfg, parents, [op]) == [op]
  {
  }

  lemma BackNothing(cfg: Config, parents: seq<Image>)
    ensures BackOps(cfg, parents, []) == []
  {
  }

  lemma BackStreamOps(cfg: Config, parents: seq<Image>, parallel: bool, isMain: bool, files: seq<SourceFile>)
    ensures BackOps(cfg, parents, StreamOps(parallel, isMain, files)) ==
      StreamOps(parallel, isMain, BackFiles(cfg, parents, files))
  {
    hide BackOps, FilesOps, BackFiles, Contents;
    var first := Begin(isMain, |Contents(files)|);
    BackOpsConcat(cfg, parents, [first] + FilesOps(parallel, files), [End]);
    BackOpsConcat(cfg, parents, [first], FilesOps(parallel, files));
    BackFilesOps(cfg, parents, parallel, files);
    BackOne(cfg, parents, first);
    BackOne(cfg, parents, End);
  }

  lemma BackWholeStreamOps(cfg: Config, parents: seq<Image>, parallel: bool, isMain: bool, chunks: seq<Bytes>)
    ensures BackOps(cfg, parents, WholeStreamOps(parallel, isMain, chunks)) ==
      WholeStreamOps(parallel, isMain, BackChunks(cfg, parents, chunks))
  {
    hide BackOps, ChunkOps, BackChunks, Flatten;
    var first := Begin(isMain, |Flatten(chunks)|);
    BackOpsConcat(cfg, parents, [first] + ChunkOps(parallel, chunks), [End]);
    BackOpsConcat(cfg, parents, [first], ChunkOps(parallel, chunks));
    BackChunkOps(cfg, parents, parallel, chunks);
    BackLength(cfg, parents, chunks);
    BackOne(cfg, parents, first);
    BackOne(cfg, parents, End);
  }

  /** The calls for an input, as they read back, are the calls for the input as it comes back. */
  lemma BackArchiveOps(cfg: Config, parents: seq<Image>, parallel: bool, dict: Option<Bytes>, input: Input)
    ensures BackOps(cfg, parents, ArchiveOps(parallel, dict, input)) ==
      ArchiveOps(parallel, dict, BackInput(cfg, parents, input))
  {
    hide BackOps, StreamOps, WholeStreamOps, BackFiles, BackChunks;
    BackOpsConcat(cfg, parents, DictionaryOps(dict), InputOps(parallel, input));
    BackNothing(cfg, parents);
    if dict.Some? { BackOne(cfg, parents, Dictionary(dict.value)); }
    match input {
      case Tree(main, aux) =>
        var rest := if aux == [] then [] else StreamOps(parallel, false, aux);
        BackOpsConcat(cfg, parents, StreamOps(parallel, true, main), rest);
        BackStreamOps(cfg, parents, parallel, true, main);
        BackStreamOps(cfg, parents, parallel, false, aux);
        assert |BackFiles(cfg, parents, aux)| == |aux|;
      case Lone(chunks) => BackWholeStreamOps(cfg, parents, parallel, true, chunks);
    }
  }

  /** The streams that a reader of a packed input finds. */
  lemma BackLedger(cfg: Config, parents: seq<Image>, parallel: bool, dict: Option<Bytes>, input: Input)
    ensures Recovered(cfg, parents, ArchiveOps(parallel, dict, input)).main == MainBytes(BackInput(cfg, parents, input))
    ensures NoteAll(EMPTY_LEDGER, ArchiveOps(parallel, dict, input)).mainDeclared ==
      |MainBytes(BackInput(cfg, parents, input))|
  {
    hide ArchiveOps, NoteAll, BackInput, BackOps;
    BackArchiveOps(cfg, parents, parallel, dict, input);
    ArchiveLedger(parallel, dict, input);
    ArchiveLedger(parallel, dict, BackInput(cfg, parents, input));
    BackSize(cfg, parents, input);
  }

  lemma BackSize(cfg: Config, parents: seq<Image>, input: Input)
    ensures |MainBytes(BackInput(cfg, parents, input))| == |MainBytes(input)|
  {
    hide Contents, Flatten, BackFiles, BackChunks;
    match input
    case Tree(main, _) => BackFilesOps(cfg, parents, false, main);
    case Lone(chunks) => BackLength(cfg, parents, chunks);
  }

  /** What extraction makes of an archive with this input. */
  function ExtractionOf(input: Input): Extraction {
    match input
    case Tree(main, aux) => Files(Extracted(main, aux))
    case Lone(chunks) => Raw(Flatten(chunks))
  }

  /** A main-stream file comes back as it was if and only if each of its chunks is zeros, not listed, or held. */
  lemma FileSurvivesIff(cfg: Config, parents: seq<Image>, main: seq<SourceFile>, aux: seq<SourceFile>, k: nat)
    requires k < |main|
    ensures ExtractionOf(BackInput(cfg, parents, Tree(main, aux))).files[k] == (main[k].path, main[k].Content()) <==>
      ChunksHeld(cfg, parents, main[k].chunks)
  {
    hide ChunksHeld, BackChunks, Flatten;
    ChunksBackIff(cfg, parents, main[k].chunks);
    assert BackFiles(cfg, parents, main)[k] == BackFile(cfg, parents, main[k]);
  }

  /**
   Round trip of an input: packing a directory or a file (on either path, with or without a dictionary, encrypted or
   not, against a base or none), opening the archive over any sound parents and extracting it gives back every
   main-stream file under its name, or the file, as `BackInput` says: byte for byte but for chunks that were left to
   the parents and that none of them holds.
   */
  method PackThenExtract(
    cfg: Config, mc: ManifestCodec, parents: seq<Archive>, dict: Option<Bytes>, input: Input, parallel: bool,
    paths: seq<Bytes>, shardBlock: Reader.BlockKey -> nat, shardPage: nat -> nat)
    returns (r: Result<Extraction>)
    requires cfg.codec.Lawful() && mc.Lawful()
    requires forall p: Archive {:trigger p in parents} :: p in parents ==> p.Valid()
    requires SoundParents(Images(parents), cfg.codec)
    requires RunPermitted(cfg, Initial(), ArchiveOps(RunsParallel(cfg, parallel), dict, input))
    requires HeaderFits(cfg, ArchiveOps(RunsParallel(cfg, parallel), dict, input), paths, Metadata(mc, input))
    modifies Reader.Archive.Closure(parents)
    ensures r ==
      if IndexBytes(cfg, ArchiveOps(RunsParallel(cfg, parallel), dict, input), Metadata(mc, input)) > MAX_INDEX_SIZE
      then Err(FormatError)
      else Ok(ExtractionOf(BackInput(cfg, Images(parents), input)))
  {
    hide *;
    ghost var ops := ArchiveOps(RunsParallel(cfg, parallel), dict, input);
    ghost var back := BackInput(cfg, Images(parents), input);
    var file := PackArchive(cfg, mc, dict, input, parallel, paths);
    var found := OpenFinished(
      cfg, cfg.encrypted, parents, file, ops, paths, Metadata(mc, input), shardBlock, shardPage, None, 0);
    match found {
      case Err(e) => return Err(e);
      case Ok(archive) =>
        BuiltMain(cfg, ops, paths, Metadata(mc, input), Images(parents));
        BackLedger(cfg, Images(parents), RunsParallel(cfg, parallel), dict, input);
        HoldsBack(archive, MainBytes(back));
        r := Extract(archive, mc, MainBytes(back));
        ExtractsBack(cfg, mc, Images(parents), input, archive.metadata, r);
    }
  }

  lemma HoldsBack(a: Reader.Archive, content: Bytes)
    requires a.img.mainContent == content && a.img.master.mainSize == |content|
    ensures HoldsMain(a, content)
  {
  }

  lemma BuiltMain(cfg: Config, ops: seq<Op>, paths: seq<Bytes>, metadata: Option<Bytes>, parents: seq<Image>)
    requires cfg.codec.Lawful() && RunPermitted(cfg, Initial(), ops) && HeaderFits(cfg, ops, paths, metadata)
    requires SoundParents(parents, cfg.codec)
    ensures var img := BuiltImage(cfg, ops, paths, metadata, parents);
      && img.mainContent == Recovered(cfg, parents, ops).main
      && img.master.mainSize == NoteAll(EMPTY_LEDGER, ops).mainDeclared
  {
    hide Codec.Lawful, RunPermitted, HeaderFits, SoundParents, Readable, AllHeld, Recovered, NoteAll;
    BuiltFile(cfg, ops, paths, metadata, parents);
    assert BuiltImage(cfg, ops, paths, metadata, parents).master.Size(Main) ==
      NoteAll(EMPTY_LEDGER, ops).Declared(Main);
  }

  /** The manifest of the packed files, applied to the stream as it comes back. */
  lemma ExtractsBack(
    cfg: Config, mc: ManifestCodec, parents: seq<Image>, input: Input, metadata: Option<Bytes>, r: Result<Extraction>)
    requires mc.Lawful() && metadata == Metadata(mc, input) && r.Ok?
    requires var content := MainBytes(BackInput(cfg, parents, input));
      if metadata.Some? && mc.decode(metadata.value).Some? then
        var manifest := mc.decode(metadata.value).value;
        && r.value.Files? && |r.value.files| == |manifest|
        && forall k :: 0 <= k < |manifest| ==>
          r.value.files[k] == (manifest[k].path, Cut(content, manifest[k].offset, manifest[k].size))
      else r == Ok(Raw(content))
    ensures r == Ok(ExtractionOf(BackInput(cfg, parents, input)))
  {
    hide Cut, Contents, MainEntries, AuxEntries, Extracted, BackFiles, Flatten;
    match input {
      case Lone(_) =>
      case Tree(main, aux) =>
        var back, backAux := BackFiles(cfg, parents, main), BackFiles(cfg, parents, aux);
        BackFilesOps(cfg, parents, false, main);
        SameAuxEntries(cfg, parents, aux);
        assert mc.decode(metadata.value).value == MainEntries(back) + AuxEntries(backAux);
        ManifestExtracts(back, backAux, r.value.files);
    }
  }

  lemma SameAuxEntries(cfg: Config, parents: seq<Image>, aux: seq<SourceFile>)
    ensures AuxEntries(BackFiles(cfg, parents, aux)) == AuxEntries(aux)
  {
    forall k | 0 <= k < |aux| ensures EntryFor(BackFile(cfg, parents, aux[k]), 0) == EntryFor(aux[k], 0) {
      BackLength(cfg, parents, aux[k].chunks);
      hide Flatten, BackChunks;
    }
  }
}
