// Packing one stream (process_stream): the serial loop, and why the parallel pipeline reads back the same.
module PackStream {
  import opened Common
  import opened Format
  import opened Image
  import opened WriterModel
  import opened WriterRuns
  import opened Recovery
  import opened RoundTrip
  import Pipeline
  import Writer

  function SerialOps(chunks: seq<Bytes>): (ops: seq<Op>)
    ensures |ops| == |chunks| && forall i :: 0 <= i < |ops| ==> ops[i] == Data(chunks[i])
  {
    seq(|chunks|, i requires 0 <= i < |chunks| => Data(chunks[i]))
  }

  /** The calls made for `chunks`: the parallel path compresses and hashes beforehand. */
  function ChunkOps(parallel: bool, chunks: seq<Bytes>): (ops: seq<Op>)
    ensures |ops| == |chunks|
    ensures forall i :: 0 <= i < |ops| ==> ops[i] == if parallel then Precompressed(chunks[i]) else Data(chunks[i])
  {
    if parallel then Pipeline.WrittenOps(chunks) else SerialOps(chunks)
  }

  lemma {:induction false} RunConcat(cfg: Config, st: WriterState, a: seq<Op>, b: seq<Op>)
    ensures Run(cfg, st, a + b) == Run(cfg, Run(cfg, st, a), b)
    ensures RunPermitted(cfg, st, a + b) <==> RunPermitted(cfg, st, a) && RunPermitted(cfg, Run(cfg, st, a), b)
    decreases |a|
  {
    hide Apply, Permitted;
    if a == [] {
      assert a + b == b;
    } else {
      assert (a + b)[1..] == a[1..] + b;
      RunConcat(cfg, Apply(cfg, st, a[0]), a[1..], b);
    }
  }

  lemma {:induction false} NoteConcat(l: Ledger, a: seq<Op>, b: seq<Op>)
    ensures NoteAll(l, a + b) == NoteAll(NoteAll(l, a), b)
    decreases |a|
  {
    hide Note;
    if a == [] {
      assert a + b == b;
    } else {
      assert (a + b)[1..] == a[1..] + b;
      NoteConcat(Note(l, a[0]), a[1..], b);
    }
  }

  /** Whichever path is taken, the current stream receives the chunks, one after the other, and nothing else happens. */
  lemma {:induction false} ChunksLedger(l: Ledger, parallel: bool, chunks: seq<Bytes>)
    ensures NoteAll(l, ChunkOps(parallel, chunks)) == l.Receive(Flatten(chunks))
  {
    var n := |chunks| - 1;
    if chunks != [] {
      var before, op := ChunkOps(parallel, chunks[..n]), ChunkOps(parallel, chunks)[n];
      assert ChunkOps(parallel, chunks) == before + [op];
      ChunksLedger(l, parallel, chunks[..n]);
      NoteConcat(l, before, [op]);
      NoteOne(NoteAll(l, before), op);
      hide NoteAll, ChunkOps;
      ReceiveTwice(l, Flatten(chunks[..n]), chunks[n]);
    } else {
      assert l.Receive([]) == l by { ReceiveNothing(l); }
    }
  }

  lemma NoteOne(l: Ledger, op: Op)
    ensures NoteAll(l, [op]) == Note(l, op)
  {
    assert [op][1..] == [];
  }

  lemma ReceiveTwice(l: Ledger, a: Bytes, b: Bytes)
    ensures l.Receive(a).Receive(b) == l.Receive(a + b)
  {
    assert l.Content(l.current) + (a + b) == l.Content(l.current) + a + b;
  }

  lemma ReceiveNothing(l: Ledger)
    ensures l.Receive([]) == l
  {
  }

  /** The serial path: one chunk after the other goes to the writer. */
  method ProcessStreamSerial(w: Writer.ArchiveWriter, chunks: seq<Bytes>)
    requires w.Valid() && RunPermitted(w.cfg, w.State(), SerialOps(chunks))
    modifies w, w.dedupMap
    ensures w.Valid() && w.State() == Run(w.cfg, old(w.State()), SerialOps(chunks))
    ensures w.dedupMap == old(w.dedupMap) && w.streamActive == old(w.streamActive)
  {
    hide Ready, Codec.Lawful, Permitted, Apply, Writer.ArchiveWriter.State, Writer.ArchiveWriter.Valid;
    var i := 0;
    ghost var ops := SerialOps(chunks);
    assert ops[..0] == [];
    while i < |chunks|
      invariant i <= |chunks|
      invariant w.Valid() && w.dedupMap == old(w.dedupMap) && w.streamActive == old(w.streamActive)
      invariant w.State() == Run(w.cfg, old(w.State()), ops[..i])
    {
      NextOp(w.cfg, old(w.State()), ops, i);
      DataMeans(w.cfg, w.State(), chunks[i]);
      w.StateFacts();
      w.WriteDataBlock(chunks[i]);
      i := i + 1;
    }
    assert ops[..i] == ops;
  }

  /** The main thread of a pipeline without failures: the chunks in order, compressed and hashed by workers. */
  method WriteInOrder(w: Writer.ArchiveWriter, chunks: seq<Bytes>)
    requires w.Valid() && RunPermitted(w.cfg, w.State(), Pipeline.WrittenOps(chunks))
    modifies w, w.dedupMap
    ensures w.Valid() && w.State() == Run(w.cfg, old(w.State()), Pipeline.WrittenOps(chunks))
    ensures w.dedupMap == old(w.dedupMap) && w.streamActive == old(w.streamActive)
  {
    hide Ready, Codec.Lawful, Permitted, Apply, Writer.ArchiveWriter.State, Writer.ArchiveWriter.Valid;
    var i := 0;
    ghost var ops := Pipeline.WrittenOps(chunks);
    assert ops[..0] == [];
    while i < |chunks|
      invariant i <= |chunks|
      invariant w.Valid() && w.dedupMap == old(w.dedupMap) && w.streamActive == old(w.streamActive)
      invariant w.State() == Run(w.cfg, old(w.State()), ops[..i])
    {
      NextOp(w.cfg, old(w.State()), ops, i);
      PrecompressedMeans(w.cfg, w.State(), chunks[i]);
      w.StateFacts();
      w.WritePrecompressedBlock(w.cfg.codec.compress(chunks[i]), w.cfg.codec.hash(chunks[i]), |chunks[i]|, chunks[i]);
      i := i + 1;
    }
    assert ops[..i] == ops;
  }

  /** Encryption needs its nonces in sequence, so encrypted archives are always packed serially. */
  predicate RunsParallel(cfg: Config, parallel: bool) { parallel && !cfg.encrypted }

  /** One call for each chunk: of a worker's product if asked for and nothing is encrypted, else of the chunk itself. */
  function PathOps(cfg: Config, parallel: bool, chunks: seq<Bytes>): (ops: seq<Op>)
    ensures |ops| == |chunks|
    ensures cfg.encrypted || !parallel ==> forall i :: 0 <= i < |ops| ==> ops[i] == Data(chunks[i])
    ensures !cfg.encrypted && parallel ==> forall i :: 0 <= i < |ops| ==> ops[i] == Precompressed(chunks[i])
  {
    ChunkOps(RunsParallel(cfg, parallel), chunks)
  }

  /** The chunks of one file or stream, on the path that the options allow. */
  method PackChunks(w: Writer.ArchiveWriter, chunks: seq<Bytes>, parallel: bool)
    requires w.Valid() && RunPermitted(w.cfg, w.State(), PathOps(w.cfg, parallel, chunks))
    modifies w, w.dedupMap
    ensures w.Valid() && w.State() == Run(w.cfg, old(w.State()), PathOps(w.cfg, parallel, chunks))
    ensures PathOps(w.cfg, parallel, chunks) == ChunkOps(RunsParallel(w.cfg, parallel), chunks)
    ensures w.dedupMap == old(w.dedupMap) && w.streamActive == old(w.streamActive)
  {
    hide Ready, Codec.Lawful, Permitted, Apply, Writer.ArchiveWriter.State, Writer.ArchiveWriter.Valid;
    if parallel && !w.cfg.encrypted {
      WriteInOrder(w, chunks);
    } else {
      ProcessStreamSerial(w, chunks);
    }
  }

  /** The calls for one input file that becomes a whole stream. */
  function WholeStreamOps(parallel: bool, isMain: bool, chunks: seq<Bytes>): seq<Op> {
    [Begin(isMain, |Flatten(chunks)|)] + ChunkOps(parallel, chunks) + [End]
  }

  function TotalLength(chunks: seq<Bytes>): (n: nat)
    ensures n == |Flatten(chunks)|
  {
    if chunks == [] then 0 else TotalLength(chunks[..|chunks| - 1]) + |chunks[|chunks| - 1]|
  }

  /** Packs one input file as a stream of its own. */
  method ProcessStream(w: Writer.ArchiveWriter, isMain: bool, chunks: seq<Bytes>, parallel: bool)
    requires w.Valid() && RunPermitted(w.cfg, w.State(), WholeStreamOps(RunsParallel(w.cfg, parallel), isMain, chunks))
    modifies w, w.dedupMap
    ensures w.Valid() && (w.dedupMap == old(w.dedupMap) || fresh(w.dedupMap))
    ensures w.State() == Run(w.cfg, old(w.State()), WholeStreamOps(RunsParallel(w.cfg, parallel), isMain, chunks))
  {
    hide Ready, Codec.Lawful, Permitted, Apply, Run, RunPermitted, ChunkOps;
    ghost var st0, ops := w.State(), ChunkOps(RunsParallel(w.cfg, parallel), chunks);
    ghost var first := Begin(isMain, |Flatten(chunks)|);
    RunConcat(w.cfg, st0, [first] + ops, [End]);
    RunConcat(w.cfg, st0, [first], ops);
    RunOne(w.cfg, st0, first);
    RunOne(w.cfg, Run(w.cfg, st0, [first] + ops), End);
    BeginMeans(w.cfg, st0, isMain, |Flatten(chunks)|);
    w.BeginStream(isMain, TotalLength(chunks));
    PackChunks(w, chunks, parallel);
    w.EndStream();
  }

  lemma BeginMeans(cfg: Config, st: WriterState, isMain: bool, total: nat)
    ensures Apply(cfg, st, Begin(isMain, total)) == BeginStream(cfg, st, isMain, total)
    ensures Permitted(cfg, st, Begin(isMain, total)) <==> CanBegin(st, WriterRuns.StreamOf(isMain))
    ensures forall t: WriterState {:trigger Apply(cfg, t, End)} :: Apply(cfg, t, End) == EndStream(cfg, t)
  {
  }

  lemma RunOne(cfg: Config, st: WriterState, op: Op)
    ensures Run(cfg, st, [op]) == Apply(cfg, st, op)
    ensures RunPermitted(cfg, st, [op]) <==> Permitted(cfg, st, op)
  {
    hide Apply, Permitted;
    assert [op][1..] == [];
    assert Run(cfg, st, [op]) == Run(cfg, Apply(cfg, st, op), []);
  }

  lemma PrecompressedMeans(cfg: Config, st: WriterState, d: Bytes)
    ensures Permitted(cfg, st, Precompressed(d)) <==> st.streamActive && !cfg.encrypted && Storable(cfg, st, d)
  {
  }

  lemma DataMeans(cfg: Config, st: WriterState, d: Bytes)
    ensures Permitted(cfg, st, Data(d)) <==> st.streamActive && Storable(cfg, st, d)
  {
  }

  lemma NextOp(cfg: Config, st: WriterState, ops: seq<Op>, i: nat)
    requires RunPermitted(cfg, st, ops) && i < |ops|
    ensures Permitted(cfg, Run(cfg, st, ops[..i]), ops[i])
    ensures Run(cfg, st, ops[..i + 1]) == Apply(cfg, Run(cfg, st, ops[..i]), ops[i])
  {
    assert ops == ops[..i] + ops[i..] && ops[..i + 1] == ops[..i] + [ops[i]];
    RunConcat(cfg, st, ops[..i], ops[i..]);
    RunConcat(cfg, st, ops[..i], [ops[i]]);
    hide Apply, Permitted;
    var mid := Run(cfg, st, ops[..i]);
    assert [ops[i]][1..] == [];
    assert Run(cfg, mid, [ops[i]]) == Run(cfg, Apply(cfg, mid, ops[i]), []);
  }

  // ---------------------------------------------------------------------------------------------
  // What comes back of chunks

  ghost function BackChunks(cfg: Config, parents: seq<Image>, chunks: seq<Bytes>): (r: seq<Bytes>)
    ensures |r| == |chunks| && forall i :: 0 <= i < |r| ==> r[i] == Back(cfg, parents, chunks[i])
  {
    seq(|chunks|, i requires 0 <= i < |chunks| => Back(cfg, parents, chunks[i]))
  }

  lemma BackOpsConcat(cfg: Config, parents: seq<Image>, a: seq<Op>, b: seq<Op>)
    ensures BackOps(cfg, parents, a + b) == BackOps(cfg, parents, a) + BackOps(cfg, parents, b)
  {
    hide BackOp;
  }

  /** Either path delegates the same chunks: those that the index lists. */
  lemma BackChunkOps(cfg: Config, parents: seq<Image>, parallel: bool, chunks: seq<Bytes>)
    ensures BackOps(cfg, parents, ChunkOps(parallel, chunks)) == ChunkOps(parallel, BackChunks(cfg, parents, chunks))
  {
    hide Back, HeldByAny;
  }

  lemma {:induction false} BackLength(cfg: Config, parents: seq<Image>, chunks: seq<Bytes>)
    ensures |Flatten(BackChunks(cfg, parents, chunks))| == |Flatten(chunks)|
  {
    hide Back;
    if chunks != [] {
      var n := |chunks| - 1;
      assert BackChunks(cfg, parents, chunks)[..n] == BackChunks(cfg, parents, chunks[..n]);
      BackLength(cfg, parents, chunks[..n]);
    }
  }

  ghost predicate ChunksHeld(cfg: Config, parents: seq<Image>, chunks: seq<Bytes>) {
    forall i {:trigger chunks[i]} :: 0 <= i < |chunks| ==> Held(cfg, parents, Data(chunks[i]))
  }

  lemma ChunksHeldLast(cfg: Config, parents: seq<Image>, chunks: seq<Bytes>, n: nat)
    requires n + 1 == |chunks|
    ensures ChunksHeld(cfg, parents, chunks) <==>
      ChunksHeld(cfg, parents, chunks[..n]) && Held(cfg, parents, Data(chunks[n]))
  {
    hide Held;
    assert forall i {:trigger chunks[i]} :: 0 <= i < n ==> chunks[..n][i] == chunks[i];
  }

  lemma BackIff(cfg: Config, parents: seq<Image>, d: Bytes)
    ensures Back(cfg, parents, d) == d <==> Held(cfg, parents, Data(d))
  {
    hide Back, Held;
    BackOpIff(cfg, parents, Data(d));
  }

  /** The chunks of a file come back as they were if and only if each one is zeros, not listed, or held by a parent. */
  lemma {:induction false} ChunksBackIff(cfg: Config, parents: seq<Image>, chunks: seq<Bytes>)
    ensures Flatten(BackChunks(cfg, parents, chunks)) == Flatten(chunks) <==> ChunksHeld(cfg, parents, chunks)
  {
    if chunks != [] {
      var n := |chunks| - 1;
      var back := BackChunks(cfg, parents, chunks);
      hide ChunksHeld, Held, Back;
      assert back[..n] == BackChunks(cfg, parents, chunks[..n]) && back[n] == Back(cfg, parents, chunks[n]);
      ChunksBackIff(cfg, parents, chunks[..n]);
      BackLength(cfg, parents, chunks[..n]);
      BackIff(cfg, parents, chunks[n]);
      ChunksHeldLast(cfg, parents, chunks, n);
      SameParts(Flatten(back[..n]), back[n], Flatten(chunks[..n]), chunks[n]);
    }
  }

  lemma SameParts(a: Bytes, b: Bytes, c: Bytes, d: Bytes)
    requires |a| == |c| && |b| == |d|
    ensures a + b == c + d <==> a == c && b == d
  {
    if a + b == c + d {
      assert (a + b)[..|a|] == a && (c + d)[..|a|] == c && (a + b)[|a|..] == b && (c + d)[|a|..] == d;
    }
  }

  // ---------------------------------------------------------------------------------------------
  // Serial and parallel archives read the same

  lemma SameContentSameReads(a: Image, b: Image, s: Stream, off: nat, n: nat)
    requires a.Content(s) == b.Content(s) && a.master.Size(s) == b.master.Size(s) && a.parents == b.parents
    ensures ReadSpec(a, s, off, n) == ReadSpec(b, s, off, n)
  {
    hide Fallback, Cut;
    var size := a.master.Size(s);
    if off < size {
      var own := Cut(a.Content(s), off, Min(n, size - off));
      SameFallback(a, b, s, off + |own|, Min(n, size - off) - |own|);
    }
  }

  lemma SameFallback(a: Image, b: Image, s: Stream, pos: nat, n: nat)
    requires a.parents == b.parents
    ensures Fallback(a, s, pos, n) == Fallback(b, s, pos, n)
  {
    if p: nat :| FirstCovering(a.parents, s, pos, p) {
      FallbackIs(a, s, pos, n, p);
      FallbackIs(b, s, pos, n, p);
    }
  }

  /** The calls for a whole archive around one stream that is packed on either path. */
  function Around(before: seq<Op>, parallel: bool, chunks: seq<Bytes>, after: seq<Op>): seq<Op> {
    before + ChunkOps(parallel, chunks) + after
  }

  lemma AroundLedger(l: Ledger, before: seq<Op>, chunks: seq<Bytes>, after: seq<Op>)
    ensures NoteAll(l, Around(before, true, chunks, after)) == NoteAll(l, Around(before, false, chunks, after))
  {
    var mid := NoteAll(l, before);
    forall parallel: bool
      ensures NoteAll(l, Around(before, parallel, chunks, after)) == NoteAll(mid.Receive(Flatten(chunks)), after)
    {
      NoteConcat(l, before + ChunkOps(parallel, chunks), after);
      NoteConcat(l, before, ChunkOps(parallel, chunks));
      ChunksLedger(mid, parallel, chunks);
    }
  }

  lemma AroundRecovered(cfg: Config, parents: seq<Image>, before: seq<Op>, chunks: seq<Bytes>, after: seq<Op>)
    ensures Recovered(cfg, parents, Around(before, true, chunks, after)) ==
      Recovered(cfg, parents, Around(before, false, chunks, after))
  {
    hide NoteAll, BackOps, BackChunks, ChunkOps;
    var b, c, a := BackOps(cfg, parents, before), BackChunks(cfg, parents, chunks), BackOps(cfg, parents, after);
    forall parallel: bool
      ensures BackOps(cfg, parents, Around(before, parallel, chunks, after)) == Around(b, parallel, c, a)
    {
      BackOpsConcat(cfg, parents, before + ChunkOps(parallel, chunks), after);
      BackOpsConcat(cfg, parents, before, ChunkOps(parallel, chunks));
      BackChunkOps(cfg, parents, parallel, chunks);
    }
    AroundLedger(EMPTY_LEDGER, b, c, a);
  }

  /**
   Serial/parallel equivalence: the archives differ in bytes (the parallel path makes no zero blocks and asks the
   parent before it looks for zeros), but every read of one returns what the same read of the other returns, over
   any sound parents, whether or not these hold what was delegated.
   */
  lemma ParallelReadsAsSerial(
    cfg: Config, before: seq<Op>, chunks: seq<Bytes>, after: seq<Op>, paths: seq<Bytes>, metadata: Option<Bytes>,
    parents: seq<Image>, s: Stream, off: nat, n: nat)
    requires cfg.codec.Lawful() && SoundParents(parents, cfg.codec)
    requires forall parallel: bool {:trigger Around(before, parallel, chunks, after)} ::
      RunPermitted(cfg, Initial(), Around(before, parallel, chunks, after)) &&
      HeaderFits(cfg, Around(before, parallel, chunks, after), paths, metadata)
    ensures var serial := BuiltImage(cfg, Around(before, false, chunks, after), paths, metadata, parents);
      var parallel := BuiltImage(cfg, Around(before, true, chunks, after), paths, metadata, parents);
      && Readable(serial) && Readable(parallel)
      && serial.Content(s) == parallel.Content(s)
      && ReadSpec(serial, s, off, n) == ReadSpec(parallel, s, off, n)
  {
    hide Codec.Lawful, SoundParents, Readable, RunPermitted, HeaderFits, Around, ReadSpec, AllHeld, Recovered, NoteAll;
    AroundLedger(EMPTY_LEDGER, before, chunks, after);
    AroundRecovered(cfg, parents, before, chunks, after);
    var serial := BuiltImage(cfg, Around(before, false, chunks, after), paths, metadata, parents);
    var parallel := BuiltImage(cfg, Around(before, true, chunks, after), paths, metadata, parents);
    BuiltFile(cfg, Around(before, false, chunks, after), paths, metadata, parents);
    BuiltFile(cfg, Around(before, true, chunks, after), paths, metadata, parents);
    assert serial.parents == parallel.parents && serial.Content(s) == parallel.Content(s);
    hide BuiltImage;
    SameContentSameReads(serial, parallel, s, off, n);
  }

  /** And that is what a finished pipeline leaves behind when no chunk fails: the state after exactly these calls. */
  lemma PipelineWritesAll(c: Pipeline.Setup, states: seq<Pipeline.State>, before: seq<Op>, after: seq<Op>)
    requires c.workers > 0 && Pipeline.IsRun(c, states) && Pipeline.Finished(states[|states| - 1])
    requires c.bad == {} && c.failing == map[] && c.start == Run(c.cfg, Initial(), before)
    ensures Run(c.cfg, states[|states| - 1].writer, after) ==
      Run(c.cfg, Initial(), Around(before, true, c.chunks, after))
  {
    Pipeline.FinishedRun(c, states);
    var s := states[|states| - 1];
    assert s.nextSeq == |c.chunks|;
    assert c.chunks[..|c.chunks|] == c.chunks;
    hide Run;
    RunConcat(c.cfg, Initial(), before, ChunkOps(true, c.chunks));
    RunConcat(c.cfg, Initial(), before + ChunkOps(true, c.chunks), after);
  }
}
