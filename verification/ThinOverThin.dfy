// Where thin archives lose data: a parent that is itself thin offers hashes it does not store.
module ThinOverThin {
  import opened Common
  import opened Format
  import opened Index
  import opened Image
  import opened WriterModel
  import opened WriterRuns
  import opened Recovery
  import opened RoundTrip
  import opened Thin
  import Reader

  /** Packing a single chunk as the main stream. */
  function Single(d: Bytes): seq<Op> { [Begin(true, |d|)] + ([Data(d)] + ([End] + [])) }

  /** A chunk that a parent index lists, and that is not all zeros. */
  ghost predicate Delegable(cfg: Config, d: Bytes) {
    && cfg.codec.Lawful() && InParent(cfg, cfg.codec.hash(d)) && d in cfg.codec.universe && !IsZeroChunk(d)
    && |d| < U32_LIMIT && |cfg.codec.Seal(cfg.encrypted, d, 0)| < U32_LIMIT
  }

  function Opening(cfg: Config, d: Bytes): WriterState { BeginStream(cfg, Initial(), true, |d|) }

  function Pushed(cfg: Config, d: Bytes): WriterState {
    Push(Opening(cfg, d), ParentBlock(cfg.codec.hash(d), |d|), d)
  }

  lemma RunCons(cfg: Config, st: WriterState, op: Op, rest: seq<Op>)
    ensures Run(cfg, st, [op] + rest) == Run(cfg, Apply(cfg, st, op), rest)
    ensures RunPermitted(cfg, st, [op] + rest) <==>
      Permitted(cfg, st, op) && RunPermitted(cfg, Apply(cfg, st, op), rest)
  {
    assert ([op] + rest)[1..] == rest;
  }

  lemma SingleSteps(cfg: Config, d: Bytes)
    requires Delegable(cfg, d)
    ensures Apply(cfg, Opening(cfg, d), Data(d)) == Pushed(cfg, d)
    ensures Apply(cfg, Pushed(cfg, d), End) == FlushPage(cfg, Pushed(cfg, d)).(streamActive := false)
    ensures Permitted(cfg, Initial(), Begin(true, |d|)) && Permitted(cfg, Opening(cfg, d), Data(d))
  {
    hide Codec.Lawful, FlushPage, Codec.Seal;
  }

  lemma SingleRun(cfg: Config, d: Bytes)
    requires Delegable(cfg, d)
    ensures Run(cfg, Initial(), Single(d)) == FlushPage(cfg, Pushed(cfg, d)).(streamActive := false)
    ensures RunPermitted(cfg, Initial(), Single(d))
  {
    hide Delegable, Initial, Pushed, FlushPage;
    SingleSteps(cfg, d);
    RunCons(cfg, Initial(), Begin(true, |d|), [Data(d)] + ([End] + []));
    RunCons(cfg, Opening(cfg, d), Data(d), [End] + []);
    RunCons(cfg, Pushed(cfg, d), End, []);
  }

  lemma SingleHistory(cfg: Config, d: Bytes)
    ensures var h := FlushPage(cfg, Pushed(cfg, d)).history;
      h.mainRecs == [PageRec(0, [ParentBlock(cfg.codec.hash(d), |d|)], [0, |d|])] && h.auxRecs == []
  {
    assert Pushed(cfg, d).OpenPage() == PageRec(0, [ParentBlock(cfg.codec.hash(d), |d|)], [0, |d|]);
  }

  /** The archive of a delegated chunk has one page with one reference, and no copy of the chunk. */
  lemma SingleImage(cfg: Config, d: Bytes, paths: seq<Bytes>, parents: seq<Image>)
    requires Delegable(cfg, d)
    ensures var img := BuiltImage(cfg, Single(d), paths, None, parents);
      img.mainRecs == [PageRec(0, [ParentBlock(cfg.codec.hash(d), |d|)], [0, |d|])] && img.auxRecs == []
  {
    hide Run, Delegable, Finalize, FlushPage, Pushed, Initial, Recovered, Single;
    SingleRun(cfg, d);
    SingleHistory(cfg, d);
  }

  /** Such an archive offers the chunk's hash to later archives, but holds no block with it. */
  lemma OfferedNotHeld(cfg: Config, d: Bytes, paths: seq<Bytes>, parents: seq<Image>)
    requires Delegable(cfg, d)
    ensures var img := BuiltImage(cfg, Single(d), paths, None, parents);
      OfferedBy(img, cfg.codec.hash(d)) && !img.Holds(cfg.codec.hash(d))
  {
    SingleImage(cfg, d, paths, parents);
    hide BuiltImage, Codec.Seal, Single;
    assert BuiltImage(cfg, Single(d), paths, None, parents).Has(Main, 0, 0);
    assert cfg.codec.hash(d) != ZERO_HASH;
  }

  lemma SingleLedger(e: Bytes, n: nat)
    ensures NoteAll(EMPTY_LEDGER, [Begin(true, n), Data(e), End]) == Ledger(Main, e, [], n, 0)
  {
    var ops := [Begin(true, n), Data(e), End];
    var l := Note(EMPTY_LEDGER, ops[0]);
    assert ops[1..] == [Data(e), End] && [Data(e), End][1..] == [End] && [End][1..] == [];
    assert NoteAll(EMPTY_LEDGER, ops) == NoteAll(l, [Data(e), End]);
    assert NoteAll(l, [Data(e), End]) == NoteAll(Note(l, Data(e)), [End]);
    assert NoteAll(Note(l, Data(e)), [End]) == NoteAll(Note(Note(l, Data(e)), End), []);
    assert [] + e == e;
  }

  /** What comes back of the chunk over parents that do not hold it: as many zeros. */
  lemma SingleRecovered(cfg: Config, d: Bytes, parents: seq<Image>)
    requires InParent(cfg, cfg.codec.hash(d)) && !HeldByAny(parents, cfg.codec.hash(d))
    ensures Recovered(cfg, parents, Single(d)).Content(Main) == Zeros(|d|)
    ensures var l := NoteAll(EMPTY_LEDGER, Single(d)); l.Declared(Main) == |d| == |l.Content(Main)|
  {
    hide HeldByAny, NoteAll;
    assert Single(d) == [Begin(true, |d|), Data(d), End];
    assert BackOps(cfg, parents, Single(d)) == [Begin(true, |d|), Data(Zeros(|d|)), End];
    SingleLedger(d, |d|);
    SingleLedger(Zeros(|d|), |d|);
  }

  /** A chunk of ordinary size, in an archive that can be finished and opened whatever else its index lists. */
  ghost predicate Loseable(cfg: Config, d: Bytes, paths: seq<Bytes>) {
    && Delegable(Against(cfg, {cfg.codec.hash(d)}), d)
    && forall hs: set<Hash> {:trigger Against(cfg, hs)} :: cfg.codec.hash(d) in hs ==>
      HeaderFits(Against(cfg, hs), Single(d), paths, None) &&
      IndexBytes(Against(cfg, hs), Single(d), None) <= MAX_INDEX_SIZE
  }

  lemma LoseableAgainst(cfg: Config, d: Bytes, paths: seq<Bytes>, hs: set<Hash>)
    requires Loseable(cfg, d, paths) && cfg.codec.hash(d) in hs
    ensures var c := Against(cfg, hs);
      && c.codec == cfg.codec && Delegable(c, d) && RunPermitted(c, Initial(), Single(d))
      && HeaderFits(c, Single(d), paths, None) && IndexBytes(c, Single(d), None) <= MAX_INDEX_SIZE
      && cfg.codec.Lawful() && InParent(c, cfg.codec.hash(d))
      && forall op :: op in Single(d) ==> Fitting(c, op, false)
    ensures !IsZeroChunk(d) && Zeros(|d|) != d
  {
    hide HeaderFits, IndexBytes, Codec.Lawful, Codec.Seal, RunPermitted, Run;
    SingleRun(Against(cfg, hs), d);
    assert forall op :: op in Single(d) ==> op in [Begin(true, |d|), Data(d), End];
  }

  /** The thin parent, made against an index that lists the chunk: sound, offering the chunk, not holding it. */
  lemma ThinParent(cfg: Config, d: Bytes, paths: seq<Bytes>)
    requires Loseable(cfg, d, paths)
    ensures var img := BuiltImage(Against(cfg, {cfg.codec.hash(d)}), Single(d), paths, None, []);
      && SoundParents([img], cfg.codec) && OfferedBy(img, cfg.codec.hash(d)) && !img.Holds(cfg.codec.hash(d))
  {
    var c := Against(cfg, {cfg.codec.hash(d)});
    LoseableAgainst(cfg, d, paths, {cfg.codec.hash(d)});
    hide *;
    NoParents(c.codec);
    BuiltIsSound(c, Single(d), paths, None, [], false);
    OfferedNotHeld(c, d, paths, []);
    AgainstCodec(cfg, {cfg.codec.hash(d)});
    OneParent(BuiltImage(c, Single(d), paths, None, []), cfg.codec);
  }

  lemma AgainstCodec(cfg: Config, hs: set<Hash>)
    ensures Against(cfg, hs).codec == cfg.codec
  {
  }

  lemma OneParent(img: Image, codec: Codec)
    requires Readable(img) && Dense(img) && Honest(img, codec)
    ensures SoundParents([img], codec)
  {
    hide Readable, Dense, Honest;
  }

  lemma NotHeldByOne(img: Image, h: Hash)
    requires !img.Holds(h)
    ensures !HeldByAny([img], h)
  {
    hide Image.Holds;
  }

  lemma ListsIt(parent: Archive, hs: set<Hash>, h: Hash)
    requires IndexOf(Images([parent]), hs) && OfferedBy(parent.img, h)
    ensures h in hs
  {
    hide OfferedBy;
    assert Images([parent])[0] == parent.img;
  }

  lemma ZeroCut(n: nat)
    ensures Cut(Fit(Zeros(n), n), 0, n) == Zeros(n)
  {
  }

  /**
   The program's promise that a thin archive gives back what was packed fails here: a chunk packed against a
   parent that itself only refers to it is delegated again, and the read returns zeros.
   */
  method ReadThroughThinParent(
    cfg: Config, d: Bytes, paths: seq<Bytes>, shardBlock: Reader.BlockKey -> nat, shardPage: nat -> nat)
    returns (r: Result<Bytes>)
    requires Loseable(cfg, d, paths)
    ensures r == Ok(Zeros(|d|)) && r != Ok(d)
  {
    hide *;
    ghost var h := cfg.codec.hash(d);
    LoseableAgainst(cfg, d, paths, {h});
    ThinParent(cfg, d, paths);
    NoParents(cfg.codec);
    assert Images([]) == [] && Reader.Archive.Closure([]) == {};
    // the parent: thin itself, and opened as the loader opens parents, without parents of its own
    var opening := OpenBuilt(
      Against(cfg, {cfg.codec.hash(d)}), [], Single(d), paths, None, shardBlock, shardPage, None, 0);
    var parent := opening.value;
    assert Reader.Archive.Closure([parent]) <= parent.repr;
    // the child: its index lists what the parent offers, so the chunk is delegated once more
    var index := NewParentIndex([parent]);
    assert parent in [parent] && Images([parent]) == [parent.img];
    ListsIt(parent, index.value, h);
    LoseableAgainst(cfg, d, paths, index.value);
    NotHeldByOne(parent.img, h);
    SingleRecovered(Against(cfg, index.value), d, [parent.img]);
    ZeroCut(|d|);
    r := WriteThenRead(
      Against(cfg, index.value), [parent], Single(d), paths, None, shardBlock, shardPage, None, 0, Main, 0, |d|);
  }
}
