// Block indices as nonces: unique over both streams, and the reader rebuilds the one a block was sealed under.
module Nonces {
  import opened Common
  import opened Format
  import opened Index
  import opened WriterModel
  import opened WriterRuns
  import Layout

  /** Every index below this may already be in use by a flushed page, of either stream. */
  function Limit(st: WriterState): nat { if st.streamActive then st.pageStartBlock else st.globalBlockIdx }

  predicate Before(a: PageRec, b: PageRec) { a.startBlock + |a.blocks| <= b.startBlock }

  ghost predicate AllBelow(recs: seq<PageRec>, limit: nat) {
    forall k {:trigger recs[k]} :: 0 <= k < |recs| ==> recs[k].startBlock + |recs[k].blocks| <= limit
  }

  /** Pages of the two streams take turns: their index ranges never meet. */
  ghost predicate TakeTurns(main: seq<PageRec>, aux: seq<PageRec>) {
    forall k, l {:trigger main[k], aux[l]} :: 0 <= k < |main| && 0 <= l < |aux| ==>
      Before(main[k], aux[l]) || Before(aux[l], main[k])
  }

  /** The stored blocks of a page have gone through the cipher under their own index. */
  predicate Recorded(nonces: seq<nat>, start: nat, blocks: seq<BlockInfo>) {
    forall i {:trigger blocks[i]} :: 0 <= i < |blocks| && Layout.IsStored(blocks[i]) ==> start + i in nonces
  }

  ghost predicate AllRecorded(nonces: seq<nat>, recs: seq<PageRec>) {
    forall k {:trigger recs[k]} :: 0 <= k < |recs| ==> Recorded(nonces, recs[k].startBlock, recs[k].blocks)
  }

  ghost predicate Numbered(cfg: Config, st: WriterState) {
    && AllBelow(st.history.mainRecs, Limit(st)) && AllBelow(st.history.auxRecs, Limit(st))
    && TakeTurns(st.history.mainRecs, st.history.auxRecs)
    && (cfg.encrypted ==>
      && AllRecorded(st.history.nonces, st.history.mainRecs) && AllRecorded(st.history.nonces, st.history.auxRecs)
      && Recorded(st.history.nonces, st.pageStartBlock, st.page))
  }

  /** The part of the writer's invariant that numbering needs. */
  predicate Counted(st: WriterState) {
    if st.streamActive then st.pageStartBlock + |st.page| == st.globalBlockIdx else st.page == []
  }

  lemma RangeMore(recs: seq<PageRec>, other: seq<PageRec>, p: PageRec, limit: nat)
    requires AllBelow(recs, p.startBlock) && AllBelow(other, p.startBlock) && p.startBlock + |p.blocks| <= limit
    requires TakeTurns(recs, other)
    ensures AllBelow(recs + [p], limit) && AllBelow(other, limit) && TakeTurns(recs + [p], other)
  {
  }

  lemma TurnsSwap(a: seq<PageRec>, b: seq<PageRec>)
    ensures TakeTurns(a, b) <==> TakeTurns(b, a)
  {
  }

  lemma FlushNumbered(cfg: Config, st: WriterState)
    requires Numbered(cfg, st) && st.streamActive && Counted(st)
    ensures Numbered(cfg, FlushPage(cfg, st)) && Counted(FlushPage(cfg, st))
  {
    var m, a, p := st.history.mainRecs, st.history.auxRecs, st.OpenPage();
    TurnsSwap(m, a);
    if st.isMain { RangeMore(m, a, p, st.globalBlockIdx); } else { RangeMore(a, m, p, st.globalBlockIdx); }
    TurnsSwap(m, a + [p]);
    hide AllBelow, TakeTurns, Recorded;
    NothingRecorded(st.history.nonces, st.globalBlockIdx);
    if cfg.encrypted {
      if st.isMain { RecordedMore(st.history.nonces, m, p); } else { RecordedMore(st.history.nonces, a, p); }
    }
    hide AllRecorded;
  }

  lemma NothingRecorded(nonces: seq<nat>, start: nat)
    ensures Recorded(nonces, start, [])
  {
  }

  lemma RecordedMore(nonces: seq<nat>, recs: seq<PageRec>, p: PageRec)
    requires AllRecorded(nonces, recs) && Recorded(nonces, p.startBlock, p.blocks)
    ensures AllRecorded(nonces, recs + [p])
  {
    hide Recorded;
  }

  lemma PushNumbered(cfg: Config, st: WriterState, b: BlockInfo, d: Bytes)
    requires Numbered(cfg, st) && st.streamActive && Counted(st)
    requires cfg.encrypted && Layout.IsStored(b) ==> st.globalBlockIdx in st.history.nonces
    ensures Numbered(cfg, PushBlock(cfg, st, b, d)) && Counted(PushBlock(cfg, st, b, d))
  {
    hide FlushPage, AllBelow, TakeTurns, AllRecorded;
    var st' := Push(st, b, d);
    assert Numbered(cfg, st') && Counted(st');
    if |st'.page| >= ENTRIES_PER_PAGE { FlushNumbered(cfg, st'); }
  }

  /** Sealing a block notes its index; deduplication is for plain archives only. */
  lemma BlockNumbered(cfg: Config, st: WriterState, d: Bytes)
    requires Numbered(cfg, st)
    ensures var t := WriteBlock(cfg, st, d).0;
      && Numbered(cfg, t) && (Counted(st) ==> Counted(t)) && t.streamActive == st.streamActive
      && t.globalBlockIdx == st.globalBlockIdx && (cfg.encrypted ==> t.globalBlockIdx in t.history.nonces)
  {
    hide AllBelow, TakeTurns;
  }

  lemma StoreNumbered(cfg: Config, st: WriterState, h: Hash, raw: Bytes, d: Bytes)
    requires Numbered(cfg, st)
    ensures var t := StoreOnce(st, h, raw, d).0;
      Numbered(cfg, t) && (Counted(st) ==> Counted(t)) && t.streamActive == st.streamActive
  {
    hide AllBelow, TakeTurns, AllRecorded;
  }

  lemma ApplyNumbered(cfg: Config, st: WriterState, op: Op)
    requires Ready(cfg, st) && Permitted(cfg, st, op) && Numbered(cfg, st)
    ensures Numbered(cfg, Apply(cfg, st, op))
  {
    assert Counted(st) by { hide StreamOk, DedupSound, PageWritten; }
    hide Ready, AllBelow, TakeTurns, AllRecorded, Recorded;
    match op
    case Dictionary(_) =>
    case Begin(isMain, total) => BeginNumbered(cfg, st, isMain, total);
    case Data(d) => DataNumbered(cfg, st, d);
    case Precompressed(d) => PrecompressedNumbered(cfg, st, d);
    case Delegate(d) => PushNumbered(cfg, st, ParentBlock(cfg.codec.hash(d), |d|), d);
    case Flush => FlushOrEndNumbered(cfg, st, op);
    case End => FlushOrEndNumbered(cfg, st, op);
  }

  lemma BeginNumbered(cfg: Config, st: WriterState, isMain: bool, total: nat)
    requires Numbered(cfg, st) && Counted(st)
    ensures Numbered(cfg, BeginStream(cfg, st, isMain, total))
  {
    NothingRecorded(st.history.nonces, st.globalBlockIdx);
    hide TakeTurns, AllRecorded, Recorded;
  }

  lemma DataNumbered(cfg: Config, st: WriterState, d: Bytes)
    requires Numbered(cfg, st) && st.streamActive && Counted(st)
    ensures Numbered(cfg, WriteDataBlock(cfg, st, d))
  {
    hide Numbered, PushBlock, WriteBlock;
    var (t, b) := WriteBlock(cfg, st, d);
    BlockNumbered(cfg, st, d);
    PushNumbered(cfg, st, ZeroBlock(AsU32(|d|)), d);
    PushNumbered(cfg, st, ParentBlock(cfg.codec.hash(d), AsU32(|d|)), d);
    PushNumbered(cfg, t, b, d);
  }

  lemma PrecompressedNumbered(cfg: Config, st: WriterState, d: Bytes)
    requires Numbered(cfg, st) && st.streamActive && Counted(st) && !cfg.encrypted
    ensures Numbered(cfg, WritePrecompressed(cfg, st, cfg.codec.compress(d), cfg.codec.hash(d), |d|, d))
  {
    hide Numbered, PushBlock, StoreOnce;
    var h, raw := cfg.codec.hash(d), cfg.codec.compress(d);
    var (t, off) := StoreOnce(st, h, raw, d);
    StoreNumbered(cfg, st, h, raw, d);
    PushNumbered(cfg, st, ParentBlock(h, |d|), d);
    PushNumbered(cfg, t, BlockInfo(off, AsU32(|raw|), |d|, cfg.codec.crc(raw), h), d);
  }

  lemma FlushOrEndNumbered(cfg: Config, st: WriterState, op: Op)
    requires Numbered(cfg, st) && Counted(st) && (op.Flush? || op.End?)
    ensures Numbered(cfg, Apply(cfg, st, op))
  {
    if st.page != [] { FlushNumbered(cfg, st); }
    hide FlushPage, TakeTurns, AllRecorded, Recorded;
  }

  lemma {:induction false} RunNumbered(cfg: Config, st: WriterState, ops: seq<Op>)
    requires cfg.codec.Lawful() && Ready(cfg, st) && RunPermitted(cfg, st, ops) && Numbered(cfg, st)
    ensures Numbered(cfg, Run(cfg, st, ops))
    decreases |ops|
  {
    hide Codec.Lawful, Ready, Permitted, Apply, Numbered;
    if ops != [] {
      ApplyReady(cfg, st, ops[0]);
      ApplyNumbered(cfg, st, ops[0]);
      RunNumbered(cfg, Apply(cfg, st, ops[0]), ops[1..]);
    }
  }

  lemma InitialNumbered(cfg: Config)
    ensures Numbered(cfg, Initial())
  {
  }

  /** Block `i` of flushed page `k` of stream `s`. */
  predicate HasBlock(st: WriterState, s: Stream, k: nat, i: nat) {
    k < |st.history.Recs(s)| && i < |st.history.Recs(s)[k].blocks|
  }

  function IndexOf(st: WriterState, s: Stream, k: nat, i: nat): nat
    requires HasBlock(st, s, k, i)
  {
    st.history.Recs(s)[k].startBlock + i
  }

  lemma AcrossStreams(st: WriterState, cfg: Config, k: nat, i: nat, l: nat, j: nat)
    requires Numbered(cfg, st) && HasBlock(st, Main, k, i) && HasBlock(st, Auxiliary, l, j)
    ensures IndexOf(st, Main, k, i) != IndexOf(st, Auxiliary, l, j)
  {
    var a, b := st.history.mainRecs[k], st.history.auxRecs[l];
    assert Before(a, b) || Before(b, a);
  }

  lemma WithinStream(cfg: Config, st: WriterState, s: Stream, k: nat, i: nat, l: nat, j: nat)
    requires Ready(cfg, st) && HasBlock(st, s, k, i) && HasBlock(st, s, l, j) &&
      IndexOf(st, s, k, i) == IndexOf(st, s, l, j)
    ensures k == l && i == j
  {
    assert StreamOk(cfg, st, s);
    assert Chain(st.history.Recs(s), st.Flushed(s));
    hide Ready, Chain, StreamOk;
    IndexIsUnique(st.history.Recs(s), st.Flushed(s), k, i, l, j);
  }

  /**
   Nonce agreement. In every permitted run: no index reaches the cipher twice; no two blocks of the archive, of
   one stream or of both, have the same index; and each encrypted block was sealed under exactly the index that the
   reader rebuilds from its page.
   */
  lemma NonceAgreement(cfg: Config, ops: seq<Op>, s: Stream, k: nat, i: nat, t: Stream, l: nat, j: nat)
    requires cfg.codec.Lawful() && RunPermitted(cfg, Initial(), ops)
    ensures var st := Run(cfg, Initial(), ops);
      && (forall a, b :: 0 <= a < b < |st.history.nonces| ==> st.history.nonces[a] < st.history.nonces[b])
      && (HasBlock(st, s, k, i) && HasBlock(st, t, l, j) && IndexOf(st, s, k, i) == IndexOf(st, t, l, j) ==>
          s == t && k == l && i == j)
      && (cfg.encrypted && HasBlock(st, s, k, i) && Layout.IsStored(st.history.Recs(s)[k].blocks[i]) ==>
          var p := st.history.Recs(s)[k];
          && IndexOf(st, s, k, i) in st.history.nonces
          && i + 1 < |p.bounds|
          && LocalWritten(cfg, st.out, p.blocks[i], IndexOf(st, s, k, i),
            Piece(st.history.Content(s), p.bounds[i], p.bounds[i + 1])))
  {
    hide *;
    InitialReady(cfg);
    InitialNumbered(cfg);
    RunReady(cfg, Initial(), ops);
    RunNumbered(cfg, Initial(), ops);
    NumberedAgrees(cfg, Run(cfg, Initial(), ops), s, k, i, t, l, j);
  }

  lemma NumberedAgrees(cfg: Config, st: WriterState, s: Stream, k: nat, i: nat, t: Stream, l: nat, j: nat)
    requires Ready(cfg, st) && Numbered(cfg, st)
    ensures forall a, b :: 0 <= a < b < |st.history.nonces| ==> st.history.nonces[a] < st.history.nonces[b]
    ensures HasBlock(st, s, k, i) && HasBlock(st, t, l, j) && IndexOf(st, s, k, i) == IndexOf(st, t, l, j) ==>
      s == t && k == l && i == j
    ensures cfg.encrypted && HasBlock(st, s, k, i) && Layout.IsStored(st.history.Recs(s)[k].blocks[i]) ==>
      var p := st.history.Recs(s)[k];
      && IndexOf(st, s, k, i) in st.history.nonces
      && i + 1 < |p.bounds|
      && LocalWritten(cfg, st.out, p.blocks[i], IndexOf(st, s, k, i),
        Piece(st.history.Content(s), p.bounds[i], p.bounds[i + 1]))
  {
    hide Ready, Numbered, LocalWritten;
    StrictlyIncreasing(cfg, st);
    if HasBlock(st, s, k, i) {
      if HasBlock(st, t, l, j) && IndexOf(st, s, k, i) == IndexOf(st, t, l, j) {
        if s == t { WithinStream(cfg, st, s, k, i, l, j); }
        else if s.Main? { AcrossStreams(st, cfg, k, i, l, j); }
        else { AcrossStreams(st, cfg, l, j, k, i); }
      }
      if cfg.encrypted && Layout.IsStored(st.history.Recs(s)[k].blocks[i]) {
        IndexIsRecorded(cfg, st, s, k, i);
        SealedUnder(cfg, st, s, k, i);
      }
    }
  }

  lemma StrictlyIncreasing(cfg: Config, st: WriterState)
    requires Ready(cfg, st)
    ensures forall a, b :: 0 <= a < b < |st.history.nonces| ==> st.history.nonces[a] < st.history.nonces[b]
  {
    hide StreamOk, PageOk, DedupSound;
  }

  lemma IndexIsRecorded(cfg: Config, st: WriterState, s: Stream, k: nat, i: nat)
    requires Numbered(cfg, st) && cfg.encrypted
    requires HasBlock(st, s, k, i) && Layout.IsStored(st.history.Recs(s)[k].blocks[i])
    ensures IndexOf(st, s, k, i) in st.history.nonces
  {
    assert Recorded(st.history.nonces, st.history.Recs(s)[k].startBlock, st.history.Recs(s)[k].blocks);
  }

  lemma SealedUnder(cfg: Config, st: WriterState, s: Stream, k: nat, i: nat)
    requires Ready(cfg, st) && k < |st.history.Recs(s)| && i < |st.history.Recs(s)[k].blocks|
    requires Layout.IsStored(st.history.Recs(s)[k].blocks[i])
    ensures var p := st.history.Recs(s)[k];
      i + 1 < |p.bounds| &&
      LocalWritten(cfg, st.out, p.blocks[i], p.startBlock + i,
        Piece(st.history.Content(s), p.bounds[i], p.bounds[i + 1]))
  {
    hide *;
    StreamIsOk(cfg, st, s);
    PageIsWritten(cfg, st, s, k);
    SealedInPage(cfg, st.out, st.history.Recs(s)[k], st.history.Content(s), i);
  }

  lemma StreamIsOk(cfg: Config, st: WriterState, s: Stream)
    requires Ready(cfg, st)
    ensures StreamOk(cfg, st, s)
  {
    hide StreamOk, PageOk, DedupSound;
  }

  lemma PageIsWritten(cfg: Config, st: WriterState, s: Stream, k: nat)
    requires StreamOk(cfg, st, s) && k < |st.history.Recs(s)|
    ensures PageWritten(cfg, st.out, st.history.Recs(s)[k], st.history.Content(s))
  {
    hide PageWritten, EntryWritten, Chain;
    assert st.history.Recs(s)[k] == st.history.Recs(s)[k];
  }

  lemma SealedInPage(cfg: Config, file: Bytes, p: PageRec, content: Bytes, i: nat)
    requires PageWritten(cfg, file, p, content) && i < |p.blocks| && Layout.IsStored(p.blocks[i])
    ensures i + 1 < |p.bounds| &&
      LocalWritten(cfg, file, p.blocks[i], p.startBlock + i, Piece(content, p.bounds[i], p.bounds[i + 1]))
  {
    assert BlockWritten(cfg, file, p.blocks[i], p.startBlock + i, Piece(content, p.bounds[i], p.bounds[i + 1]));
    hide PageWritten, LocalWritten;
  }
}
