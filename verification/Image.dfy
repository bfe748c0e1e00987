// What an opened archive denotes: its bytes, its index, and the contents a reader gets from them.
module Image {
  import opened Common
  import opened Format
  import opened Index
  import opened WriterModel

  /**
   An archive as a value. `mainContent` and `auxContent` are what its index describes; `Readable` says that each
   block really yields its part of them.
   */
  datatype Image = Image(
    codec: Codec, encrypted: bool, file: Bytes, master: MasterIndex,
    mainRecs: seq<PageRec>, auxRecs: seq<PageRec>,
    mainContent: Bytes, auxContent: Bytes,
    parents: seq<Image>)
  {
    function Recs(s: Stream): seq<PageRec> { if s.Main? then mainRecs else auxRecs }

    function Content(s: Stream): Bytes { if s.Main? then mainContent else auxContent }

    /** Page `k` of stream `s` has an `i`-th block. */
    predicate Has(s: Stream, k: nat, i: nat) { k < |Recs(s)| && i < |Recs(s)[k].blocks| }

    function BlockAt(s: Stream, k: nat, i: nat): BlockInfo
      requires Has(s, k, i)
    {
      Recs(s)[k].blocks[i]
    }

    function IndexAt(s: Stream, k: nat, i: nat): nat
      requires Has(s, k, i)
    {
      Recs(s)[k].startBlock + i
    }

    function DataAt(s: Stream, k: nat, i: nat): Bytes
      requires Has(s, k, i)
    {
      if |Recs(s)[k].bounds| <= i + 1 then []
      else Piece(Content(s), Recs(s)[k].bounds[i], Recs(s)[k].bounds[i + 1])
    }

    /** A block with hash `h` that is stored in this very file. */
    predicate Stores(s: Stream, k: nat, i: nat, h: Hash) {
      Has(s, k, i) && BlockAt(s, k, i).IsLocal() && BlockAt(s, k, i).hash == h
    }

    ghost predicate Holds(h: Hash) { exists s, k, i :: Stores(s, k, i, h) }
  }

  /** The first of several archives to store a block with this hash. */
  ghost predicate FirstHolder(archives: seq<Image>, h: Hash, p: nat) {
    && p < |archives|
    && archives[p].Holds(h)
    && forall q :: 0 <= q < p ==> !archives[q].Holds(h)
  }

  ghost predicate HeldByAny(archives: seq<Image>, h: Hash) {
    exists p {:trigger archives[p]} :: 0 <= p < |archives| && archives[p].Holds(h)
  }

  lemma {:induction false} FirstHolderExists(archives: seq<Image>, h: Hash, p: nat)
    requires p < |archives| && archives[p].Holds(h)
    ensures exists q :: FirstHolder(archives, h, q)
    decreases p
  {
    hide Image.Holds;
    if q :| 0 <= q < p && archives[q].Holds(h) {
      FirstHolderExists(archives, h, q);
    } else {
      assert FirstHolder(archives, h, p);
    }
  }

  /** Each stored block that carries a hash carries that of its own contents. */
  ghost predicate Honest(img: Image, codec: Codec) {
    forall s, k, i {:trigger img.Has(s, k, i)} ::
      img.Has(s, k, i) && img.BlockAt(s, k, i).IsLocal() && img.BlockAt(s, k, i).hash != ZERO_HASH ==>
        img.DataAt(s, k, i) in codec.universe && img.BlockAt(s, k, i).hash == codec.hash(img.DataAt(s, k, i))
  }

  /** A reference to hash `h` is read as `d`: from the first parent that stores it, whichever copy, else zeros. */
  ghost predicate ResolvesTo(parents: seq<Image>, h: Hash, d: Bytes) {
    && (forall p: nat, s, k, i :: FirstHolder(parents, h, p) && parents[p].Stores(s, k, i, h) ==>
      parents[p].DataAt(s, k, i) == d)
    && ((forall p :: 0 <= p < |parents| ==> !parents[p].Holds(h)) ==> IsZeroChunk(d))
  }

  /** A stored block passes its checksum and unseals to `d`. */
  ghost predicate UnsealsTo(img: Image, b: BlockInfo, idx: nat, d: Bytes) {
    && b.offset + b.length <= |img.file|
    && var raw := img.file[b.offset..b.offset + b.length];
       img.codec.crc(raw) == b.checksum && img.codec.Unseal(img.encrypted, raw, idx, b.logicalLen) == Some(d)
  }

  ghost predicate BlockReads(img: Image, b: BlockInfo, idx: nat, d: Bytes) {
    && |d| == b.logicalLen
    && if b.ReadsAsZero() then IsZeroChunk(d)
       else if b.offset == BLOCK_OFFSET_PARENT then ResolvesTo(img.parents, b.hash, d)
       else UnsealsTo(img, b, idx, d)
  }

  ghost predicate PageReads(img: Image, s: Stream, k: nat)
    requires k < |img.Recs(s)|
  {
    forall i {:trigger img.Recs(s)[k].blocks[i]} :: 0 <= i < |img.Recs(s)[k].blocks| ==>
      BlockReads(img, img.BlockAt(s, k, i), img.IndexAt(s, k, i), img.DataAt(s, k, i))
  }

  ghost predicate PageDecodes(img: Image, e: PageEntry, p: PageRec) {
    e.offset + e.length <= |img.file| && img.codec.decodePage(img.file[e.offset..e.offset + e.length]) == Some(p.blocks)
  }

  ghost predicate StreamReads(img: Image, s: Stream) {
    && Covers(img.master.Pages(s), img.Recs(s))
    && Chain(img.Recs(s), |img.Content(s)|)
    && (forall k {:trigger img.Recs(s)[k]} :: 0 <= k < |img.Recs(s)| ==>
      PageDecodes(img, img.master.Pages(s)[k], img.Recs(s)[k]) && PageReads(img, s, k))
  }

  /** Every page covers at least one byte. */
  ghost predicate Dense(img: Image) {
    forall s, k {:trigger img.Recs(s)[k]} :: 0 <= k < |img.Recs(s)| ==>
      img.Recs(s)[k].bounds != [] && img.Recs(s)[k].Start() < img.Recs(s)[k].End()
  }

  /** Pages at the same place in the file are the same page. */
  ghost predicate PagesApart(img: Image) {
    forall s, t, k, l {:trigger img.master.Pages(s)[k], img.master.Pages(t)[l]} ::
      k < |img.master.Pages(s)| && l < |img.master.Pages(t)| && k < |img.Recs(s)| && l < |img.Recs(t)|
      && 0 <= k && 0 <= l && img.master.Pages(s)[k].offset == img.master.Pages(t)[l].offset ==>
      img.Recs(s)[k].blocks == img.Recs(t)[l].blocks
  }

  ghost predicate Readable(img: Image) {
    && StreamReads(img, Main)
    && StreamReads(img, Auxiliary)
    && PagesApart(img)
    && forall p :: p in img.parents ==> Readable(p) && Dense(p)
  }

  // ---------------------------------------------------------------------------------------------
  // The meaning of a read

  /** What a request for `n` bytes at `off` returns, past the end of the content and of the stream included. */
  ghost function ReadSpec(img: Image, s: Stream, off: nat, n: nat): (r: Bytes)
    ensures |r| == n
    decreases img, 1
  {
    var size := img.master.Size(s);
    if off >= size then Zeros(n)
    else
      var actual := Min(n, size - off);
      var own := Cut(img.Content(s), off, actual);
      own + Fallback(img, s, off + |own|, actual - |own|) + Zeros(n - actual)
  }

  /** Bytes inside the declared size that no block describes: the first parent that has this position, else zeros. */
  ghost function Fallback(img: Image, s: Stream, pos: nat, n: nat): (r: Bytes)
    ensures |r| == n
    decreases img, 0
  {
    if exists p: nat :: FirstCovering(img.parents, s, pos, p) then
      var p: nat :| FirstCovering(img.parents, s, pos, p);
      ReadSpec(img.parents[p], s, pos, n)
    else Zeros(n)
  }

  ghost predicate FirstCovering(archives: seq<Image>, s: Stream, pos: nat, p: nat) {
    && p < |archives|
    && pos < |archives[p].Content(s)|
    && forall q :: 0 <= q < p ==> |archives[q].Content(s)| <= pos
  }

  /** A settled stream: reading is cutting the content. */
  lemma ReadSpecIsCut(img: Image, s: Stream, off: nat, n: nat)
    requires img.master.Size(s) <= |img.Content(s)|
    ensures var c := img.Content(s)[..img.master.Size(s)];
      ReadSpec(img, s, off, n) == Cut(c, off, n) + Zeros(n - |Cut(c, off, n)|)
  {
    var size := img.master.Size(s);
    var c := img.Content(s)[..size];
    if off < size {
      var actual := Min(n, size - off);
      assert Cut(img.Content(s), off, actual) == Cut(c, off, n);
    }
  }

  lemma FirstCoveringUnique(archives: seq<Image>, s: Stream, pos: nat, p: nat, q: nat)
    requires FirstCovering(archives, s, pos, p) && FirstCovering(archives, s, pos, q)
    ensures p == q
  {
  }

  lemma FallbackIs(img: Image, s: Stream, pos: nat, n: nat, p: nat)
    requires FirstCovering(img.parents, s, pos, p)
    ensures Fallback(img, s, pos, n) == ReadSpec(img.parents[p], s, pos, n)
  {
    var q: nat :| FirstCovering(img.parents, s, pos, q) &&
      Fallback(img, s, pos, n) == ReadSpec(img.parents[q], s, pos, n);
    FirstCoveringUnique(img.parents, s, pos, p, q);
  }

  lemma NoFallback(img: Image, s: Stream, pos: nat, n: nat)
    requires forall q :: 0 <= q < |img.parents| ==> |img.parents[q].Content(s)| <= pos
    ensures Fallback(img, s, pos, n) == Zeros(n)
  {
  }
}
