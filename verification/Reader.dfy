// Reading an archive (crates/core/src/api/file.rs): page walk, block resolution, caches, prefetch trigger.
module Reader {
  import opened Common
  import opened Format
  import opened Index
  import opened Image
  import opened Lru
  import WriterModel

  type BlockKey = (Stream, nat)
  type HashIndex = map<Hash, (Stream, nat, BlockInfo)>

  /** One block still to be decompressed into the target: where it goes, and which part of it. */
  datatype WorkItem = WorkItem(blockIdx: nat, info: BlockInfo, bufOffset: nat, offsetInBlock: nat, toCopy: nat) {
    predicate Spans(j: int) { bufOffset <= j < bufOffset + toCopy }
  }

  /** How far a pool thread has got with a work item: not begun, stored bytes in hand, or copying its plaintext. */
  datatype Task = Waiting | Holding(raw: Bytes) | Copying(data: Bytes, done: nat) {
    function Copied(): nat { if Copying? then done else 0 }
  }

  predicate Finished(it: WorkItem, t: Task) { t.Copying? && t.done >= it.toCopy }

  /** Steps that are left for an item. */
  function StepsLeft(it: WorkItem, t: Task): nat {
    match t
    case Waiting => it.toCopy + 2
    case Holding(_) => it.toCopy + 1
    case Copying(_, done) => if done < it.toCopy then it.toCopy - done else 0
  }

  function AllStepsLeft(items: seq<WorkItem>, tasks: seq<Task>): nat
    requires |items| == |tasks|
  {
    if items == [] then 0
    else
      var n := |items| - 1;
      AllStepsLeft(items[..n], tasks[..n]) + StepsLeft(items[n], tasks[n])
  }

  lemma {:induction false} StepsUpdate(items: seq<WorkItem>, tasks: seq<Task>, a: nat, t: Task)
    requires |items| == |tasks| && a < |items|
    ensures AllStepsLeft(items, tasks[a := t]) + StepsLeft(items[a], tasks[a]) ==
      AllStepsLeft(items, tasks) + StepsLeft(items[a], t)
  {
    hide StepsLeft;
    var n := |items| - 1;
    if a < n {
      assert tasks[a := t][..n] == tasks[..n][a := t];
      StepsUpdate(items[..n], tasks[..n], a, t);
    } else {
      assert tasks[a := t][..n] == tasks[..n];
    }
  }

  datatype FetchResult = Decompressed(data: Bytes) | Compressed(raw: Bytes)

  const PARALLEL_MIN_BLOCKS: nat := 4

  /** What opening learns from the bytes of a file: header, master index, metadata. */
  datatype Opened = Opened(header: Header, master: MasterIndex, metadata: Option<Bytes>)

  function Region(file: Bytes, offset: Option<nat>, length: Option<nat>): Result<Option<Bytes>> {
    if offset.None? || length.None? then Ok(None)
    else if offset.value + length.value > |file| then Err(IoError)
    else Ok(Some(file[offset.value..offset.value + length.value]))
  }

  /** The header of a file, if there is one that decodes. */
  function HeaderOf(codec: Codec, file: Bytes): Option<Header> {
    if |file| < HEADER_SIZE then None else codec.decodeHeader(file[..HEADER_SIZE])
  }

  /** The file starts with a header of this format and version. */
  predicate Recognised(codec: Codec, file: Bytes) {
    var h := HeaderOf(codec, file);
    h.Some? && h.value.magic == MAGIC_BYTES && h.value.version == FORMAT_VERSION
  }

  /** A region that the header names lies within the file. */
  predicate RegionInside(file: Bytes, offset: Option<nat>, length: Option<nat>) {
    offset.Some? && length.Some? ==> offset.value + length.value <= |file|
  }

  /** Something lies behind the index offset, not too much to load, and an index can be made of it. */
  predicate IndexLoads(codec: Codec, file: Bytes, at: nat) {
    at < |file| <= at + MAX_INDEX_SIZE && codec.decodeMaster(file[at..]).Some?
  }

  /** Which files can be opened. */
  predicate CanOpen(codec: Codec, hasKey: bool, file: Bytes) {
    && Recognised(codec, file)
    && var h := HeaderOf(codec, file).value;
      && RegionInside(file, h.dictionaryOffset, h.dictionaryLength)
      && (h.encryption.Some? ==> hasKey)
      && IndexLoads(codec, file, h.indexOffset)
      && RegionInside(file, h.metadataOffset, h.metadataLength)
  }

  /** The file has a header and a dictionary in place, but is encrypted and there is no key. */
  predicate LacksKey(codec: Codec, hasKey: bool, file: Bytes) {
    && Recognised(codec, file) && !hasKey
    && var h := HeaderOf(codec, file).value;
      h.encryption.Some? && RegionInside(file, h.dictionaryOffset, h.dictionaryLength)
  }

  /** A part of the file that has to be read is not there; the metadata are looked at last. */
  predicate IsShort(codec: Codec, hasKey: bool, file: Bytes) {
    || |file| < HEADER_SIZE
    || (Recognised(codec, file) &&
        var h := HeaderOf(codec, file).value;
        || !RegionInside(file, h.dictionaryOffset, h.dictionaryLength)
        || ((h.encryption.Some? ==> hasKey) && IndexLoads(codec, file, h.indexOffset) &&
            !RegionInside(file, h.metadataOffset, h.metadataLength)))
  }

  /** What is found in a file that opens: the index decoded where the header says, and the metadata it names. */
  predicate Finds(codec: Codec, file: Bytes, master: MasterIndex, metadata: Option<Bytes>) {
    && HeaderOf(codec, file).Some?
    && var h := HeaderOf(codec, file).value;
      && h.indexOffset <= |file| && codec.decodeMaster(file[h.indexOffset..]) == Some(master)
      && RegionInside(file, h.metadataOffset, h.metadataLength)
      && if h.metadataOffset.Some? && h.metadataLength.Some? then
           metadata == Some(file[h.metadataOffset.value..h.metadataOffset.value + h.metadataLength.value])
         else metadata == None
  }

  /** Which files open, as what, and which error each of the others gives. */
  lemma InspectIff(codec: Codec, hasKey: bool, file: Bytes)
    ensures var r := Inspect(codec, hasKey, file);
      && (r.Ok? <==> CanOpen(codec, hasKey, file))
      && (r.Ok? ==>
          HeaderOf(codec, file) == Some(r.value.header) && Finds(codec, file, r.value.master, r.value.metadata))
      && (r == Err(EncryptionError) <==> LacksKey(codec, hasKey, file))
      && (r == Err(IoError) <==> IsShort(codec, hasKey, file))
  {
  }

  /** Every check in the order it is made. */
  function Inspect(codec: Codec, hasKey: bool, file: Bytes): Result<Opened> {
    if |file| < HEADER_SIZE then Err(IoError) else
    match codec.decodeHeader(file[..HEADER_SIZE])
    case None => Err(FormatError)
    case Some(h) =>
      if h.magic != MAGIC_BYTES || h.version != FORMAT_VERSION then Err(FormatError)
      else if Region(file, h.dictionaryOffset, h.dictionaryLength).Err? then Err(IoError)
      else if h.Encrypted() && !hasKey then Err(EncryptionError)
      else if h.indexOffset >= |file| || |file| - h.indexOffset > MAX_INDEX_SIZE then Err(FormatError)
      else match codec.decodeMaster(file[h.indexOffset..])
      case None => Err(FormatError)
      case Some(m) =>
        match Region(file, h.metadataOffset, h.metadataLength)
        case Err(e) => Err(e)
        case Ok(meta) => Ok(Opened(h, m, meta))
  }

  /** The positions of a sequence of length `n`. */
  function Below(n: nat): (r: set<nat>)
    ensures forall a: nat {:trigger a in r} :: a in r <==> a < n
  {
    if n == 0 then {} else Below(n - 1) + {n - 1}
  }

  predicate Covered(items: seq<WorkItem>, j: int) {
    exists a :: 0 <= a < |items| && items[a].Spans(j)
  }

  /** Ranges of different work items do not meet, and all end before `limit`. */
  predicate Apart(items: seq<WorkItem>, limit: nat) {
    && (forall a, b :: 0 <= a < b < |items| ==> items[a].bufOffset + items[a].toCopy <= items[b].bufOffset)
    && (forall a :: 0 <= a < |items| ==> items[a].bufOffset + items[a].toCopy <= limit)
  }

  /** How far a walk that has reached stream position `pos` has filled a request for [off, off + n). */
  predicate WalkedTo(off: nat, n: nat, pos: nat, filled: nat) {
    filled <= n && (filled == n || filled == if pos <= off then 0 else pos - off)
  }

  method ZeroFill(buf: array<bv8>, from: nat, n: nat)
    requires from + n <= buf.Length
    modifies buf
    ensures buf[..] == old(buf[..from]) + Zeros(n) + old(buf[from + n..])
  {
    var done := 0;
    while done < n
      invariant done <= n
      invariant forall j :: 0 <= j < buf.Length ==> buf[j] == if from <= j < from + done then 0 else old(buf[j])
    {
      buf[from + done] := 0;
      done := done + 1;
    }
  }

  method CopyInto(buf: array<bv8>, at: nat, src: Bytes)
    requires at + |src| <= buf.Length
    modifies buf
    ensures buf[..] == old(buf[..at]) + src + old(buf[at + |src|..])
  {
    var done := 0;
    while done < |src|
      invariant done <= |src|
      invariant forall j :: 0 <= j < buf.Length ==> buf[j] == if at <= j < at + done then src[j - at] else old(buf[j])
    {
      buf[at + done] := src[done];
      done := done + 1;
    }
  }

  class Archive {
    const codec: Codec
    const encrypted: bool
    const blockSize: nat
    const file: Bytes
    const master: MasterIndex
    const metadata: Option<Bytes>
    const parents: seq<Archive>
    const prefetchWindow: nat
    ghost const img: Image
    ghost const repr: set<Archive>

    var cacheL1: Sharded<BlockKey, Bytes>
    var pageCache: Sharded<nat, seq<BlockInfo>>
    var hashIndex: Option<HashIndex>
    var inFlight: bool
    var spawnCount: nat

    /** What never changes: the fields agree with the image, and `repr` is closed under parents. */
    ghost predicate Linked() {
      && this in repr
      && codec == img.codec && encrypted == img.encrypted && file == img.file && master == img.master
      && Readable(img)
      && |parents| == |img.parents|
      && forall p {:trigger parents[p]} :: 0 <= p < |parents| ==>
        parents[p].img == img.parents[p] && parents[p] in repr && parents[p].repr <= repr
    }

    ghost predicate HashIndexOk(m: HashIndex) {
      forall h {:trigger h in m} {:trigger img.Holds(h)} ::
        && (h in m <==> img.Holds(h))
        && (h in m ==> Located(m[h], h))
    }

    ghost predicate Located(e: (Stream, nat, BlockInfo), h: Hash) {
      exists k, i :: img.Stores(e.0, k, i, h) && e.1 == img.IndexAt(e.0, k, i) && e.2 == img.BlockAt(e.0, k, i)
    }

    /** A cached block is the plaintext of that block. */
    ghost predicate BlocksOk(c: Sharded<BlockKey, Bytes>) {
      && c.Valid()
      && forall s, k, i {:trigger img.Has(s, k, i)} :: img.Has(s, k, i) ==>
        var v := c.Lookup((s, img.IndexAt(s, k, i))); v == None || v == Some(img.DataAt(s, k, i))
    }

    /** A cached page is the page stored at that place. */
    ghost predicate PagesOk(c: Sharded<nat, seq<BlockInfo>>) {
      && c.Valid()
      && forall s, k {:trigger img.Recs(s)[k]} :: 0 <= k < |img.Recs(s)| && k < |master.Pages(s)| ==>
        var v := c.Lookup(master.Pages(s)[k].offset); v == None || v == Some(img.Recs(s)[k].blocks)
    }

    ghost predicate IndexOk(m: Option<HashIndex>) { m.Some? ==> HashIndexOk(m.value) }

    /** Whatever is cached is what reading the file would give. */
    ghost predicate Sound()
      reads this
    {
      Linked() && BlocksOk(cacheL1) && PagesOk(pageCache) && IndexOk(hashIndex)
    }

    ghost predicate Valid()
      reads repr
    {
      this in repr && forall a :: a in repr ==> a.Sound()
    }

    function Size(s: Stream): nat { master.Size(s) }

    // -------------------------------------------------------------------------------------------
    // Opening

    static ghost function Closure(parents: seq<Archive>): (r: set<Archive>)
      ensures forall p {:trigger parents[p]} :: 0 <= p < |parents| ==> parents[p].repr <= r
      ensures forall a :: a in r ==> exists p {:trigger parents[p]} :: 0 <= p < |parents| && a in parents[p].repr
    {
      if parents == [] then {}
      else
        var n := |parents| - 1;
        Closure(parents[..n]) + parents[n].repr
    }

    /** `img` is what a reader with this key and these parents faces. */
    static ghost predicate Describes(
      img: Image, codec: Codec, hasKey: bool, file: Bytes, master: MasterIndex, parents: seq<Archive>)
    {
      && img.codec == codec && img.encrypted == hasKey && img.file == file && img.master == master
      && |img.parents| == |parents|
      && forall p {:trigger parents[p]} :: 0 <= p < |parents| ==> parents[p].img == img.parents[p]
    }

    constructor (
      codec: Codec, hasKey: bool, file: Bytes, found: Opened, parents: seq<Archive>,
      shardBlock: BlockKey -> nat, shardPage: nat -> nat, capacity: Option<nat>, prefetchWindow: nat, ghost img: Image)
      ensures this.codec == codec && this.encrypted == hasKey && this.file == file && this.parents == parents
      ensures master == found.master && metadata == found.metadata && blockSize == found.header.blockSize
      ensures this.img == img && repr == {this} + Closure(parents)
      ensures cacheL1 == WithCapacity(shardBlock, if capacity.Some? then capacity.value else DEFAULT_L1_CAPACITY)
      ensures pageCache == WithCapacity(shardPage, DEFAULT_PAGE_CACHE_CAPACITY)
      ensures hashIndex == None && !inFlight && spawnCount == 0 && this.prefetchWindow == prefetchWindow
    {
      hide WithCapacity;
      this.codec, this.encrypted, this.file, this.master := codec, hasKey, file, found.master;
      this.blockSize, this.metadata, this.parents := found.header.blockSize, found.metadata, parents;
      this.prefetchWindow := prefetchWindow;
      this.img, this.repr := img, {this} + Closure(parents);
      cacheL1 := WithCapacity(shardBlock, if capacity.Some? then capacity.value else DEFAULT_L1_CAPACITY);
      pageCache := WithCapacity(shardPage, DEFAULT_PAGE_CACHE_CAPACITY);
      hashIndex := None;
      inFlight, spawnCount := false, 0;
    }

    lemma ValidIsLinked()
      requires Valid()
      ensures Linked()
    {
      assert Sound();
    }

    lemma HasItself()
      requires Valid()
      ensures this in repr
    {
    }

    lemma OpenedIsLinked()
      requires Readable(img) && Describes(img, codec, encrypted, file, master, parents)
      requires forall p: Archive {:trigger p in parents} :: p in parents ==> p in p.repr
      requires repr == {this} + Closure(parents)
      ensures Linked()
    {
      hide Readable;
      assert forall p {:trigger parents[p]} :: 0 <= p < |parents| ==> parents[p] in parents;
    }

    lemma OpenedIsValid()
      requires forall p: Archive {:trigger p in parents} :: p in parents ==> p.Valid()
      requires Sound() && repr == {this} + Closure(parents)
      ensures Valid()
    {
      hide Sound;
      forall a | a in repr && a != this ensures a.Sound() {
        var p :| 0 <= p < |parents| && a in parents[p].repr;
        assert parents[p] in parents;
        ParentSound(p, a);
      }
    }

    lemma ParentSound(p: nat, a: Archive)
      requires p < |parents| && parents[p].Valid() && a in parents[p].repr
      ensures a.Sound()
    {
    }

    lemma EmptyCachesOk(shardBlock: BlockKey -> nat, shardPage: nat -> nat, capacity: nat)
      ensures BlocksOk(WithCapacity(shardBlock, capacity))
      ensures PagesOk(WithCapacity(shardPage, DEFAULT_PAGE_CACHE_CAPACITY))
    {
    }

    /**
     Opens a file, with its parents already opened by the loader. The error is `FormatError` in the cases that are
     left: no header of this format, or no index that can be loaded.
     */
    static method Open(
      codec: Codec, hasKey: bool, file: Bytes, parents: seq<Archive>,
      shardBlock: BlockKey -> nat, shardPage: nat -> nat, capacity: Option<nat>, prefetchWindow: nat, ghost img: Image)
      returns (r: Result<Archive>)
      requires forall p: Archive {:trigger p in parents} :: p in parents ==> p.Valid()
      ensures r.Ok? <==> CanOpen(codec, hasKey, file)
      ensures r == Err(EncryptionError) <==> LacksKey(codec, hasKey, file)
      ensures r == Err(IoError) <==> IsShort(codec, hasKey, file)
      ensures r.Ok? ==> var a := r.value;
        && Finds(codec, file, a.master, a.metadata)
        && HeaderOf(codec, file).Some? && a.blockSize == HeaderOf(codec, file).value.blockSize
        && a.codec == codec && a.encrypted == hasKey && a.file == file && a.parents == parents
        && a.prefetchWindow == prefetchWindow && !a.inFlight && a.hashIndex == None
        && a.cacheL1 == WithCapacity(shardBlock, if capacity.Some? then capacity.value else DEFAULT_L1_CAPACITY)
        && a.pageCache == WithCapacity(shardPage, DEFAULT_PAGE_CACHE_CAPACITY)
      ensures r.Ok? ==>
        && r.value.img == img && fresh(r.value.repr - Closure(parents))
        && (Readable(img) && Describes(img, codec, hasKey, file, r.value.master, parents) ==> r.value.Valid())
    {
      hide Readable, Describes, Inspect, Archive.Valid, Archive.Linked, Archive.BlocksOk, Archive.PagesOk, WithCapacity;
      hide CanOpen, LacksKey, IsShort, Finds, HeaderOf, Recognised;
      InspectIff(codec, hasKey, file);
      match Inspect(codec, hasKey, file) {
        case Err(e) => return Err(e);
        case Ok(found) =>
          var a := new Archive(codec, hasKey, file, found, parents, shardBlock, shardPage, capacity, prefetchWindow,
            img);
          if Readable(img) && Describes(img, codec, hasKey, file, found.master, parents) {
            a.EmptyCachesOk(shardBlock, shardPage, if capacity.Some? then capacity.value else DEFAULT_L1_CAPACITY);
            forall p: Archive {:trigger p in parents} | p in parents ensures p in p.repr { p.HasItself(); }
            a.OpenedIsLinked();
            a.OpenedIsValid();
          }
          return Ok(a);
      }
    }

    // -------------------------------------------------------------------------------------------
    // Pages and blocks

    method ReadExact(offset: nat, length: nat) returns (r: Result<Bytes>)
      ensures r == if offset + length <= |file| then Ok(file[offset..offset + length]) else Err(IoError)
    {
      if offset + length <= |file| {
        r := Ok(file[offset..offset + length]);
      } else {
        r := Err(IoError);
      }
    }

    lemma StreamFacts(s: Stream)
      requires Linked()
      ensures StreamReads(img, s) && |master.Pages(s)| == |img.Recs(s)|
    {
    }

    lemma PageFacts(s: Stream, k: nat)
      requires Linked() && k < |img.Recs(s)|
      ensures |master.Pages(s)| == |img.Recs(s)|
      ensures PageDecodes(img, master.Pages(s)[k], img.Recs(s)[k]) && PageReads(img, s, k)
      ensures master.Pages(s)[k].startBlock == img.Recs(s)[k].startBlock
      ensures img.Recs(s)[k].Shape() && master.Pages(s)[k].startLogical == img.Recs(s)[k].Start()
      ensures img.Recs(s)[k].End() <= |img.Content(s)|
    {
      StreamFacts(s);
      ChainEnd(img.Recs(s), |img.Content(s)|, k);
    }

    lemma PageOnDisk(s: Stream, k: nat)
      requires Linked() && k < |img.Recs(s)| && k < |master.Pages(s)|
      ensures var e := master.Pages(s)[k];
        e.offset + e.length <= |file| &&
          codec.decodePage(file[e.offset..e.offset + e.length]) == Some(img.Recs(s)[k].blocks)
    {
      PageFacts(s, k);
    }

    /** The page behind an index entry, from the cache or the file; it is in the cache afterwards. */
    method GetPage(entry: PageEntry, ghost s: Stream, ghost k: nat) returns (r: Result<seq<BlockInfo>>)
      requires Valid() && k < |img.Recs(s)| && k < |master.Pages(s)| && entry == master.Pages(s)[k]
      modifies this`pageCache
      ensures Valid()
      ensures r == Ok(img.Recs(s)[k].blocks)
      ensures pageCache.shards != [] ==> pageCache.Lookup(entry.offset) == Some(img.Recs(s)[k].blocks)
    {
      hide BlocksOk, PagesOk, IndexOk, Linked, Sharded.Lookup, Sharded.Touch, Sharded.Put;
      PageOnDisk(s, k);
      TouchPage(pageCache, s, k);
      StaysCached(pageCache, s, k);
      var hit := pageCache.Lookup(entry.offset);
      pageCache := pageCache.Touch(entry.offset);
      if hit.Some? {
        return Ok(hit.value);
      }
      var raw := ReadExact(entry.offset, entry.length);
      match raw {
        case Err(e) => return Err(e);
        case Ok(bytes) =>
          match codec.decodePage(bytes) {
            case None => return Err(FormatError);
            case Some(page) =>
              PutPage(pageCache, s, k);
              pageCache := pageCache.Put(entry.offset, page);
              return Ok(page);
          }
      }
    }

    /** A page looked up and found stays in the cache, and one put into it is found. */
    lemma StaysCached(c: Sharded<nat, seq<BlockInfo>>, s: Stream, k: nat)
      requires PagesOk(c) && k < |img.Recs(s)| && k < |master.Pages(s)|
      ensures var off, page := master.Pages(s)[k].offset, img.Recs(s)[k].blocks;
        && (c.Lookup(off).Some? ==> c.Touch(off).Lookup(off) == Some(page))
        && (c.Touch(off).Put(off, page).shards != [] ==> c.Touch(off).Put(off, page).Lookup(off) == Some(page))
    {
      var off := master.Pages(s)[k].offset;
      assert img.Recs(s)[k] == img.Recs(s)[k];
      c.TouchValid(off);
      hide Sharded.Lookup, Sharded.Touch, Sharded.Valid;
      c.Touch(off).PutValid(off, img.Recs(s)[k].blocks);
    }

    lemma SamePlace(s: Stream, k: nat, t: Stream, l: nat)
      requires Linked()
      requires k < |img.Recs(s)| && k < |master.Pages(s)| && l < |img.Recs(t)| && l < |master.Pages(t)|
      requires master.Pages(s)[k].offset == master.Pages(t)[l].offset
      ensures img.Recs(s)[k].blocks == img.Recs(t)[l].blocks
    {
      hide StreamReads;
      assert img.master.Pages(s)[k].offset == img.master.Pages(t)[l].offset;
    }

    lemma TouchPage(c: Sharded<nat, seq<BlockInfo>>, s: Stream, k: nat)
      requires Linked() && PagesOk(c) && k < |img.Recs(s)| && k < |master.Pages(s)|
      ensures PagesOk(c.Touch(master.Pages(s)[k].offset))
      ensures var v := c.Lookup(master.Pages(s)[k].offset); v == None || v == Some(img.Recs(s)[k].blocks)
    {
      hide Sharded.Lookup, Sharded.Touch, Sharded.Valid, Linked;
      c.TouchValid(master.Pages(s)[k].offset);
      assert img.Recs(s)[k] == img.Recs(s)[k];
    }

    lemma PutPage(c: Sharded<nat, seq<BlockInfo>>, s: Stream, k: nat)
      requires Linked() && PagesOk(c) && k < |img.Recs(s)| && k < |master.Pages(s)|
      ensures PagesOk(c.Put(master.Pages(s)[k].offset, img.Recs(s)[k].blocks))
    {
      hide Sharded.Lookup, Sharded.Put, Sharded.Valid, Linked;
      var key, page := master.Pages(s)[k].offset, img.Recs(s)[k].blocks;
      var c' := c.Put(key, page);
      c.PutValid(key, page);
      forall t, l {:trigger img.Recs(t)[l]} | 0 <= l < |img.Recs(t)| && l < |master.Pages(t)|
        ensures var v := c'.Lookup(master.Pages(t)[l].offset); v == None || v == Some(img.Recs(t)[l].blocks)
      {
        if master.Pages(t)[l].offset == key { SamePlace(s, k, t, l); }
      }
    }

    /** Facts about one block, without the index around it. */
    lemma BlockFacts(s: Stream, k: nat, i: nat)
      requires Linked() && img.Has(s, k, i)
      ensures BlockReads(img, img.BlockAt(s, k, i), img.IndexAt(s, k, i), img.DataAt(s, k, i))
      ensures |img.DataAt(s, k, i)| == img.BlockAt(s, k, i).logicalLen
    {
      PageFacts(s, k);
      assert img.Recs(s)[k].blocks[i] == img.BlockAt(s, k, i);
    }

    /** Where block `i` of page `k` lies in the stream. */
    lemma BlockPlace(s: Stream, k: nat, i: nat)
      requires Linked() && img.Has(s, k, i)
      ensures img.Recs(s)[k].Shape()
      ensures var r := img.Recs(s)[k];
        && r.Start() <= r.bounds[i] <= r.bounds[i + 1] <= |img.Content(s)|
        && r.bounds[i + 1] == r.bounds[i] + r.blocks[i].logicalLen == r.bounds[i] + img.BlockAt(s, k, i).logicalLen
        && img.DataAt(s, k, i) == img.Content(s)[r.bounds[i]..r.bounds[i + 1]]
    {
      hide Linked, PageReads, PageDecodes;
      PageFacts(s, k);
      var r := img.Recs(s)[k];
      r.BoundsSorted(0, i);
      r.BoundsSorted(i, i + 1);
      r.BoundsSorted(i + 1, |r.blocks|);
    }

    lemma CachedBlock(c: Sharded<BlockKey, Bytes>, s: Stream, k: nat, i: nat)
      requires BlocksOk(c) && img.Has(s, k, i)
      ensures var key := (s, img.IndexAt(s, k, i));
        && (c.Lookup(key) == None || c.Lookup(key) == Some(img.DataAt(s, k, i)))
        && BlocksOk(c.Touch(key))
    {
      hide Sharded.Lookup, Sharded.Touch, Sharded.Valid;
      c.TouchValid((s, img.IndexAt(s, k, i)));
    }

    /** A block index of a stream names one block, so a new entry cannot be mistaken for another block's. */
    lemma CacheBlock(c: Sharded<BlockKey, Bytes>, s: Stream, k: nat, i: nat)
      requires Linked() && BlocksOk(c) && img.Has(s, k, i)
      ensures BlocksOk(c.Put((s, img.IndexAt(s, k, i)), img.DataAt(s, k, i)))
    {
      hide Sharded.Lookup, Sharded.Put, Sharded.Valid, Linked;
      var key := (s, img.IndexAt(s, k, i));
      c.PutValid(key, img.DataAt(s, k, i));
      forall t, l, j {:trigger img.Has(t, l, j)} | img.Has(t, l, j) && (t, img.IndexAt(t, l, j)) == key
        ensures l == k && j == i
      {
        SameIndex(s, k, i, l, j);
      }
    }

    lemma SameIndex(s: Stream, k: nat, i: nat, l: nat, j: nat)
      requires Linked() && img.Has(s, k, i) && img.Has(s, l, j) && img.IndexAt(s, k, i) == img.IndexAt(s, l, j)
      ensures k == l && i == j
    {
      StreamFacts(s);
      IndexIsUnique(img.Recs(s), |img.Content(s)|, k, i, l, j);
    }

    /** Cached plaintext, synthesised zeros, or the stored bytes of a block. */
    method FetchRawBlock(stream: Stream, blockIdx: nat, info: BlockInfo, ghost k: nat, ghost i: nat)
      returns (r: Result<FetchResult>)
      requires Valid() && img.Has(stream, k, i)
      requires info == img.BlockAt(stream, k, i) && blockIdx == img.IndexAt(stream, k, i)
      requires info.offset != BLOCK_OFFSET_PARENT
      modifies this`cacheL1
      ensures Valid() && r.Ok?
      ensures cacheL1 == old(cacheL1).Touch((stream, blockIdx))
      ensures !info.ReadsAsZero() ==>
        (r.value.Decompressed? <==> old(cacheL1).Lookup((stream, blockIdx)).Some?)
      ensures r.value.Decompressed? ==> r.value.data == img.DataAt(stream, k, i)
      ensures r.value.Compressed? ==>
        && !info.ReadsAsZero() && info.offset + info.length <= |file|
        && r.value.raw == file[info.offset..info.offset + info.length]
    {
      hide BlocksOk, PagesOk, IndexOk, Linked, Sharded.Lookup, Sharded.Touch;
      BlockFacts(stream, k, i);
      CachedBlock(cacheL1, stream, k, i);
      var hit := cacheL1.Lookup((stream, blockIdx));
      cacheL1 := cacheL1.Touch((stream, blockIdx));
      if hit.Some? {
        return Ok(Decompressed(hit.value));
      }
      if info.offset == 0 && info.length == 0 {
        assert img.DataAt(stream, k, i) == Zeros(info.logicalLen);
        return Ok(Decompressed(Zeros(info.logicalLen)));
      }
      SameFile();
      var raw := ReadExact(info.offset, info.length);
      match raw {
        case Err(e) => return Err(e);
        case Ok(bytes) => return Ok(Compressed(bytes));
      }
    }

    lemma SameFile()
      requires Linked()
      ensures file == img.file && codec == img.codec && encrypted == img.encrypted
    {
    }

    /** Checks the checksum, then decrypts under the block's index and decompresses. */
    method DecompressAndVerify(raw: Bytes, blockIdx: nat, info: BlockInfo) returns (r: Result<Bytes>)
      ensures codec.crc(raw) != info.checksum ==> r == Err(FormatError)
      ensures codec.crc(raw) == info.checksum ==>
        (match codec.Unseal(encrypted, raw, blockIdx, info.logicalLen)
         case Some(d) => r == Ok(d)
         case None => r.Err?)
    {
      if codec.crc(raw) != info.checksum {
        return Err(FormatError);
      }
      var compressed := raw;
      if encrypted {
        match codec.decrypt(raw, blockIdx) {
          case None => return Err(EncryptionError);
          case Some(c) => compressed := c;
        }
      }
      match codec.decompress(compressed, info.logicalLen) {
        case None => return Err(FormatError);
        case Some(out) => return Ok(out);
      }
    }

    /** One stored or sparse block of this archive: always its plaintext, cached or not. */
    method ReadBlock(stream: Stream, blockIdx: nat, info: BlockInfo, ghost k: nat, ghost i: nat)
      returns (r: Result<Bytes>)
      requires Valid() && img.Has(stream, k, i)
      requires info == img.BlockAt(stream, k, i) && blockIdx == img.IndexAt(stream, k, i)
      requires info.offset != BLOCK_OFFSET_PARENT
      modifies this`cacheL1
      ensures Valid()
      ensures r == Ok(img.DataAt(stream, k, i))
    {
      hide BlocksOk, PagesOk, IndexOk, Linked, Sharded.Lookup;
      BlockFacts(stream, k, i);
      SameFile();
      var fetched := FetchRawBlock(stream, blockIdx, info, k, i);
      match fetched.value {
        case Decompressed(d) => return Ok(d);
        case Compressed(raw) => r := DecompressAndVerify(raw, blockIdx, info);
      }
    }

    // -------------------------------------------------------------------------------------------
    // Finding blocks by hash

    /** Block `j` of page `k` comes before block `i` of page `n`. */
    predicate Before(k: nat, j: nat, n: nat, i: nat) { k < n || (k == n && j < i) }

    /** What a scan of stream `s`, up to block `i` of page `n`, has added to table `base`. */
    ghost predicate Scanned(m: HashIndex, base: HashIndex, s: Stream, n: nat, i: nat) {
      && (forall h {:trigger h in m} :: h in m ==> (h in base && m[h] == base[h]) || (Located(m[h], h) && m[h].0 == s))
      && (forall h {:trigger h in base} :: h in base ==> h in m)
      && (forall k: nat, j: nat {:trigger img.Has(s, k, j)} ::
        Before(k, j, n, i) && img.Has(s, k, j) && img.BlockAt(s, k, j).IsLocal() ==> img.BlockAt(s, k, j).hash in m)
    }

    lemma ScanBlock(m: HashIndex, base: HashIndex, s: Stream, n: nat, i: nat)
      requires Scanned(m, base, s, n, i) && img.Has(s, n, i)
      ensures var b := img.BlockAt(s, n, i);
        Scanned(if b.IsLocal() then m[b.hash := (s, img.IndexAt(s, n, i), b)] else m, base, s, n, i + 1)
    {
      var b := img.BlockAt(s, n, i);
      if b.IsLocal() {
        assert img.Stores(s, n, i, b.hash);
        assert Located((s, img.IndexAt(s, n, i), b), b.hash);
      }
    }

    lemma ScanPage(m: HashIndex, base: HashIndex, s: Stream, n: nat, i: nat)
      requires Scanned(m, base, s, n, i) && n < |img.Recs(s)| && i == |img.Recs(s)[n].blocks|
      ensures Scanned(m, base, s, n + 1, 0)
    {
      forall k: nat, j: nat {:trigger img.Has(s, k, j)} |
        Before(k, j, n + 1, 0) && img.Has(s, k, j) && img.BlockAt(s, k, j).IsLocal()
        ensures img.BlockAt(s, k, j).hash in m
      {
        assert Before(k, j, n, i);
      }
    }

    lemma ScanDone(m: HashIndex, mid: HashIndex)
      requires Scanned(mid, map[], Main, |img.Recs(Main)|, 0)
      requires Scanned(m, mid, Auxiliary, |img.Recs(Auxiliary)|, 0)
      ensures HashIndexOk(m)
    {
      forall h {:trigger h in m} {:trigger img.Holds(h)}
        ensures h in m <==> img.Holds(h)
        ensures h in m ==> Located(m[h], h)
      {
        if img.Holds(h) {
          var s, k, i :| img.Stores(s, k, i, h);
          assert img.Has(s, k, i);
          assert Before(k, i, |img.Recs(s)|, 0);
        }
      }
    }

    method IndexBlocks(
      s: Stream, n: nat, startBlock: nat, blocks: seq<BlockInfo>, table: HashIndex, ghost base: HashIndex)
      returns (m: HashIndex)
      requires n < |img.Recs(s)| && blocks == img.Recs(s)[n].blocks && startBlock == img.Recs(s)[n].startBlock
      requires Scanned(table, base, s, n, 0)
      ensures Scanned(m, base, s, n + 1, 0)
    {
      hide Scanned;
      m := table;
      var i := 0;
      while i < |blocks|
        invariant i <= |blocks|
        invariant Scanned(m, base, s, n, i)
      {
        var block := blocks[i];
        assert img.Has(s, n, i);
        ScanBlock(m, base, s, n, i);
        if !block.IsSparse() && block.offset != BLOCK_OFFSET_PARENT {
          var globalIdx := startBlock + i;
          m := m[block.hash := (s, globalIdx, block)];
        }
        i := i + 1;
      }
      ScanPage(m, base, s, n, i);
    }

    lemma ScanStart(base: HashIndex, s: Stream)
      ensures Scanned(base, base, s, 0, 0)
    {
    }

    /** Adds the stored blocks of one stream to `base`; a later block replaces an earlier one with its hash. */
    method IndexStream(s: Stream, base: HashIndex) returns (r: Result<HashIndex>)
      requires Valid()
      modifies this`pageCache
      ensures Valid() && r.Ok?
      ensures Scanned(r.value, base, s, |img.Recs(s)|, 0)
    {
      hide BlocksOk, PagesOk, IndexOk, Linked, Scanned;
      EntryCount(s);
      ScanStart(base, s);
      var pages := master.Pages(s);
      var m := base;
      var n := 0;
      while n < |pages|
        invariant n <= |pages| == |img.Recs(s)|
        invariant Valid()
        invariant Scanned(m, base, s, n, 0)
      {
        EntryFacts(s, n);
        var page := GetPage(pages[n], s, n);
        match page {
          case Err(e) => return Err(e);
          case Ok(blocks) => m := IndexBlocks(s, n, pages[n].startBlock, blocks, m, base);
        }
        n := n + 1;
      }
      return Ok(m);
    }

    lemma EntryCount(s: Stream)
      requires Linked()
      ensures |master.Pages(s)| == |img.Recs(s)|
    {
    }

    lemma EntryFacts(s: Stream, k: nat)
      requires Linked() && k < |img.Recs(s)|
      ensures k < |master.Pages(s)| && master.Pages(s)[k].startBlock == img.Recs(s)[k].startBlock
      ensures img.Recs(s)[k].Shape() && img.Recs(s)[k].bounds != []
      ensures master.Pages(s)[k].startLogical == img.Recs(s)[k].Start()
    {
      PageFacts(s, k);
    }

    /** The hash index, built once: exactly the hashes stored in this file, each with a block that stores it. */
    method GetHashIndex() returns (r: Result<HashIndex>)
      requires Valid()
      modifies this`pageCache, this`hashIndex
      ensures Valid() && r.Ok? && HashIndexOk(r.value) && hashIndex == Some(r.value)
      ensures old(hashIndex).Some? ==> hashIndex == old(hashIndex) && pageCache == old(pageCache)
    {
      hide BlocksOk, PagesOk, Linked, HashIndexOk, Scanned;
      if hashIndex.Some? {
        return Ok(hashIndex.value);
      }
      var main := IndexStream(Main, map[]);
      match main {
        case Err(e) => return Err(e);
        case Ok(mid) =>
          var both := IndexStream(Auxiliary, mid);
          match both {
            case Err(e) => return Err(e);
            case Ok(m) =>
              ScanDone(m, mid);
              hashIndex := Some(m);
              return Ok(m);
          }
      }
    }

    method GetBlockByHash(hash: Hash) returns (r: Result<Option<(Stream, nat, BlockInfo)>>)
      requires Valid()
      modifies this`pageCache, this`hashIndex
      ensures Valid() && r.Ok?
      ensures r.value.Some? <==> img.Holds(hash)
      ensures r.value.Some? ==> Located(r.value.value, hash)
    {
      hide BlocksOk, PagesOk, Linked, IndexOk;
      var index := GetHashIndex();
      match index {
        case Err(e) => return Err(e);
        case Ok(m) => return Ok(if hash in m then Some(m[hash]) else None);
      }
    }

    /** Some block of stream `s`, before block `i` of page `n`, offers hash `h` to later archives. */
    ghost predicate OfferedBefore(h: Hash, s: Stream, n: nat, i: nat) {
      exists k: nat, j: nat {:trigger img.Has(s, k, j)} ::
        Before(k, j, n, i) && img.Has(s, k, j) && img.BlockAt(s, k, j).IsOffered() && img.BlockAt(s, k, j).hash == h
    }

    lemma OfferBlock(hashes: seq<Hash>, next: seq<Hash>, s: Stream, n: nat, i: nat)
      requires forall h :: h in hashes <==> OfferedBefore(h, s, n, i)
      requires img.Has(s, n, i)
      requires next == if img.BlockAt(s, n, i).IsOffered() then hashes + [img.BlockAt(s, n, i).hash] else hashes
      ensures forall h :: h in next <==> OfferedBefore(h, s, n, i + 1)
    {
      var b := img.BlockAt(s, n, i);
      forall h
        ensures OfferedBefore(h, s, n, i + 1) <==> OfferedBefore(h, s, n, i) || (b.IsOffered() && b.hash == h)
      {
        if OfferedBefore(h, s, n, i) {
          var k: nat, j: nat :| Before(k, j, n, i) && img.Has(s, k, j) && img.BlockAt(s, k, j).IsOffered() &&
            img.BlockAt(s, k, j).hash == h;
          assert Before(k, j, n, i + 1);
        }
        if b.IsOffered() && b.hash == h { assert Before(n, i, n, i + 1); }
      }
    }

    lemma OfferPage(h: Hash, s: Stream, n: nat, i: nat)
      requires n < |img.Recs(s)| && i == |img.Recs(s)[n].blocks|
      ensures OfferedBefore(h, s, n, i) <==> OfferedBefore(h, s, n + 1, 0)
    {
      if OfferedBefore(h, s, n, i) {
        var k: nat, j: nat :| Before(k, j, n, i) && img.Has(s, k, j) && img.BlockAt(s, k, j).IsOffered() &&
          img.BlockAt(s, k, j).hash == h;
        assert Before(k, j, n + 1, 0);
      }
      if OfferedBefore(h, s, n + 1, 0) {
        var k: nat, j: nat :| Before(k, j, n + 1, 0) && img.Has(s, k, j) && img.BlockAt(s, k, j).IsOffered() &&
          img.BlockAt(s, k, j).hash == h;
        assert Before(k, j, n, i);
      }
    }

    method OfferBlocks(s: Stream, n: nat, blocks: seq<BlockInfo>, before: seq<Hash>) returns (hashes: seq<Hash>)
      requires n < |img.Recs(s)| && blocks == img.Recs(s)[n].blocks
      requires forall h :: h in before <==> OfferedBefore(h, s, n, 0)
      ensures forall h :: h in hashes <==> OfferedBefore(h, s, n + 1, 0)
    {
      hide OfferedBefore;
      hashes := before;
      var i := 0;
      while i < |blocks|
        invariant i <= |blocks|
        invariant forall h :: h in hashes <==> OfferedBefore(h, s, n, i)
      {
        var info := blocks[i];
        assert img.Has(s, n, i);
        ghost var listed := hashes;
        if !info.IsSparse() && info.hash != ZERO_HASH {
          hashes := hashes + [info.hash];
        }
        OfferBlock(listed, hashes, s, n, i);
        i := i + 1;
      }
      forall h ensures OfferedBefore(h, s, n, i) <==> OfferedBefore(h, s, n + 1, 0) { OfferPage(h, s, n, i); }
    }

    /** Some block has this hash, which is not null, and is stored, or refers to a parent. */
    ghost predicate IsListed(s: Stream, h: Hash) {
      && h != Zeros(32)
      && exists k: nat, i: nat {:trigger img.Has(s, k, i)} ::
        && img.Has(s, k, i) && img.BlockAt(s, k, i).hash == h
        && (img.BlockAt(s, k, i).length > 0 || img.BlockAt(s, k, i).offset == U64_MAX)
    }

    lemma AllOffered(h: Hash, s: Stream)
      ensures OfferedBefore(h, s, |img.Recs(s)|, 0) <==> IsListed(s, h)
    {
      if IsListed(s, h) {
        var k: nat, i: nat :| img.Has(s, k, i) && img.BlockAt(s, k, i).hash == h &&
          (img.BlockAt(s, k, i).length > 0 || img.BlockAt(s, k, i).offset == U64_MAX);
        assert Before(k, i, |img.Recs(s)|, 0);
      }
    }

    /** Hashes that a later archive may refer to: those of all blocks but sparse ones and the null hash. */
    method IterBlockHashes(stream: Stream) returns (r: Result<seq<Hash>>)
      requires Valid()
      modifies this`pageCache
      ensures Valid() && r.Ok?
      ensures forall h :: h in r.value <==> OfferedBefore(h, stream, |img.Recs(stream)|, 0)
      ensures forall h :: h in r.value <==> IsListed(stream, h)
    {
      forall h ensures OfferedBefore(h, stream, |img.Recs(stream)|, 0) <==> IsListed(stream, h) {
        AllOffered(h, stream);
      }
      hide BlocksOk, PagesOk, IndexOk, Linked, IsListed;
      EntryCount(stream);
      var pages := master.Pages(stream);
      var hashes := [];
      var n := 0;
      assert forall h :: !OfferedBefore(h, stream, 0, 0);
      hide OfferedBefore;
      while n < |pages|
        invariant n <= |pages| == |img.Recs(stream)|
        invariant Valid()
        invariant forall h :: h in hashes <==> OfferedBefore(h, stream, n, 0)
      {
        EntryFacts(stream, n);
        var page := GetPage(pages[n], stream, n);
        match page {
          case Err(e) => return Err(e);
          case Ok(blocks) => hashes := OfferBlocks(stream, n, blocks, hashes);
        }
        n := n + 1;
      }
      return Ok(hashes);
    }

    // -------------------------------------------------------------------------------------------
    // The page walk

    /** The bytes that belong at request positions [f, f + |src|), put into buffer `b` at `at`. */
    static function Patch(b: Bytes, from: nat, src: Bytes): Bytes
      requires from + |src| <= |b|
    {
      b[..from] + src + b[from + |src|..]
    }

    /** A work item is a piece of a stored block, and its bytes are those the stream has at its target. */
    ghost predicate ItemOk(s: Stream, off: nat, it: WorkItem, loc: (nat, nat)) {
      && img.Has(s, loc.0, loc.1)
      && it.info == img.BlockAt(s, loc.0, loc.1) && it.blockIdx == img.IndexAt(s, loc.0, loc.1)
      && !it.info.ReadsAsZero() && it.info.offset != BLOCK_OFFSET_PARENT
      && it.offsetInBlock + it.toCopy <= |img.DataAt(s, loc.0, loc.1)|
      && off + it.bufOffset + it.toCopy <= |img.Content(s)|
      && img.DataAt(s, loc.0, loc.1)[it.offsetInBlock..it.offsetInBlock + it.toCopy]
         == img.Content(s)[off + it.bufOffset..off + it.bufOffset + it.toCopy]
    }

    /**
     Tiling. Of the first `filled` bytes of the request, those of queued items are still as in `b0`, and all
     others already have their final value; items do not overlap; nothing else in the buffer has changed.
     */
    ghost predicate Collected(
      b0: Bytes, b: Bytes, at: nat, s: Stream, off: nat, items: seq<WorkItem>, locs: seq<(nat, nat)>, filled: nat)
    {
      && |b| == |b0| && at + filled <= |b|
      && |items| == |locs|
      && (forall a {:trigger items[a]} :: 0 <= a < |items| ==> ItemOk(s, off, items[a], locs[a]))
      && Apart(items, filled)
      && (filled > 0 ==> off + filled <= |img.Content(s)|)
      && (forall j {:trigger Covered(items, j)} :: 0 <= j < filled ==>
        b[at + j] == if Covered(items, j) then b0[at + j] else img.Content(s)[off + j])
      && (forall j {:trigger b[j]} :: 0 <= j < |b| && !(at <= j < at + filled) ==> b[j] == b0[j])
    }

    /** A block whose bytes are in this file. */
    ghost predicate IsHere(s: Stream, k: nat, i: nat) {
      img.Has(s, k, i) && !img.BlockAt(s, k, i).ReadsAsZero() && img.BlockAt(s, k, i).offset != BLOCK_OFFSET_PARENT
    }

    /** Byte `pos` of the stream belongs to such a block. */
    ghost predicate IsStoredByte(s: Stream, pos: nat) {
      exists k: nat, i: nat {:trigger Contains(img.Recs(s), k, i, pos)} ::
        Contains(img.Recs(s), k, i, pos) && IsHere(s, k, i)
    }

    /** Of the first `filled` bytes of the request exactly those stored in this file are left to work items. */
    ghost predicate QueuesStored(s: Stream, off: nat, items: seq<WorkItem>, filled: nat) {
      forall j {:trigger Covered(items, j)} :: 0 <= j < filled ==> (Covered(items, j) <==> IsStoredByte(s, off + j))
    }

    /** A part of block `i` of page `k` has been queued. */
    lemma QueuedStored(s: Stream, off: nat, items: seq<WorkItem>, filled: nat, it: WorkItem, k: nat, i: nat)
      requires QueuesStored(s, off, items, filled) && it.bufOffset == filled
      requires forall a :: 0 <= a < |items| ==> items[a].bufOffset + items[a].toCopy <= filled
      requires it.toCopy > 0 ==>
        Contains(img.Recs(s), k, i, off + filled) && Contains(img.Recs(s), k, i, off + filled + it.toCopy - 1)
      requires IsHere(s, k, i)
      ensures QueuesStored(s, off, items + [it], filled + it.toCopy)
    {
      var more := items + [it];
      forall j {:trigger Covered(more, j)} | 0 <= j < filled + it.toCopy
        ensures Covered(more, j) <==> IsStoredByte(s, off + j)
      {
        if j < filled {
          if Covered(items, j) {
            var a :| 0 <= a < |items| && items[a].Spans(j);
            assert more[a].Spans(j);
          }
        } else {
          assert more[|items|].Spans(j) && Contains(img.Recs(s), k, i, off + j);
        }
      }
    }

    /** A part of a block that is not in this file has been delivered. */
    lemma DeliveredUnstored(s: Stream, off: nat, items: seq<WorkItem>, filled: nat, m: nat, k: nat, i: nat)
      requires QueuesStored(s, off, items, filled) && Linked() && !IsHere(s, k, i)
      requires forall a :: 0 <= a < |items| ==> items[a].bufOffset + items[a].toCopy <= filled
      requires m > 0 ==>
        Contains(img.Recs(s), k, i, off + filled) && Contains(img.Recs(s), k, i, off + filled + m - 1)
      ensures QueuesStored(s, off, items, filled + m)
    {
      hide Linked, IsHere, IsStoredByte;
      forall j {:trigger Covered(items, j)} | filled <= j < filled + m
        ensures !Covered(items, j) && !IsStoredByte(s, off + j)
      {
        OtherByte(s, off + j, k, i);
      }
    }

    /** A byte of a block that is not here is in no other block. */
    lemma OtherByte(s: Stream, pos: nat, k: nat, i: nat)
      requires Linked() && Contains(img.Recs(s), k, i, pos) && !IsHere(s, k, i)
      ensures !IsStoredByte(s, pos)
    {
      hide Linked, IsHere, Contains;
      StreamFacts(s);
      hide PageReads, PageDecodes, Chain;
      if l: nat, h: nat :| Contains(img.Recs(s), l, h, pos) && IsHere(s, l, h) {
        ContainingBlockUnique(img.Recs(s), |img.Content(s)|, pos, k, i, l, h);
      }
    }

    /** A read of [off, off + n) comes upon a block stored in this file. */
    ghost predicate NeedsStored(s: Stream, off: nat, n: nat) {
      exists pos {:trigger IsStoredByte(s, pos)} :: off <= pos < off + n && IsStoredByte(s, pos)
    }

    lemma SomethingQueued(s: Stream, off: nat, n: nat, items: seq<WorkItem>, filled: nat)
      requires Linked() && QueuesStored(s, off, items, filled) && filled == |Cut(img.Content(s), off, n)|
      requires NeedsStored(s, off, n)
      ensures items != []
    {
      hide Linked;
      var pos :| off <= pos < off + n && IsStoredByte(s, pos);
      var k: nat, i: nat :| Contains(img.Recs(s), k, i, pos) && IsHere(s, k, i);
      BlockPlace(s, k, i);
      assert Covered(items, pos - off);
    }

    lemma CollectStart(b: Bytes, at: nat, s: Stream, off: nat)
      requires at <= |b|
      ensures Collected(b, b, at, s, off, [], [], 0) && QueuesStored(s, off, [], 0)
    {
    }

    lemma CollectQueued(
      b0: Bytes, b: Bytes, at: nat, s: Stream, off: nat, items: seq<WorkItem>, locs: seq<(nat, nat)>, filled: nat,
      it: WorkItem, loc: (nat, nat))
      requires Collected(b0, b, at, s, off, items, locs, filled) && ItemOk(s, off, it, loc) && it.bufOffset == filled
      requires at + filled + it.toCopy <= |b|
      ensures Collected(b0, b, at, s, off, items + [it], locs + [loc], filled + it.toCopy)
    {
      var items' := items + [it];
      forall j {:trigger Covered(items', j)} | 0 <= j < filled + it.toCopy
        ensures b[at + j] == if Covered(items', j) then b0[at + j] else img.Content(s)[off + j]
      {
        if j < filled {
          assert Covered(items', j) <==> Covered(items, j) by {
            if Covered(items, j) {
              var a :| 0 <= a < |items| && items[a].Spans(j);
              assert items'[a].Spans(j);
            }
          }
        } else {
          assert items'[|items|].Spans(j);
        }
      }
    }

    lemma CollectFilled(
      b0: Bytes, b: Bytes, at: nat, s: Stream, off: nat, items: seq<WorkItem>, locs: seq<(nat, nat)>, filled: nat,
      src: Bytes)
      requires Collected(b0, b, at, s, off, items, locs, filled) && at + filled + |src| <= |b|
      requires off + filled + |src| <= |img.Content(s)| && src == img.Content(s)[off + filled..off + filled + |src|]
      ensures Collected(b0, Patch(b, at + filled, src), at, s, off, items, locs, filled + |src|)
    {
      hide Patch, ItemOk;
      var b' := Patch(b, at + filled, src);
      PatchAt(b, at + filled, src);
      forall j {:trigger Covered(items, j)} | 0 <= j < filled + |src|
        ensures b'[at + j] == if Covered(items, j) then b0[at + j] else img.Content(s)[off + j]
      {
        if j < filled {
          assert b'[at + j] == b[at + j];
        } else {
          assert b'[at + j] == src[j - filled];
        }
      }
    }

    static lemma PatchAt(b: Bytes, from: nat, src: Bytes)
      requires from + |src| <= |b|
      ensures |Patch(b, from, src)| == |b|
      ensures forall j {:trigger Patch(b, from, src)[j]} :: 0 <= j < |b| ==>
        Patch(b, from, src)[j] == if from <= j < from + |src| then src[j - from] else b[j]
    {
    }

    /** Sparse and delegated blocks are written at once; a stored block is left for later. */
    method Deliver(
      info: BlockInfo, ghost s: Stream, ghost k: nat, ghost i: nat,
      buf: array<bv8>, at: nat, offsetInBlock: nat, toCopy: nat, ghost piece: Bytes)
      returns (r: Result<bool>)
      requires at + toCopy <= buf.Length && |piece| == toCopy
      requires Valid() && img.Has(s, k, i) && info == img.BlockAt(s, k, i)
      requires offsetInBlock + toCopy <= |img.DataAt(s, k, i)|
      requires piece == img.DataAt(s, k, i)[offsetInBlock..offsetInBlock + toCopy]
      modifies repr, buf
      ensures r.Ok?
      ensures r.value <==> (!info.ReadsAsZero() && info.offset != BLOCK_OFFSET_PARENT)
      ensures r.value <==> IsHere(s, k, i)
      ensures buf[..] == if r.value then old(buf[..]) else Patch(old(buf[..]), at, piece)
      ensures Valid()
    {
      hide BlocksOk, PagesOk, IndexOk, Linked;
      BlockFacts(s, k, i);
      hide ResolvesTo;
      if info.offset == 0 && info.length == 0 {
        ZeroFill(buf, at, toCopy);
        assert piece == Zeros(toCopy);
        return Ok(false);
      } else if info.offset == BLOCK_OFFSET_PARENT {
        r := DeliverFromParents(info.hash, img.DataAt(s, k, i), buf, at, offsetInBlock, toCopy);
      } else {
        return Ok(true);
      }
    }

    method DeliverFromParents(hash: Hash, ghost d: Bytes, buf: array<bv8>, at: nat, offsetInBlock: nat, toCopy: nat)
      returns (r: Result<bool>)
      requires Valid() && ResolvesTo(img.parents, hash, d)
      requires at + toCopy <= buf.Length && offsetInBlock + toCopy <= |d|
      modifies repr, buf
      ensures Valid() && r == Ok(false)
      ensures buf[..] == Patch(old(buf[..]), at, d[offsetInBlock..offsetInBlock + toCopy])
    {
      hide BlocksOk, PagesOk, IndexOk, Readable, StreamReads, ResolvesTo, FirstHolder, Image.Holds, Patch;
      var p := 0;
      while p < |parents|
        invariant p <= |parents| == |img.parents|
        invariant Valid()
        invariant forall q :: 0 <= q < p ==> !img.parents[q].Holds(hash)
        invariant buf[..] == old(buf[..])
      {
        var parent := parents[p];
        var found := parent.GetBlockByHash(hash);
        match found {
          case Err(e) => return Err(e);
          case Ok(None) =>
          case Ok(Some(e)) =>
            ghost var k, i :| parent.img.Stores(e.0, k, i, hash) && e.1 == parent.img.IndexAt(e.0, k, i) &&
              e.2 == parent.img.BlockAt(e.0, k, i);
            FoundFirst(img.parents, hash, d, p, e.0, k, i);
            var data := parent.ReadBlock(e.0, e.1, e.2, k, i);
            match data {
              case Err(e) => return Err(e);
              case Ok(bytes) =>
                CopyInto(buf, at, bytes[offsetInBlock..offsetInBlock + toCopy]);
                FillIsPatch(old(buf[..]), at, bytes[offsetInBlock..offsetInBlock + toCopy]);
                return Ok(false);
            }
        }
        p := p + 1;
      }
      FoundNowhere(img.parents, hash, d);
      ZeroFill(buf, at, toCopy);
      FillIsPatch(old(buf[..]), at, Zeros(toCopy));
      assert d[offsetInBlock..offsetInBlock + toCopy] == Zeros(toCopy);
      return Ok(false);
    }

    static lemma FoundFirst(parents: seq<Image>, hash: Hash, d: Bytes, p: nat, s: Stream, k: nat, i: nat)
      requires ResolvesTo(parents, hash, d) && p < |parents| && parents[p].Stores(s, k, i, hash)
      requires forall q :: 0 <= q < p ==> !parents[q].Holds(hash)
      ensures parents[p].Has(s, k, i) && parents[p].DataAt(s, k, i) == d
      ensures parents[p].BlockAt(s, k, i).offset != BLOCK_OFFSET_PARENT
    {
      assert FirstHolder(parents, hash, p);
    }

    static lemma FoundNowhere(parents: seq<Image>, hash: Hash, d: Bytes)
      requires ResolvesTo(parents, hash, d) && forall q :: 0 <= q < |parents| ==> !parents[q].Holds(hash)
      ensures WriterModel.IsZeroChunk(d)
    {
    }

    /** One block of the walk: delivered at once, queued, or (if it ends before the request) passed over. */
    method WalkBlock(
      ghost s: Stream, ghost k: nat, i: nat, startBlock: nat, block: BlockInfo, blockLogicalStart: nat,
      buf: array<bv8>, at: nat, off: nat, n: nat,
      queued: seq<WorkItem>, ghost queuedLocs: seq<(nat, nat)>, from: nat, ghost b0: Bytes)
      returns (r: Result<nat>, items: seq<WorkItem>, ghost locs: seq<(nat, nat)>)
      requires Valid() && img.Has(s, k, i) && block == img.BlockAt(s, k, i) && startBlock == img.Recs(s)[k].startBlock
      requires img.Recs(s)[k].Shape() && blockLogicalStart == img.Recs(s)[k].bounds[i]
      requires at + n <= buf.Length && from < n
      requires Collected(b0, buf[..], at, s, off, queued, queuedLocs, from) && WalkedTo(off, n, blockLogicalStart, from)
      requires QueuesStored(s, off, queued, from)
      modifies repr, buf
      ensures Valid() && r.Ok?
      ensures Collected(b0, buf[..], at, s, off, items, locs, r.value) && QueuesStored(s, off, items, r.value)
      ensures WalkedTo(off, n, blockLogicalStart + block.logicalLen, r.value)
    {
      hide *;
      items, locs := queued, queuedLocs;
      ValidIsLinked();
      BlockPlace(s, k, i);
      WalkArithmetic(off, n, from, blockLogicalStart, block.logicalLen);
      var blockEnd := blockLogicalStart + block.logicalLen;
      var currentPos := off + from;
      if blockEnd <= currentPos {
        return Ok(from), items, locs;
      }
      var offsetInBlock := currentPos - blockLogicalStart;
      var toCopy := Min(n - from, block.logicalLen - offsetInBlock);
      PieceOfBlock(s, k, i, currentPos, toCopy);
      PartOfBlock(s, k, i, currentPos, toCopy);
      EndsSoFar(b0, buf[..], at, s, off, queued, queuedLocs, from);
      ghost var b1 := buf[..];
      ghost var piece := img.DataAt(s, k, i)[offsetInBlock..offsetInBlock + toCopy];
      var later := Deliver(block, s, k, i, buf, at + from, offsetInBlock, toCopy, piece);
      match later {
        case Err(e) => return Err(e), items, locs;
        case Ok(true) =>
          var item := WorkItem(startBlock + i, block, from, offsetInBlock, toCopy);
          assert buf[..] == b1;
          PieceItem(s, k, i, off, item);
          assert item.bufOffset == from && item.toCopy == toCopy;
          CollectQueued(b0, b1, at, s, off, items, locs, from, item, (k, i));
          QueuedStored(s, off, items, from, item, k, i);
          return Ok(from + toCopy), items + [item], locs + [(k, i)];
        case Ok(false) =>
          CollectFilled(b0, b1, at, s, off, items, locs, from, piece);
          DeliveredUnstored(s, off, items, from, toCopy, k, i);
          return Ok(from + toCopy), items, locs;
      }
    }

    lemma PartOfBlock(s: Stream, k: nat, i: nat, pos: nat, m: nat)
      requires img.Has(s, k, i) && img.Recs(s)[k].Shape()
      requires img.Recs(s)[k].bounds[i] <= pos && pos + m <= img.Recs(s)[k].bounds[i + 1]
      ensures m > 0 ==> Contains(img.Recs(s), k, i, pos) && Contains(img.Recs(s), k, i, pos + m - 1)
    {
    }

    lemma EndsSoFar(
      b0: Bytes, b: Bytes, at: nat, s: Stream, off: nat, items: seq<WorkItem>, locs: seq<(nat, nat)>, filled: nat)
      requires Collected(b0, b, at, s, off, items, locs, filled)
      ensures forall a :: 0 <= a < |items| ==> items[a].bufOffset + items[a].toCopy <= filled
    {
      hide ItemOk;
    }

    lemma PieceItem(s: Stream, k: nat, i: nat, off: nat, it: WorkItem)
      requires img.Has(s, k, i) && it.info == img.BlockAt(s, k, i) && it.blockIdx == img.Recs(s)[k].startBlock + i
      requires !it.info.ReadsAsZero() && it.info.offset != BLOCK_OFFSET_PARENT
      requires it.offsetInBlock + it.toCopy <= |img.DataAt(s, k, i)| &&
        off + it.bufOffset + it.toCopy <= |img.Content(s)|
      requires img.DataAt(s, k, i)[it.offsetInBlock..it.offsetInBlock + it.toCopy]
        == img.Content(s)[off + it.bufOffset..off + it.bufOffset + it.toCopy]
      ensures ItemOk(s, off, it, (k, i))
    {
    }

    /** The arithmetic of one step of the walk, over a block of `len` bytes at `start`. */
    static lemma WalkArithmetic(off: nat, n: nat, from: nat, start: nat, len: nat)
      requires WalkedTo(off, n, start, from) && from < n
      ensures start <= off + from
      ensures start + len <= off + from ==> WalkedTo(off, n, start + len, from)
      ensures off + from < start + len ==>
        var o := off + from - start;
        var m := Min(n - from, len - o);
        m <= n - from && o + m <= len && WalkedTo(off, n, start + len, from + m)
    {
    }

    /** What processing the blocks of one page adds to the walk. */
    method WalkPage(
      ghost s: Stream, ghost k: nat, entry: PageEntry, blocks: seq<BlockInfo>,
      buf: array<bv8>, at: nat, off: nat, n: nat,
      queued: seq<WorkItem>, ghost queuedLocs: seq<(nat, nat)>, from: nat, ghost b0: Bytes)
      returns (r: Result<nat>, items: seq<WorkItem>, ghost locs: seq<(nat, nat)>)
      requires Valid() && k < |img.Recs(s)| && k < |master.Pages(s)|
      requires entry == master.Pages(s)[k] && blocks == img.Recs(s)[k].blocks
      requires at + n <= buf.Length
      requires Collected(b0, buf[..], at, s, off, queued, queuedLocs, from) && QueuesStored(s, off, queued, from)
      requires img.Recs(s)[k].bounds != [] && WalkedTo(off, n, img.Recs(s)[k].Start(), from)
      modifies repr, buf
      ensures Valid() && r.Ok?
      ensures Collected(b0, buf[..], at, s, off, items, locs, r.value) && QueuesStored(s, off, items, r.value)
      ensures WalkedTo(off, n, img.Recs(s)[k].End(), r.value)
    {
      hide BlocksOk, PagesOk, IndexOk, Linked, Collected, QueuesStored;
      EntryFacts(s, k);
      items, locs := queued, queuedLocs;
      var filled := from;
      var blockLogicalStart := entry.startLogical;
      var i := 0;
      while i < |blocks|
        invariant i <= |blocks|
        invariant Valid()
        invariant blockLogicalStart == img.Recs(s)[k].bounds[i]
        invariant WalkedTo(off, n, blockLogicalStart, filled)
        invariant Collected(b0, buf[..], at, s, off, items, locs, filled) && QueuesStored(s, off, items, filled)
      {
        if filled == n {
          SkipRest(s, k, i);
          return Ok(filled), items, locs;
        }
        var walked;
        walked, items, locs := WalkBlock(
          s, k, i, entry.startBlock, blocks[i], blockLogicalStart, buf, at, off, n, items, locs, filled, b0);
        match walked {
          case Err(e) => return Err(e), items, locs;
          case Ok(m) => filled := m;
        }
        blockLogicalStart := blockLogicalStart + blocks[i].logicalLen;
        i := i + 1;
      }
      return Ok(filled), items, locs;
    }

    lemma SkipRest(s: Stream, k: nat, i: nat)
      requires Linked() && img.Has(s, k, i) && img.Recs(s)[k].bounds != []
      ensures |img.Recs(s)[k].bounds| > i && img.Recs(s)[k].bounds[i] <= img.Recs(s)[k].End()
    {
      hide Linked;
      EntryFacts(s, k);
      img.Recs(s)[k].BoundsSorted(i, |img.Recs(s)[k].blocks|);
    }

    /** The part of a block from stream position `pos` on, `m` bytes long, is the stream there. */
    lemma PieceOfBlock(s: Stream, k: nat, i: nat, pos: nat, m: nat)
      requires Linked() && img.Has(s, k, i) && img.Recs(s)[k].Shape()
      requires img.Recs(s)[k].bounds[i] <= pos && pos + m <= img.Recs(s)[k].bounds[i + 1]
      ensures pos + m <= |img.Content(s)| && pos - img.Recs(s)[k].bounds[i] + m <= |img.DataAt(s, k, i)|
      ensures var o := pos - img.Recs(s)[k].bounds[i];
        img.DataAt(s, k, i)[o..o + m] == img.Content(s)[pos..pos + m]
    {
      hide Linked;
      BlockPlace(s, k, i);
      SubPiece(img.Content(s), img.Recs(s)[k].bounds[i], img.Recs(s)[k].bounds[i + 1], pos, m);
    }

    static lemma SubPiece(c: Bytes, a: nat, b: nat, pos: nat, m: nat)
      requires a <= pos && pos + m <= b <= |c|
      ensures c[a..b][pos - a..pos - a + m] == c[pos..pos + m]
    {
      var l, r := c[a..b][pos - a..pos - a + m], c[pos..pos + m];
      assert |l| == |r| && forall i :: 0 <= i < m ==> l[i] == r[i];
    }

    /** Where the walk stands on reaching page `k`, the position after the last page included. */
    ghost function PagePos(s: Stream, k: nat): nat
    {
      if k < |img.Recs(s)| && img.Recs(s)[k].bounds != [] then img.Recs(s)[k].Start() else |img.Content(s)|
    }

    lemma NextPage(s: Stream, k: nat)
      requires Linked() && k < |img.Recs(s)|
      ensures img.Recs(s)[k].bounds != [] && PagePos(s, k) == img.Recs(s)[k].Start()
      ensures PagePos(s, k + 1) == img.Recs(s)[k].End()
    {
      StreamFacts(s);
      hide Linked, PageReads, PageDecodes;
      assert img.Recs(s)[k].Shape();
      if k + 1 < |img.Recs(s)| { assert img.Recs(s)[k + 1 - 1].End() == img.Recs(s)[k + 1].Start(); }
    }

    lemma WalkedAll(
      b0: Bytes, b: Bytes, at: nat, s: Stream, off: nat, n: nat, items: seq<WorkItem>, locs: seq<(nat, nat)>,
      filled: nat)
      requires Collected(b0, b, at, s, off, items, locs, filled)
      requires filled <= n && (filled == n || WalkedTo(off, n, |img.Content(s)|, filled))
      ensures filled == |Cut(img.Content(s), off, n)|
    {
    }

    /**
     Walks the index from the landing page on. The bytes delivered and the queued items tile exactly the part
     of the request that the stream's content covers.
     */
    method CollectWorkItems(
      ghost s: Stream, pages: seq<PageEntry>, pageIdx: nat, buf: array<bv8>, at: nat, off: nat, n: nat)
      returns (r: Result<nat>, items: seq<WorkItem>, ghost locs: seq<(nat, nat)>)
      requires Valid() && pages == master.Pages(s) && pageIdx < |img.Recs(s)| && PagePos(s, pageIdx) <= off
      requires at + n <= buf.Length
      modifies repr, buf
      ensures Valid() && r.Ok?
      ensures Collected(old(buf[..]), buf[..], at, s, off, items, locs, r.value) && QueuesStored(s, off, items, r.value)
      ensures r.value == |Cut(img.Content(s), off, n)|
    {
      hide BlocksOk, PagesOk, IndexOk, Linked, Collected, PagePos, QueuesStored, Readable;
      ghost var b0 := buf[..];
      CollectStart(b0, at, s, off);
      EntryCount(s);
      items, locs := [], [];
      var filled := 0;
      var k := pageIdx;
      while k < |pages|
        invariant k <= |pages| == |img.Recs(s)|
        invariant Valid()
        invariant WalkedTo(off, n, PagePos(s, k), filled)
        invariant Collected(b0, buf[..], at, s, off, items, locs, filled) && QueuesStored(s, off, items, filled)
      {
        EntryFacts(s, k);
        NextPage(s, k);
        if filled == n {
          break;
        }
        // the next page always starts where the walk has arrived, so this early exit is never taken
        assert pages[k].startLogical <= off + filled;
        if pages[k].startLogical > off + n {
          break;
        }
        var page := GetPage(pages[k], s, k);
        match page {
          case Err(e) => return Err(e), items, locs;
          case Ok(blocks) =>
            var walked;
            walked, items, locs := WalkPage(s, k, pages[k], blocks, buf, at, off, n, items, locs, filled, b0);
            match walked {
              case Err(e) => return Err(e), items, locs;
              case Ok(m) => filled := m;
            }
        }
        k := k + 1;
      }
      PageEnd(s);
      WalkedAll(b0, buf[..], at, s, off, n, items, locs, filled);
      return Ok(filled), items, locs;
    }

    lemma PageEnd(s: Stream)
      ensures PagePos(s, |img.Recs(s)|) == |img.Content(s)|
    {
    }

    // -------------------------------------------------------------------------------------------
    // Executing work items, in any order

    /** Collected, when only the items in `pending` are still to be executed. */
    ghost predicate Executing(
      b0: Bytes, b: Bytes, at: nat, s: Stream, off: nat, items: seq<WorkItem>, pending: set<nat>, filled: nat)
    {
      && |b| == |b0| && at + filled <= |b|
      && Apart(items, filled)
      && (filled > 0 ==> off + filled <= |img.Content(s)|)
      && (forall j {:trigger b[j]} :: at <= j < at + filled && !Pending(items, pending, j - at) ==>
        b[j] == img.Content(s)[off + j - at])
      && (forall j {:trigger b[j]} :: 0 <= j < |b| && !(at <= j < at + filled) ==> b[j] == b0[j])
    }

    predicate Pending(items: seq<WorkItem>, pending: set<nat>, j: int) {
      exists a :: a in pending && a < |items| && items[a].Spans(j)
    }

    lemma ExecuteStart(
      b0: Bytes, b: Bytes, at: nat, s: Stream, off: nat, items: seq<WorkItem>, locs: seq<(nat, nat)>,
      pending: set<nat>, filled: nat)
      requires Collected(b0, b, at, s, off, items, locs, filled)
      requires forall a: nat :: a in pending <==> a < |items|
      ensures Executing(b0, b, at, s, off, items, pending, filled)
    {
      forall j {:trigger b[j]} | at <= j < at + filled && !Pending(items, pending, j - at)
        ensures b[j] == img.Content(s)[off + j - at]
      {
        assert Covered(items, j - at) ==> Pending(items, pending, j - at);
        assert b[at + (j - at)] == b[j];
      }
    }

    lemma ExecuteOne(
      b0: Bytes, b: Bytes, at: nat, s: Stream, off: nat, items: seq<WorkItem>, pending: set<nat>, filled: nat, a: nat,
      src: Bytes)
      requires Executing(b0, b, at, s, off, items, pending, filled) && a < |items| && a in pending
      requires |src| == items[a].toCopy && at + items[a].bufOffset + |src| <= |b|
      requires off + items[a].bufOffset + |src| <= |img.Content(s)|
      requires src == img.Content(s)[off + items[a].bufOffset..off + items[a].bufOffset + |src|]
      ensures Executing(b0, Patch(b, at + items[a].bufOffset, src), at, s, off, items, pending - {a}, filled)
    {
      var it := items[a];
      var b' := Patch(b, at + it.bufOffset, src);
      assert it.bufOffset + it.toCopy <= filled;
      forall j {:trigger b'[j]} | at <= j < at + filled && !Pending(items, pending - {a}, j - at)
        ensures b'[j] == img.Content(s)[off + j - at]
      {
        if it.Spans(j - at) {
          assert b'[j] == src[j - at - it.bufOffset];
        } else {
          assert b'[j] == b[j];
          assert !Pending(items, pending, j - at);
        }
      }
    }

    lemma ExecuteEnd(b0: Bytes, b: Bytes, at: nat, s: Stream, off: nat, items: seq<WorkItem>, filled: nat)
      requires Executing(b0, b, at, s, off, items, {}, filled)
      requires filled == 0 || off + filled <= |img.Content(s)|
      ensures b == Patch(b0, at, if filled == 0 then [] else img.Content(s)[off..off + filled])
    {
      assert forall j :: !Pending(items, {}, j);
    }

    lemma ItemTarget(
      b0: Bytes, b: Bytes, at: nat, s: Stream, off: nat, items: seq<WorkItem>, locs: seq<(nat, nat)>, filled: nat,
      a: nat)
      requires Collected(b0, b, at, s, off, items, locs, filled) && a < |items|
      ensures |locs| == |items| && ItemOk(s, off, items[a], locs[a])
      ensures at + items[a].bufOffset + items[a].toCopy <= |b|
    {
      assert items[a].bufOffset + items[a].toCopy <= filled;
    }

    /** Decompresses one queued block and copies the requested part of it to its place. */
    method ExecuteItem(stream: Stream, it: WorkItem, buf: array<bv8>, at: nat, ghost off: nat, ghost loc: (nat, nat))
      returns (r: Result<()>)
      requires Valid() && ItemOk(stream, off, it, loc) && at + it.bufOffset + it.toCopy <= buf.Length
      modifies this`cacheL1, buf
      ensures r.Ok?
      ensures buf[..] == Patch(old(buf[..]), at + it.bufOffset, ItemBytes(stream, off, it, loc))
      ensures Valid()
    {
      hide BlocksOk, PagesOk, IndexOk, Linked;
      var data := ReadBlock(stream, it.blockIdx, it.info, loc.0, loc.1);
      match data {
        case Err(e) => return Err(e);
        case Ok(bytes) =>
          CopyInto(buf, at + it.bufOffset, bytes[it.offsetInBlock..it.offsetInBlock + it.toCopy]);
          return Ok(());
      }
    }

    /** The items one after the other. */
    method ExecuteSerial(
      stream: Stream, items: seq<WorkItem>, buf: array<bv8>, at: nat,
      ghost off: nat, ghost locs: seq<(nat, nat)>, ghost b0: Bytes, ghost filled: nat)
      returns (r: Result<()>)
      requires Valid() && Collected(b0, buf[..], at, stream, off, items, locs, filled)
      modifies this`cacheL1, buf
      ensures Valid() && r.Ok?
      ensures Executing(b0, buf[..], at, stream, off, items, {}, filled)
    {
      hide BlocksOk, PagesOk, IndexOk, Linked, Collected, Executing, ItemOk, Patch;
      ghost var collected := buf[..];
      ghost var pending := Below(|items|);
      ExecuteStart(b0, buf[..], at, stream, off, items, locs, pending, filled);
      var a := 0;
      while a < |items|
        invariant a <= |items|
        invariant Valid()
        invariant forall c :: c in pending <==> a <= c < |items|
        invariant Executing(b0, buf[..], at, stream, off, items, pending, filled)
      {
        ItemTarget(b0, collected, at, stream, off, items, locs, filled, a);
        ghost var src := ItemBytes(stream, off, items[a], locs[a]);
        ghost var b := buf[..];
        var done := ExecuteItem(stream, items[a], buf, at, off, locs[a]);
        match done {
          case Err(e) => return Err(e);
          case Ok(_) =>
        }
        ExecuteOne(b0, b, at, stream, off, items, pending, filled, a, src);
        pending := pending - {a};
        a := a + 1;
      }
      assert pending == {};
      return Ok(());
    }

    ghost function ItemBytes(s: Stream, off: nat, it: WorkItem, loc: (nat, nat)): (src: Bytes)
      requires ItemOk(s, off, it, loc)
      ensures |src| == it.toCopy && off + it.bufOffset + |src| <= |img.Content(s)|
      ensures src == img.Content(s)[off + it.bufOffset..off + it.bufOffset + it.toCopy]
    {
      img.Content(s)[off + it.bufOffset..off + it.bufOffset + it.toCopy]
    }

    /** What a pool thread has in hand is its block's. */
    ghost predicate TaskOk(s: Stream, it: WorkItem, loc: (nat, nat), t: Task) {
      img.Has(s, loc.0, loc.1) &&
      match t
      case Waiting => true
      case Holding(raw) =>
        && codec.crc(raw) == it.info.checksum
        && codec.Unseal(encrypted, raw, it.blockIdx, it.info.logicalLen) == Some(img.DataAt(s, loc.0, loc.1))
      case Copying(data, done) => data == img.DataAt(s, loc.0, loc.1) && done <= it.toCopy
    }

    predicate Uncopied(items: seq<WorkItem>, tasks: seq<Task>, j: int) {
      exists a {:trigger items[a]} :: 0 <= a < |items| && a < |tasks|
        && items[a].bufOffset + tasks[a].Copied() <= j < items[a].bufOffset + items[a].toCopy
    }

    /** Collected, when of each item only the bytes counted in its task have been copied. */
    ghost predicate Interleaved(
      b0: Bytes, b: Bytes, at: nat, s: Stream, off: nat, items: seq<WorkItem>, tasks: seq<Task>, filled: nat)
    {
      && |b| == |b0| && at + filled <= |b| && |tasks| == |items|
      && Apart(items, filled)
      && (filled > 0 ==> off + filled <= |img.Content(s)|)
      && (forall j {:trigger b[j]} :: at <= j < at + filled && !Uncopied(items, tasks, j - at) ==>
        b[j] == img.Content(s)[off + j - at])
      && (forall j {:trigger b[j]} :: 0 <= j < |b| && !(at <= j < at + filled) ==> b[j] == b0[j])
    }

    lemma PoolStart(
      b0: Bytes, b: Bytes, at: nat, s: Stream, off: nat, items: seq<WorkItem>, locs: seq<(nat, nat)>,
      tasks: seq<Task>, filled: nat)
      requires Collected(b0, b, at, s, off, items, locs, filled)
      requires |tasks| == |items| && forall a {:trigger tasks[a]} :: 0 <= a < |tasks| ==> tasks[a] == Waiting
      ensures Interleaved(b0, b, at, s, off, items, tasks, filled)
    {
      hide ItemOk;
      forall j {:trigger b[j]} | at <= j < at + filled && !Uncopied(items, tasks, j - at)
        ensures b[j] == img.Content(s)[off + j - at]
      {
        CoveredIsUncopied(items, tasks, j - at);
        assert b[at + (j - at)] == b[j];
      }
    }

    lemma CoveredIsUncopied(items: seq<WorkItem>, tasks: seq<Task>, j: int)
      requires |tasks| == |items| && forall a {:trigger tasks[a]} :: 0 <= a < |tasks| ==> tasks[a] == Waiting
      ensures Covered(items, j) ==> Uncopied(items, tasks, j)
    {
      if Covered(items, j) {
        var a :| 0 <= a < |items| && items[a].Spans(j);
        assert tasks[a] == Waiting;
      }
    }

    /** A step that copies nothing. */
    lemma PoolThinks(
      b0: Bytes, b: Bytes, at: nat, s: Stream, off: nat, items: seq<WorkItem>, tasks: seq<Task>, filled: nat,
      a: nat, t: Task)
      requires Interleaved(b0, b, at, s, off, items, tasks, filled) && a < |tasks|
      requires t.Copied() == tasks[a].Copied()
      ensures Interleaved(b0, b, at, s, off, items, tasks[a := t], filled)
    {
      forall j ensures Uncopied(items, tasks[a := t], j) <==> Uncopied(items, tasks, j) {}
    }

    /** A step that copies one byte of one item. */
    lemma PoolCopies(
      b0: Bytes, b: Bytes, at: nat, s: Stream, off: nat, items: seq<WorkItem>, tasks: seq<Task>, filled: nat,
      a: nat, t: Task, x: bv8)
      requires Interleaved(b0, b, at, s, off, items, tasks, filled) && a < |tasks|
      requires tasks[a].Copied() < items[a].toCopy && t.Copied() == tasks[a].Copied() + 1
      requires off + items[a].bufOffset + tasks[a].Copied() < |img.Content(s)|
      requires x == img.Content(s)[off + items[a].bufOffset + tasks[a].Copied()]
      ensures at + items[a].bufOffset + tasks[a].Copied() < |b|
      ensures Interleaved(b0, b[at + items[a].bufOffset + tasks[a].Copied() := x], at, s, off, items, tasks[a := t],
        filled)
    {
      var place := items[a].bufOffset + tasks[a].Copied();
      assert items[a].bufOffset + items[a].toCopy <= filled;
      var b', tasks' := b[at + place := x], tasks[a := t];
      forall j {:trigger b'[j]} | at <= j < at + filled && !Uncopied(items, tasks', j - at)
        ensures b'[j] == img.Content(s)[off + j - at]
      {
        if j - at != place { StillUncopied(items, tasks, a, t, j - at); }
      }
    }

    lemma StillUncopied(items: seq<WorkItem>, tasks: seq<Task>, a: nat, t: Task, j: int)
      requires |items| == |tasks| && a < |items| && t.Copied() == tasks[a].Copied() + 1
      requires j != items[a].bufOffset + tasks[a].Copied()
      ensures Uncopied(items, tasks, j) ==> Uncopied(items, tasks[a := t], j)
    {
    }

    lemma PoolEnd(
      b0: Bytes, b: Bytes, at: nat, s: Stream, off: nat, items: seq<WorkItem>, tasks: seq<Task>, filled: nat)
      requires Interleaved(b0, b, at, s, off, items, tasks, filled)
      requires forall a {:trigger tasks[a]} :: 0 <= a < |tasks| ==> Finished(items[a], tasks[a])
      ensures Executing(b0, b, at, s, off, items, {}, filled)
    {
      forall j ensures !Uncopied(items, tasks, j) && !Pending(items, {}, j) {
        assert forall a {:trigger items[a]} :: 0 <= a < |items| ==> Finished(items[a], tasks[a]);
      }
    }

    lemma ItemMeans(s: Stream, off: nat, it: WorkItem, loc: (nat, nat))
      requires ItemOk(s, off, it, loc)
      ensures img.Has(s, loc.0, loc.1)
      ensures it.info == img.BlockAt(s, loc.0, loc.1) && it.blockIdx == img.IndexAt(s, loc.0, loc.1)
      ensures !it.info.ReadsAsZero() && it.info.offset != BLOCK_OFFSET_PARENT
    {
    }

    lemma StoredUnseals(b: BlockInfo, idx: nat, d: Bytes)
      requires Linked() && BlockReads(img, b, idx, d) && !b.ReadsAsZero() && b.offset != BLOCK_OFFSET_PARENT
      requires b.offset + b.length <= |file|
      ensures var raw := file[b.offset..b.offset + b.length];
        codec.crc(raw) == b.checksum && codec.Unseal(encrypted, raw, idx, b.logicalLen) == Some(d)
    {
      hide Linked, Codec.Unseal, ResolvesTo, Readable;
      SameFile();
    }

    /** What fetching leaves in hand. */
    lemma FetchedOk(s: Stream, off: nat, it: WorkItem, loc: (nat, nat), r: FetchResult)
      requires Linked() && ItemOk(s, off, it, loc)
      requires r.Decompressed? ==> img.Has(s, loc.0, loc.1) && r.data == img.DataAt(s, loc.0, loc.1)
      requires r.Compressed? ==>
        && it.info.offset + it.info.length <= |file|
        && r.raw == file[it.info.offset..it.info.offset + it.info.length]
      ensures TaskOk(s, it, loc, if r.Decompressed? then Copying(r.data, 0) else Holding(r.raw))
    {
      hide Linked, ItemOk, BlockReads, Codec.Unseal, BlockInfo.ReadsAsZero;
      ItemMeans(s, off, it, loc);
      BlockFacts(s, loc.0, loc.1);
      if r.Compressed? { StoredUnseals(it.info, it.blockIdx, img.DataAt(s, loc.0, loc.1)); }
    }

    /** The byte that is copied next is the stream's at its place. */
    lemma NextByte(s: Stream, off: nat, it: WorkItem, loc: (nat, nat), t: Task)
      requires ItemOk(s, off, it, loc) && TaskOk(s, it, loc, t) && t.Copying? && t.done < it.toCopy
      ensures it.offsetInBlock + t.done < |t.data| && off + it.bufOffset + t.done < |img.Content(s)|
      ensures t.data[it.offsetInBlock + t.done] == img.Content(s)[off + it.bufOffset + t.done]
    {
      var x := t.data[it.offsetInBlock..it.offsetInBlock + it.toCopy];
      var y := img.Content(s)[off + it.bufOffset..off + it.bufOffset + it.toCopy];
      assert x[t.done] == t.data[it.offsetInBlock + t.done] && y[t.done] == img.Content(s)[off + it.bufOffset + t.done];
    }

    /**
     The items as a pool of threads works on them: in any order, any number at a time, each fetching its block,
     unsealing it and copying it byte by byte. Whatever the interleaving, the outcome is that of the serial loop.
     */
    method ExecuteParallel(
      stream: Stream, items: seq<WorkItem>, buf: array<bv8>, at: nat,
      ghost off: nat, ghost locs: seq<(nat, nat)>, ghost b0: Bytes, ghost filled: nat)
      returns (r: Result<()>)
      requires Valid() && Collected(b0, buf[..], at, stream, off, items, locs, filled)
      modifies this`cacheL1, buf
      ensures Valid() && r.Ok?
      ensures Executing(b0, buf[..], at, stream, off, items, {}, filled)
    {
      hide BlocksOk, PagesOk, IndexOk, Linked, Collected, Executing, ItemOk, Interleaved, TaskOk, StepsLeft;
      ghost var collected := buf[..];
      var tasks := seq(|items|, _ => Waiting);
      var pending: set<nat> := Below(|items|);
      ItemsKnown(b0, collected, at, stream, off, items, locs, filled);
      PoolStart(b0, buf[..], at, stream, off, items, locs, tasks, filled);
      while pending != {}
        invariant Valid() && |tasks| == |items| == |locs|
        invariant forall c {:trigger c in pending} :: c in pending ==> c < |items|
        invariant forall c {:trigger tasks[c]} :: 0 <= c < |items| ==> Finished(items[c], tasks[c]) || c in pending
        invariant forall c {:trigger tasks[c]} :: 0 <= c < |items| ==> TaskOk(stream, items[c], locs[c], tasks[c])
        invariant Interleaved(b0, buf[..], at, stream, off, items, tasks, filled)
        decreases AllStepsLeft(items, tasks) + |pending|
      {
        var a :| a in pending;
        ItemTarget(b0, collected, at, stream, off, items, locs, filled, a);
        ghost var before := tasks;
        if Finished(items[a], tasks[a]) {
          pending := pending - {a};
        } else {
          var t := PoolStep(stream, items, tasks, buf, at, a, off, locs, b0, filled);
          match t {
            case Err(e) => return Err(e);
            case Ok(task) =>
              tasks := tasks[a := task];
              StepsUpdate(items, before, a, task);
          }
        }
      }
      PoolEnd(b0, buf[..], at, stream, off, items, tasks, filled);
      return Ok(());
    }

    lemma ItemsKnown(
      b0: Bytes, b: Bytes, at: nat, s: Stream, off: nat, items: seq<WorkItem>, locs: seq<(nat, nat)>, filled: nat)
      requires Collected(b0, b, at, s, off, items, locs, filled)
      ensures |items| == |locs|
      ensures forall c {:trigger items[c]} :: 0 <= c < |items| ==> TaskOk(s, items[c], locs[c], Waiting)
    {
    }

    /** The thread's first step: cached plaintext, or the stored bytes. */
    method FetchStep(stream: Stream, it: WorkItem, ghost off: nat, ghost loc: (nat, nat)) returns (r: Result<Task>)
      requires Valid() && ItemOk(stream, off, it, loc)
      modifies this`cacheL1
      ensures Valid() && r.Ok? && TaskOk(stream, it, loc, r.value)
      ensures r.value.Copied() == 0 && StepsLeft(it, r.value) < StepsLeft(it, Waiting)
    {
      hide BlocksOk, PagesOk, IndexOk, Linked, Sharded.Lookup, Sharded.Touch, Sharded.Valid, ItemOk, TaskOk;
      ItemMeans(stream, off, it, loc);
      var fetched := FetchRawBlock(stream, it.blockIdx, it.info, loc.0, loc.1);
      match fetched {
        case Err(e) => return Err(e);
        case Ok(f) =>
          FetchedOk(stream, off, it, loc, f);
          match f {
            case Decompressed(data) => return Ok(Copying(data, 0));
            case Compressed(raw) => return Ok(Holding(raw));
          }
      }
    }

    /** The second step, if there is one: checksum, decryption, decompression. */
    method UnsealStep(stream: Stream, it: WorkItem, raw: Bytes, ghost loc: (nat, nat)) returns (r: Result<Task>)
      requires TaskOk(stream, it, loc, Holding(raw))
      ensures r.Ok? && TaskOk(stream, it, loc, r.value)
      ensures r.value.Copied() == 0 && StepsLeft(it, r.value) < StepsLeft(it, Holding(raw))
    {
      hide Codec.Unseal;
      var data := DecompressAndVerify(raw, it.blockIdx, it.info);
      match data {
        case Err(e) => return Err(e);
        case Ok(d) => return Ok(Copying(d, 0));
      }
    }

    /** One step of the thread that works on item `a`. */
    method PoolStep(
      stream: Stream, items: seq<WorkItem>, tasks: seq<Task>, buf: array<bv8>, at: nat, a: nat,
      ghost off: nat, ghost locs: seq<(nat, nat)>, ghost b0: Bytes, ghost filled: nat)
      returns (r: Result<Task>)
      requires Valid() && a < |items| == |tasks| == |locs| && !Finished(items[a], tasks[a])
      requires ItemOk(stream, off, items[a], locs[a]) && TaskOk(stream, items[a], locs[a], tasks[a])
      requires Interleaved(b0, buf[..], at, stream, off, items, tasks, filled)
      modifies this`cacheL1, buf
      ensures Valid() && r.Ok?
      ensures TaskOk(stream, items[a], locs[a], r.value)
      ensures StepsLeft(items[a], r.value) < StepsLeft(items[a], tasks[a])
      ensures Interleaved(b0, buf[..], at, stream, off, items, tasks[a := r.value], filled)
    {
      hide BlocksOk, PagesOk, IndexOk, Linked, Interleaved, ItemOk, TaskOk;
      var it := items[a];
      ghost var b := buf[..];
      match tasks[a] {
        case Waiting =>
          r := FetchStep(stream, it, off, locs[a]);
          PoolThinks(b0, b, at, stream, off, items, tasks, filled, a, r.value);
        case Holding(raw) =>
          r := UnsealStep(stream, it, raw, locs[a]);
          PoolThinks(b0, b, at, stream, off, items, tasks, filled, a, r.value);
        case Copying(data, done) =>
          NextByte(stream, off, it, locs[a], tasks[a]);
          var x, task := data[it.offsetInBlock + done], Copying(data, done + 1);
          PoolCopies(b0, b, at, stream, off, items, tasks, filled, a, task, x);
          OneMore(stream, it, locs[a], data, done);
          buf[at + it.bufOffset + done] := x;
          assert buf[..] == b[at + it.bufOffset + done := x];
          r := Ok(task);
      }
    }

    lemma OneMore(s: Stream, it: WorkItem, loc: (nat, nat), data: Bytes, done: nat)
      requires TaskOk(s, it, loc, Copying(data, done)) && done < it.toCopy
      ensures TaskOk(s, it, loc, Copying(data, done + 1))
    {
    }

    // -------------------------------------------------------------------------------------------
    // The block at a position

    /** Page `l` has no bytes and sits at stream position `off`. */
    ghost predicate EmptyPage(s: Stream, l: nat, off: nat) {
      l < |img.Recs(s)| && img.Recs(s)[l].bounds != [] && img.Recs(s)[l].Start() == img.Recs(s)[l].End() == off
    }

    lemma LandingFacts(s: Stream, off: nat, found: bool, idx: nat)
      requires Linked() && img.Recs(s) != [] && SearchResult(master.Pages(s), off, found, idx)
      ensures var l := LandingPage(found, idx);
        && l < |img.Recs(s)|
        && PagePos(s, l) <= off
        && img.Recs(s)[l].bounds != [] && img.Recs(s)[l].Start() == PagePos(s, l)
        && (off < |img.Content(s)| ==> off < img.Recs(s)[l].End() || EmptyPage(s, l, off))
    {
      StreamFacts(s);
      hide Linked, PageReads, PageDecodes, SearchResult;
      LandingHolds(master.Pages(s), img.Recs(s), |img.Content(s)|, off, found, idx);
      NextPage(s, LandingPage(found, idx));
    }

    lemma PagesSorted(s: Stream)
      requires Linked()
      ensures SortedByStart(master.Pages(s)) && |master.Pages(s)| == |img.Recs(s)|
      ensures img.Recs(s) == [] ==> img.Content(s) == []
    {
      StreamFacts(s);
      hide Linked, PageReads, PageDecodes;
      EntriesSorted(master.Pages(s), img.Recs(s), |img.Content(s)|);
    }

    /**
     The block holding position `offset`, with its global index: the only one there is. There is none exactly at
     and past the end of the content, or when the search lands on a page without bytes.
     */
    method GetBlockInfo(stream: Stream, offset: nat)
      returns (r: Result<Option<(nat, BlockInfo)>>, ghost k: nat, ghost i: nat)
      requires Valid()
      modifies this`pageCache
      ensures Valid() && r.Ok?
      ensures r.value.Some? ==>
        && offset < |img.Content(stream)|
        && Contains(img.Recs(stream), k, i, offset)
        && r.value.value == (img.IndexAt(stream, k, i), img.BlockAt(stream, k, i))
      ensures r.value.None? ==> |img.Content(stream)| <= offset || EmptyPage(stream, k, offset)
    {
      hide BlocksOk, PagesOk, IndexOk, Linked, PagePos, EmptyPage, LandingPage, SearchResult;
      PagesSorted(stream);
      k, i := 0, 0;
      var pages := master.Pages(stream);
      if pages == [] {
        return Ok(None), k, i;
      }
      var found, idx := BinarySearchBy(pages, offset);
      LandingFacts(stream, offset, found, idx);
      var pageIdx := LandingPage(found, idx);
      k := pageIdx;
      var page := GetPage(pages[pageIdx], stream, pageIdx);
      match page {
        case Err(e) => return Err(e), k, i;
        case Ok(blocks) =>
          var inPage, n := FindInPage(stream, pageIdx, pages[pageIdx], blocks, offset);
          i := n;
          return Ok(inPage), k, i;
      }
    }

    method FindInPage(ghost s: Stream, ghost k: nat, entry: PageEntry, blocks: seq<BlockInfo>, offset: nat)
      returns (r: Option<(nat, BlockInfo)>, i: nat)
      requires Linked() && k < |img.Recs(s)| && k < |master.Pages(s)| && entry == master.Pages(s)[k]
      requires blocks == img.Recs(s)[k].blocks && PagePos(s, k) <= offset
      ensures r.Some? ==>
        && offset < |img.Content(s)|
        && Contains(img.Recs(s), k, i, offset)
        && r.value == (img.IndexAt(s, k, i), img.BlockAt(s, k, i))
      ensures r.None? ==> img.Recs(s)[k].bounds != [] && img.Recs(s)[k].End() <= offset
    {
      hide Linked, PagePos;
      EntryFacts(s, k);
      NextPage(s, k);
      var blockLogicalStart := entry.startLogical;
      i := 0;
      while i < |blocks|
        invariant i <= |blocks|
        invariant blockLogicalStart == img.Recs(s)[k].bounds[i] <= offset
      {
        BlockPlace(s, k, i);
        var blockEnd := blockLogicalStart + blocks[i].logicalLen;
        if offset >= blockLogicalStart && offset < blockEnd {
          return Some((entry.startBlock + i, blocks[i])), i;
        }
        blockLogicalStart := blockEnd;
        i := i + 1;
      }
      return None, i;
    }

    // -------------------------------------------------------------------------------------------
    // Reading a range

    lemma ParentIsDense(p: nat)
      requires Linked() && p < |parents|
      ensures parents[p].img == img.parents[p] && parents[p] in repr && parents[p].repr <= repr
      ensures Dense(parents[p].img) && |parents| == |img.parents|
    {
    }

    static lemma DenseCovers(img: Image, s: Stream, l: nat, off: nat)
      requires Dense(img) && l < |img.Recs(s)| && img.Recs(s)[l].bounds != []
      ensures img.Recs(s)[l].Start() < img.Recs(s)[l].End()
    {
    }

    /** Bytes that no block of this archive describes: from the first parent that has this position, else zeros. */
    method FallbackFill(stream: Stream, pos: nat, buf: array<bv8>, at: nat, n: nat) returns (r: Result<()>)
      requires Valid() && at + n <= buf.Length
      modifies repr, buf
      ensures Valid() && r.Ok?
      ensures buf[..] == Patch(old(buf[..]), at, Fallback(img, stream, pos, n))
      decreases img, 0
    {
      hide BlocksOk, PagesOk, IndexOk, Readable, StreamReads, EmptyPage, Contains, Fallback, ReadSpec, Dense;
      var p := 0;
      while p < |parents|
        invariant p <= |parents| == |img.parents|
        invariant Valid()
        invariant forall q :: 0 <= q < p ==> |img.parents[q].Content(stream)| <= pos
        invariant buf[..] == old(buf[..])
      {
        ParentIsDense(p);
        var parent := parents[p];
        var info, k, i := parent.GetBlockInfo(stream, pos);
        NotEmptyPage(parent, stream, k, pos);
        match info {
          case Err(e) => return Err(e);
          case Ok(None) =>
          case Ok(Some(_)) =>
            FallbackIs(img, stream, pos, n, p);
            r := parent.ReadAtUninitInner(stream, pos, buf, at, n, false);
            return;
        }
        p := p + 1;
      }
      NoFallback(img, stream, pos, n);
      ZeroFill(buf, at, n);
      return Ok(());
    }

    static lemma NotEmptyPage(a: Archive, s: Stream, k: nat, off: nat)
      requires Dense(a.img)
      ensures !a.EmptyPage(s, k, off)
    {
      if a.EmptyPage(s, k, off) { DenseCovers(a.img, s, k, off); }
    }

    /** Claims the single prefetch slot. */
    method TryStart() returns (acquired: bool)
      modifies this`inFlight, this`spawnCount
      ensures acquired == !old(inFlight) && inFlight
      ensures spawnCount == old(spawnCount) + (if acquired then 1 else 0)
    {
      acquired := !inFlight;
      inFlight := true;
      if acquired {
        spawnCount := spawnCount + 1;
      }
    }

    method ClearInFlight()
      modifies this`inFlight
      ensures !inFlight
    {
      inFlight := false;
    }

    /** A read of `n` bytes at `off` comes, before the stream's declared size, upon a block stored in this file. */
    ghost predicate ReadsStored(s: Stream, off: nat, n: nat) {
      n > 0 && off < Size(s) && NeedsStored(s, off, Min(n, Size(s) - off))
    }

    /**
     Fills `n` bytes of `buf` from `at` on with what the stream holds at `offset`, whatever is cached. A read that came
     upon stored blocks leaves a prefetch task outstanding, unless it is part of one or prefetching is off.
     */
    method ReadAtUninitInner(stream: Stream, offset: nat, buf: array<bv8>, at: nat, n: nat, isPrefetch: bool)
      returns (r: Result<()>)
      requires Valid() && at + n <= buf.Length
      modifies repr, buf
      ensures Valid() && r.Ok?
      ensures buf[..] == Patch(old(buf[..]), at, ReadSpec(img, stream, offset, n))
      ensures prefetchWindow > 0 && !isPrefetch && ReadsStored(stream, offset, n) ==> inFlight
      decreases img, 1
    {
      hide BlocksOk, PagesOk, IndexOk, Linked, Fallback, PagePos, Patch, ReadSpec, Inside, NeedsStored;
      SameMaster();
      SpecParts(stream, offset, n);
      if n == 0 {
        EmptyPatch(buf[..], at);
        return Ok(());
      }
      var streamSize := master.Size(stream);
      if offset >= streamSize {
        ZeroFill(buf, at, n);
        FillIsPatch(old(buf[..]), at, Zeros(n));
        return Ok(());
      }
      var actual := Min(n, streamSize - offset);
      ZeroFill(buf, at + actual, n - actual);
      FillIsPatch(old(buf[..]), at + actual, Zeros(n - actual));
      r := ReadInside(stream, offset, buf, at, actual, isPrefetch);
      JoinTail(old(buf[..]), at, stream, offset, actual, Zeros(n - actual));
    }

    lemma SizeIsDeclared(s: Stream)
      requires Valid()
      ensures Size(s) == img.master.Size(s)
    {
      SameMasterWhenValid();
    }

    lemma SameMasterWhenValid()
      requires Valid()
      ensures master == img.master
    {
      assert Sound();
    }

    lemma SpecParts(s: Stream, offset: nat, n: nat)
      ensures var size := img.master.Size(s);
        ReadSpec(img, s, offset, n) ==
        if offset >= size then Zeros(n)
        else Inside(s, offset, Min(n, size - offset)) + Zeros(n - Min(n, size - offset))
    {
      hide Fallback;
    }

    lemma SameMaster()
      requires Linked()
      ensures master == img.master
    {
    }

    static lemma EmptyPatch(b: Bytes, at: nat)
      requires at <= |b|
      ensures forall x: Bytes {:trigger Patch(b, at, x)} :: x == [] ==> Patch(b, at, x) == b
    {
    }

    static lemma FillIsPatch(b: Bytes, at: nat, src: Bytes)
      requires at + |src| <= |b|
      ensures b[..at] + src + b[at + |src|..] == Patch(b, at, src)
    {
    }

    /** The bytes of a request that lies inside the declared size. */
    ghost function Inside(s: Stream, offset: nat, actual: nat): (b: Bytes)
      ensures |b| == actual
    {
      var own := Cut(img.Content(s), offset, actual);
      own + Fallback(img, s, offset + |own|, actual - |own|)
    }

    lemma JoinTail(b: Bytes, at: nat, s: Stream, offset: nat, actual: nat, z: Bytes)
      requires at + actual + |z| <= |b|
      ensures Patch(Patch(b, at + actual, z), at, Inside(s, offset, actual)) ==
        Patch(b, at, Inside(s, offset, actual) + z)
    {
    }

    method ReadInside(stream: Stream, offset: nat, buf: array<bv8>, at: nat, actual: nat, isPrefetch: bool)
      returns (r: Result<()>)
      requires Valid() && at + actual <= buf.Length
      modifies repr, buf
      ensures Valid() && r.Ok?
      ensures buf[..] == Patch(old(buf[..]), at, Inside(stream, offset, actual))
      ensures prefetchWindow > 0 && !isPrefetch && NeedsStored(stream, offset, actual) ==> inFlight
      decreases img, 1, 0
    {
      hide BlocksOk, PagesOk, IndexOk, Linked, Fallback, PagePos, Patch, Collected, Executing, LandingPage,
        SearchResult, Inside, QueuesStored, NeedsStored;
      ghost var b0 := buf[..];
      PagesSorted(stream);
      var pages := master.Pages(stream);
      if pages == [] {
        NoPages(stream, offset, actual);
        NothingStored(stream, offset, actual);
        r := FallbackFill(stream, offset, buf, at, actual);
        return;
      }
      var found, idx := BinarySearchBy(pages, offset);
      LandingFacts(stream, offset, found, idx);
      var pageIdx := LandingPage(found, idx);
      var collected, items, locs := CollectWorkItems(stream, pages, pageIdx, buf, at, offset, actual);
      match collected {
        case Err(e) => return Err(e);
        case Ok(filled) =>
          if |items| >= PARALLEL_MIN_BLOCKS {
            r := ExecuteParallel(stream, items, buf, at, offset, locs, b0, filled);
          } else {
            r := ExecuteSerial(stream, items, buf, at, offset, locs, b0, filled);
          }
          ghost var own := Cut(img.Content(stream), offset, actual);
          ExecutedIsCut(b0, buf[..], at, stream, offset, items, filled, actual);
          if actual > filled {
            r := FallbackFill(stream, offset + filled, buf, at + filled, actual - filled);
          }
          JoinFallback(b0, at, stream, offset, actual);
          if prefetchWindow > 0 && !isPrefetch && items != [] {
            var _ := TryStart();
          }
          if NeedsStored(stream, offset, actual) { SomethingQueued(stream, offset, actual, items, filled); }
      }
    }

    lemma NothingStored(s: Stream, off: nat, n: nat)
      requires Linked() && master.Pages(s) == []
      ensures !NeedsStored(s, off, n)
    {
      hide Linked;
      StreamFacts(s);
    }

    lemma NoPages(s: Stream, offset: nat, actual: nat)
      requires img.Content(s) == []
      ensures Inside(s, offset, actual) == Fallback(img, s, offset, actual)
    {
    }

    lemma ExecutedIsCut(b0: Bytes, b: Bytes, at: nat, s: Stream, off: nat, items: seq<WorkItem>, filled: nat, n: nat)
      requires Executing(b0, b, at, s, off, items, {}, filled) && filled == |Cut(img.Content(s), off, n)|
      ensures at + filled <= |b0| && b == Patch(b0, at, Cut(img.Content(s), off, n))
    {
      ExecuteEnd(b0, b, at, s, off, items, filled);
    }

    lemma JoinFallback(b: Bytes, at: nat, s: Stream, offset: nat, actual: nat)
      requires at + actual <= |b|
      ensures var own := Cut(img.Content(s), offset, actual);
        var x := Patch(b, at, own);
        Patch(b, at, Inside(s, offset, actual)) ==
        if actual > |own| then Patch(x, at + |own|, Fallback(img, s, offset + |own|, actual - |own|)) else x
    {
      hide Fallback, Cut, ReadSpec, Patch;
      var own := Cut(img.Content(s), offset, actual);
      PatchTwo(b, at, own, Fallback(img, s, offset + |own|, actual - |own|));
    }

    static lemma PatchTwo(b: Bytes, at: nat, x: Bytes, y: Bytes)
      requires at + |x| + |y| <= |b|
      ensures Patch(b, at, x + y) == if |y| > 0 then Patch(Patch(b, at, x), at + |x|, y) else Patch(b, at, x)
    {
      if |y| == 0 { assert x + y == x; }
    }

    /** Reads into a whole buffer; what lies past the end of the stream becomes zeros. */
    method ReadAtInto(stream: Stream, offset: nat, buf: array<bv8>) returns (r: Result<()>)
      requires Valid()
      modifies repr, buf
      ensures Valid() && r.Ok?
      ensures buf[..] == ReadSpec(img, stream, offset, buf.Length)
      ensures prefetchWindow > 0 && ReadsStored(stream, offset, buf.Length) ==> inFlight
    {
      hide BlocksOk, PagesOk, IndexOk, Linked, ReadSpec, NeedsStored;
      if buf.Length == 0 {
        return Ok(());
      }
      r := ReadAtUninitInner(stream, offset, buf, 0, buf.Length, false);
    }

    /** At most `len` bytes from `offset` on: cut at the end of the stream, empty past it. */
    method ReadAt(stream: Stream, offset: nat, len: nat) returns (r: Result<Bytes>)
      requires Valid()
      modifies repr
      ensures Valid()
      ensures r == Ok(if offset >= Size(stream) then []
        else ReadSpec(img, stream, offset, Min(len, Size(stream) - offset)))
      ensures prefetchWindow > 0 && ReadsStored(stream, offset, len) ==> inFlight
    {
      hide BlocksOk, PagesOk, IndexOk, Linked, ReadSpec, NeedsStored;
      var streamSize := Size(stream);
      if offset >= streamSize {
        return Ok([]);
      }
      var actual := Min(len, streamSize - offset);
      var buffer := new bv8[actual](_ => 0);
      var filled := ReadAtInto(stream, offset, buffer);
      match filled {
        case Err(e) => return Err(e);
        case Ok(_) => return Ok(buffer[..]);
      }
    }

    // -------------------------------------------------------------------------------------------
    // Prefetch

    /** How many of `n` bytes from `off` on lie before stream position `bound`. */
    static function Reach(off: nat, n: nat, bound: nat): nat { if bound <= off then 0 else Min(n, bound - off) }

    /** A stored block with bytes in the range [off, off + n). */
    ghost predicate Wanted(s: Stream, off: nat, n: nat, k: nat, i: nat) {
      && n > 0 && img.Has(s, k, i) && i + 1 < |img.Recs(s)[k].bounds|
      && img.BlockAt(s, k, i).offset != BLOCK_OFFSET_PARENT && img.BlockAt(s, k, i).length > 0
      && img.Recs(s)[k].bounds[i] < off + n && off < img.Recs(s)[k].bounds[i + 1]
      && img.Recs(s)[k].bounds[i] < img.Recs(s)[k].bounds[i + 1]
    }

    /** The cache after one block has been looked up and, if it was missing, inserted. */
    static ghost function WarmStep(c: Sharded<BlockKey, Bytes>, key: BlockKey, d: Bytes): Sharded<BlockKey, Bytes> {
      if c.Lookup(key).Some? then c.Touch(key) else c.Touch(key).Put(key, d)
    }

    /** The cache after this has been done for these blocks, in order. */
    ghost function WarmAll(c: Sharded<BlockKey, Bytes>, s: Stream, todo: seq<(nat, nat)>): Sharded<BlockKey, Bytes>
      requires forall j {:trigger todo[j]} :: 0 <= j < |todo| ==> img.Has(s, todo[j].0, todo[j].1)
    {
      if todo == [] then c
      else
        var n := |todo| - 1;
        var (k, i) := todo[n];
        WarmStep(WarmAll(c, s, todo[..n]), (s, img.IndexAt(s, k, i)), img.DataAt(s, k, i))
    }

    /** Exactly the wanted blocks before block `i` of page `k` are listed, and the cache is what warming them makes. */
    ghost predicate WarmedTo(
      c0: Sharded<BlockKey, Bytes>, c: Sharded<BlockKey, Bytes>, s: Stream, off: nat, n: nat, k: nat, i: nat,
      warmed: seq<(nat, nat)>)
    {
      && (forall j {:trigger warmed[j]} :: 0 <= j < |warmed| ==> Wanted(s, off, n, warmed[j].0, warmed[j].1))
      && (forall l: nat, j: nat {:trigger Wanted(s, off, n, l, j)} ::
        Wanted(s, off, n, l, j) && Before(l, j, k, i) ==> (l, j) in warmed)
      && c == WarmAll(c0, s, warmed)
    }

    lemma WarmMore(
      c0: Sharded<BlockKey, Bytes>, c: Sharded<BlockKey, Bytes>, s: Stream, off: nat, n: nat, k: nat, i: nat,
      warmed: seq<(nat, nat)>)
      requires WarmedTo(c0, c, s, off, n, k, i, warmed) && img.Has(s, k, i)
      ensures Wanted(s, off, n, k, i) ==>
        WarmedTo(c0, WarmStep(c, (s, img.IndexAt(s, k, i)), img.DataAt(s, k, i)), s, off, n, k, i + 1,
          warmed + [(k, i)])
      ensures !Wanted(s, off, n, k, i) ==> WarmedTo(c0, c, s, off, n, k, i + 1, warmed)
    {
      hide Wanted, WarmStep, WarmAll, Before;
      ListMore(s, off, n, k, i, warmed);
      if Wanted(s, off, n, k, i) { WarmLast(c0, s, off, n, warmed, k, i); }
    }

    lemma ListMore(s: Stream, off: nat, n: nat, k: nat, i: nat, warmed: seq<(nat, nat)>)
      requires forall l: nat, j: nat {:trigger Wanted(s, off, n, l, j)} ::
        Wanted(s, off, n, l, j) && Before(l, j, k, i) ==> (l, j) in warmed
      ensures forall l: nat, j: nat {:trigger Wanted(s, off, n, l, j)} ::
        Wanted(s, off, n, l, j) && Before(l, j, k, i + 1) ==>
          (l, j) in warmed + [(k, i)] && (Wanted(s, off, n, k, i) || (l, j) in warmed)
    {
      hide Wanted;
    }

    lemma WarmLast(
      c0: Sharded<BlockKey, Bytes>, s: Stream, off: nat, n: nat, warmed: seq<(nat, nat)>, k: nat, i: nat)
      requires forall j {:trigger warmed[j]} :: 0 <= j < |warmed| ==> Wanted(s, off, n, warmed[j].0, warmed[j].1)
      requires Wanted(s, off, n, k, i)
      ensures var more := warmed + [(k, i)];
        && (forall j {:trigger more[j]} :: 0 <= j < |more| ==> Wanted(s, off, n, more[j].0, more[j].1))
        && WarmAll(c0, s, more) == WarmStep(WarmAll(c0, s, warmed), (s, img.IndexAt(s, k, i)), img.DataAt(s, k, i))
    {
      hide WarmStep;
      assert (warmed + [(k, i)])[..|warmed|] == warmed;
    }

    lemma WarmNextPage(
      c0: Sharded<BlockKey, Bytes>, c: Sharded<BlockKey, Bytes>, s: Stream, off: nat, n: nat, k: nat, i: nat,
      warmed: seq<(nat, nat)>)
      requires WarmedTo(c0, c, s, off, n, k, i, warmed)
      requires forall j: nat {:trigger Wanted(s, off, n, k, j)} :: i <= j ==> !Wanted(s, off, n, k, j)
      ensures WarmedTo(c0, c, s, off, n, k + 1, 0, warmed)
    {
      hide WarmAll, WarmStep;
      forall l: nat, j: nat {:trigger Wanted(s, off, n, l, j)} | Wanted(s, off, n, l, j) && Before(l, j, k + 1, 0)
        ensures (l, j) in warmed
      {
        if l == k { assert j < i; }
        assert Before(l, j, k, i);
      }
      hide Wanted;
    }

    /** Past the end of the range no block of this page is wanted. */
    lemma NoneWanted(s: Stream, off: nat, n: nat, k: nat, i: nat)
      requires k < |img.Recs(s)| && img.Recs(s)[k].Shape() && i <= |img.Recs(s)[k].blocks|
      requires i == |img.Recs(s)[k].blocks| || off + n <= img.Recs(s)[k].bounds[i]
      ensures forall j: nat {:trigger Wanted(s, off, n, k, j)} :: i <= j ==> !Wanted(s, off, n, k, j)
    {
      forall j: nat {:trigger Wanted(s, off, n, k, j)} | i <= j ensures !Wanted(s, off, n, k, j) {
        if j < |img.Recs(s)[k].blocks| { img.Recs(s)[k].BoundsSorted(i, j); }
      }
    }

    /** Puts one stored block into the block cache, unless it is there already. */
    method WarmBlock(stream: Stream, blockIdx: nat, info: BlockInfo, ghost k: nat, ghost i: nat)
      requires Valid() && img.Has(stream, k, i)
      requires info == img.BlockAt(stream, k, i) && blockIdx == img.IndexAt(stream, k, i)
      modifies this`cacheL1
      ensures Valid()
      ensures cacheL1 ==
        if info.offset != BLOCK_OFFSET_PARENT && info.length > 0
        then WarmStep(old(cacheL1), (stream, blockIdx), img.DataAt(stream, k, i)) else old(cacheL1)
    {
      hide BlocksOk, PagesOk, IndexOk, Linked, Sharded.Lookup, Sharded.Put, Sharded.Valid, Sharded.Touch;
      if info.offset != BLOCK_OFFSET_PARENT && info.length > 0 {
        BlockFacts(stream, k, i);
        SameFile();
        var fetched := FetchRawBlock(stream, blockIdx, info, k, i);
        match fetched {
          case Err(_) =>
          case Ok(Decompressed(_)) =>
          case Ok(Compressed(raw)) =>
            var data := DecompressAndVerify(raw, blockIdx, info);
            match data {
              case Err(_) =>
              case Ok(d) =>
                CacheBlock(cacheL1, stream, k, i);
                cacheL1 := cacheL1.Put((stream, blockIdx), d);
            }
        }
      }
    }

    method WarmPage(
      stream: Stream, ghost k: nat, entry: PageEntry, blocks: seq<BlockInfo>, off: nat, n: nat, from: nat,
      ghost c0: Sharded<BlockKey, Bytes>, ghost before: seq<(nat, nat)>)
      returns (filled: nat, ghost warmed: seq<(nat, nat)>)
      requires Valid() && k < |img.Recs(stream)| && k < |master.Pages(stream)| && n > 0
      requires entry == master.Pages(stream)[k] && blocks == img.Recs(stream)[k].blocks
      requires img.Recs(stream)[k].bounds != [] && from == Reach(off, n, img.Recs(stream)[k].Start())
      requires WarmedTo(c0, cacheL1, stream, off, n, k, 0, before)
      modifies this`cacheL1
      ensures Valid() && filled == Reach(off, n, img.Recs(stream)[k].End())
      ensures WarmedTo(c0, cacheL1, stream, off, n, k + 1, 0, warmed)
    {
      hide BlocksOk, PagesOk, IndexOk, Linked, WarmedTo, WarmStep, WarmAll;
      EntryFacts(stream, k);
      filled, warmed := from, before;
      var blockLogicalStart := entry.startLogical;
      var i := 0;
      while i < |blocks|
        invariant i <= |blocks|
        invariant Valid()
        invariant blockLogicalStart == img.Recs(stream)[k].bounds[i]
        invariant filled == Reach(off, n, blockLogicalStart)
        invariant WarmedTo(c0, cacheL1, stream, off, n, k, i, warmed)
      {
        BlockPlace(stream, k, i);
        if filled == n {
          SkipRest(stream, k, i);
          NoneWanted(stream, off, n, k, i);
          WarmNextPage(c0, cacheL1, stream, off, n, k, i, warmed);
          return;
        }
        var blockEnd := blockLogicalStart + blocks[i].logicalLen;
        WarmMore(c0, cacheL1, stream, off, n, k, i, warmed);
        if blockEnd > off + filled {
          var offsetInBlock := off + filled - blockLogicalStart;
          WarmBlock(stream, entry.startBlock + i, blocks[i], k, i);
          if blocks[i].offset != BLOCK_OFFSET_PARENT && blocks[i].length > 0 { warmed := warmed + [(k, i)]; }
          filled := filled + Min(n - filled, blocks[i].logicalLen - offsetInBlock);
        }
        blockLogicalStart := blockEnd;
        i := i + 1;
      }
      NoneWanted(stream, off, n, k, i);
      WarmNextPage(c0, cacheL1, stream, off, n, k, i, warmed);
    }

    lemma InChain(s: Stream)
      requires Linked()
      ensures Chain(img.Recs(s), |img.Content(s)|)
    {
      StreamFacts(s);
    }

    /** The page of a wanted block meets the range. */
    lemma WantedPage(s: Stream, off: nat, n: nat, l: nat, j: nat)
      requires Linked() && Wanted(s, off, n, l, j)
      ensures l < |img.Recs(s)| && img.Recs(s)[l].bounds != []
      ensures img.Recs(s)[l].Start() < off + n && off < img.Recs(s)[l].End()
    {
      hide Linked;
      BlockPlace(s, l, j);
      img.Recs(s)[l].BoundsSorted(j + 1, |img.Recs(s)[l].blocks|);
    }

    /** Blocks of an earlier page end where it ends, those of a later one do not start before it. */
    lemma OutOfRange(s: Stream, off: nat, n: nat, k: nat, l: nat, j: nat)
      requires Linked() && k < |img.Recs(s)| && Wanted(s, off, n, l, j)
      ensures PagePos(s, k) <= off ==> l >= k
      ensures off + n <= PagePos(s, k) ==> l < k
    {
      hide Linked, PagePos, Chain, Wanted;
      NextPage(s, k);
      InChain(s);
      WantedPage(s, off, n, l, j);
      if l < k { ChainSorted(img.Recs(s), |img.Content(s)|, l, k); }
      if k < l { ChainSorted(img.Recs(s), |img.Content(s)|, k, l); }
    }

    lemma NothingWarmed(s: Stream, off: nat, n: nat, k: nat)
      requires Linked() && k < |img.Recs(s)| && PagePos(s, k) <= off
      ensures WarmedTo(cacheL1, cacheL1, s, off, n, k, 0, [])
    {
      hide Linked, PagePos, Wanted;
      forall l: nat, j: nat {:trigger Wanted(s, off, n, l, j)} | Wanted(s, off, n, l, j) ensures l >= k {
        OutOfRange(s, off, n, k, l, j);
      }
    }

    /** Past the end of the range no block of the remaining pages is wanted. */
    lemma AllWarmed(
      c0: Sharded<BlockKey, Bytes>, c: Sharded<BlockKey, Bytes>, s: Stream, off: nat, n: nat, k: nat,
      warmed: seq<(nat, nat)>)
      requires Linked() && WarmedTo(c0, c, s, off, n, k, 0, warmed) && k <= |img.Recs(s)|
      requires k < |img.Recs(s)| ==> off + n <= PagePos(s, k)
      ensures Warmed(c0, c, s, off, n, warmed)
    {
      hide Linked, PagePos, WarmAll, WarmStep;
      forall l: nat, j: nat {:trigger Wanted(s, off, n, l, j)} | Wanted(s, off, n, l, j) ensures (l, j) in warmed {
        if k < |img.Recs(s)| { OutOfRange(s, off, n, k, l, j); }
        assert Before(l, j, k, 0);
      }
    }

    /** Exactly the wanted blocks of the range are listed, and the cache is what warming them, in order, makes of it. */
    ghost predicate Warmed(
      c0: Sharded<BlockKey, Bytes>, c: Sharded<BlockKey, Bytes>, s: Stream, off: nat, n: nat, warmed: seq<(nat, nat)>)
    {
      && (forall j {:trigger warmed[j]} :: 0 <= j < |warmed| ==> Wanted(s, off, n, warmed[j].0, warmed[j].1))
      && (forall l: nat, j: nat {:trigger Wanted(s, off, n, l, j)} :: Wanted(s, off, n, l, j) ==> (l, j) in warmed)
      && c == WarmAll(c0, s, warmed)
    }

    /**
     Decompresses the stored blocks that overlap a range into the block cache, each unless it is there already, and
     no others; nothing a reader can see changes.
     */
    method WarmBlocks(stream: Stream, offset: nat, len: nat) returns (r: Result<()>, ghost warmed: seq<(nat, nat)>)
      requires Valid()
      modifies this`cacheL1, this`pageCache
      ensures Valid() && r.Ok?
      ensures Warmed(old(cacheL1), cacheL1, stream, offset,
                     if offset < Size(stream) then Min(len, Size(stream) - offset) else 0, warmed)
    {
      hide BlocksOk, PagesOk, IndexOk, Linked, PagePos, LandingPage, SearchResult, WarmedTo, WarmAll, Wanted;
      warmed := [];
      var streamSize := Size(stream);
      if len == 0 || offset >= streamSize {
        NothingWanted(cacheL1, stream, offset);
        return Ok(()), [];
      }
      var actual := Min(len, streamSize - offset);
      PagesSorted(stream);
      var pages := master.Pages(stream);
      if pages == [] {
        NoPageWanted(cacheL1, stream, offset, actual);
        return Ok(()), [];
      }
      var found, idx := BinarySearchBy(pages, offset);
      LandingFacts(stream, offset, found, idx);
      var k := LandingPage(found, idx);
      var filled: nat := 0;
      NothingWarmed(stream, offset, actual, k);
      while k < |pages|
        invariant k <= |pages| == |img.Recs(stream)|
        invariant Valid()
        invariant filled == Reach(offset, actual, PagePos(stream, k))
        invariant WarmedTo(old(cacheL1), cacheL1, stream, offset, actual, k, 0, warmed)
      {
        EntryFacts(stream, k);
        NextPage(stream, k);
        if filled == actual || pages[k].startLogical > offset + actual {
          break;
        }
        var page := GetPage(pages[k], stream, k);
        match page {
          case Err(e) => return Err(e), warmed;
          case Ok(blocks) =>
            filled, warmed := WarmPage(stream, k, pages[k], blocks, offset, actual, filled, old(cacheL1), warmed);
        }
        k := k + 1;
      }
      AllWarmed(old(cacheL1), cacheL1, stream, offset, actual, k, warmed);
      return Ok(()), warmed;
    }

    lemma NothingWanted(c: Sharded<BlockKey, Bytes>, s: Stream, off: nat)
      ensures Warmed(c, c, s, off, 0, [])
    {
    }

    lemma NoPageWanted(c: Sharded<BlockKey, Bytes>, s: Stream, off: nat, n: nat)
      requires img.Recs(s) == []
      ensures Warmed(c, c, s, off, n, [])
    {
    }

    /** The background task: warms the next four blocks' worth of bytes and frees the slot, whatever happened. */
    method PrefetchTask(stream: Stream, nextOffset: nat) returns (ghost warmed: seq<(nat, nat)>)
      requires Valid()
      modifies this`cacheL1, this`pageCache, this`inFlight
      ensures Valid() && !inFlight
      ensures Warmed(old(cacheL1), cacheL1, stream, nextOffset,
                     if nextOffset < Size(stream) then Min(blockSize * 4, Size(stream) - nextOffset) else 0, warmed)
    {
      hide BlocksOk, PagesOk, IndexOk, Linked, Warmed;
      var r;
      r, warmed := WarmBlocks(stream, nextOffset, blockSize * 4);
      ClearInFlight();
    }
  }
}
