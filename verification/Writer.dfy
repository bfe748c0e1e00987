// The archive writer itself: an object whose calls follow the steps of WriterModel.
module Writer {
  import opened Common
  import opened Format
  import opened DedupTable
  import opened Index
  import WriterModel
  import WriterRuns

  type Config = WriterModel.Config
  type WriterState = WriterModel.WriterState

  class ArchiveWriter {
    const cfg: Config
    var out: Bytes
    var currentOffset: nat
    var master: MasterIndex
    var globalBlockIdx: nat
    var dedupMap: StandardHashTable
    var hashBuf: Hash
    var page: seq<BlockInfo>
    var pageStartBlock: nat
    var pageStartLogical: nat
    var currentLogicalPos: nat
    var isMain: bool
    var streamActive: bool
    var dictOffset: Option<nat>
    var dictLen: Option<nat>
    ghost var history: WriterModel.History

    /** All fields as one value. */
    ghost function State(): WriterState
      reads this, dedupMap
    {
      WriterModel.WriterState(
        out, currentOffset, master, globalBlockIdx, dedupMap.entries, hashBuf,
        page, pageStartBlock, pageStartLogical, currentLogicalPos, isMain, streamActive,
        dictOffset, dictLen, history)
    }

    ghost predicate Valid()
      reads this, dedupMap
    {
      cfg.codec.Lawful() && WriterModel.Ready(cfg, State())
    }

    lemma StateFacts()
      ensures State().streamActive == streamActive
      ensures State().currentLogicalPos == currentLogicalPos
    {
    }

    /** The bytes handed to stream `s` so far. */
    ghost function Written(s: Stream): Bytes
      reads this
    {
      history.Content(s)
    }

    constructor (cfg: Config)
      requires cfg.codec.Lawful()
      ensures this.cfg == cfg && Valid() && fresh(dedupMap)
      ensures State() == WriterModel.Initial()
    {
      this.cfg := cfg;
      out := Zeros(HEADER_SIZE);
      currentOffset := HEADER_SIZE;
      master := EMPTY_MASTER;
      globalBlockIdx := 0;
      dedupMap := new StandardHashTable();
      hashBuf := ZERO_HASH;
      page := [];
      pageStartBlock, pageStartLogical, currentLogicalPos := 0, 0, 0;
      isMain, streamActive := true, false;
      dictOffset, dictLen := None, None;
      history := WriterModel.EMPTY_HISTORY;
      new;
      hide WriterModel.Ready, Codec.Lawful;
      assert State() == WriterModel.Initial();
      hide WriterModel.Initial, State;
      WriterModel.InitialReady(cfg);
    }

    /** Appends to the file; nothing already in it changes. */
    method WriteAll(raw: Bytes)
      modifies this`out
      ensures out == old(out) + raw
    {
      out := out + raw;
    }

    method WriteDictionary(dict: Bytes)
      requires Valid()
      modifies this
      ensures Valid() && dedupMap == old(dedupMap)
      ensures State() == WriterRuns.Apply(cfg, old(State()), WriterRuns.Dictionary(dict))
      ensures dictOffset == Some(old(|out|)) && out == old(out) + dict
      ensures WriterRuns.DictAt(State(), Some(dict))
    {
      hide WriterModel.Ready, Codec.Lawful;
      WriterRuns.OffsetIsLength(cfg, State());
      WriterModel.DictionaryReady(cfg, State(), dict);
      WriteAll(dict);
      dictOffset := Some(currentOffset);
      dictLen := Some(AsU32(|dict|));
      currentOffset := currentOffset + |dict|;
      assert out[dictOffset.value..dictOffset.value + |dict|] == dict;
    }

    /** A stream that promises more blocks than the table holds starts with an empty table. */
    method SizeTable(totalSize: nat)
      modifies this`dedupMap, this`history
      ensures dedupMap == old(dedupMap) || fresh(dedupMap)
      ensures var reset := totalSize > 0 && cfg.blockSize > 0 && totalSize / cfg.blockSize > |old(dedupMap.entries)|;
        State() == if reset then old(State()).(dedup := map[], history := old(history).(stored := map[]))
          else old(State())
    {
      if totalSize > 0 && cfg.blockSize > 0 {
        var estimatedBlocks := totalSize / cfg.blockSize;
        var n := dedupMap.Len();
        if estimatedBlocks > n {
          dedupMap := new StandardHashTable();
          history := history.(stored := map[]);
        }
      }
    }

    method Declare(main: bool, totalSize: nat)
      modifies this`master
      ensures State() == old(State()).(master := old(master).Grow(WriterRuns.StreamOf(main), totalSize))
    {
      if main {
        master := master.(mainSize := master.mainSize + totalSize);
      } else {
        master := master.(auxiliarySize := master.auxiliarySize + totalSize);
      }
    }

    /** Opens an empty page at stream position `start`. */
    method StartPage(start: nat)
      modifies this`page, this`pageStartBlock, this`pageStartLogical, this`currentLogicalPos, this`history
      ensures State() == old(State()).(
        page := [], pageStartBlock := globalBlockIdx, pageStartLogical := start, currentLogicalPos := start,
        history := old(history).(bounds := [start]))
    {
      page := [];
      pageStartBlock := globalBlockIdx;
      pageStartLogical := start;
      currentLogicalPos := start;
      history := history.(bounds := [start]);
    }

    /** Begins or resumes a stream: soundly exactly if no page was left open and all declared bytes have come. */
    method BeginStream(main: bool, totalSize: nat)
      requires Valid()
      modifies this
      ensures Valid() <==> WriterModel.CanBegin(old(State()), WriterRuns.StreamOf(main))
      ensures streamActive && (dedupMap == old(dedupMap) || fresh(dedupMap))
      ensures State() == WriterRuns.Apply(cfg, old(State()), WriterRuns.Begin(main, totalSize))
    {
      hide WriterModel.Ready, Codec.Lawful;
      WriterModel.BeginReady(cfg, State(), main, totalSize);
      OpenStream(main, totalSize);
    }

    method OpenStream(main: bool, totalSize: nat)
      modifies this
      ensures dedupMap == old(dedupMap) || fresh(dedupMap)
      ensures State() == WriterModel.BeginStream(cfg, old(State()), main, totalSize)
    {
      isMain := main;
      streamActive := true;
      SizeTable(totalSize);
      var streamStart := if main then master.mainSize else master.auxiliarySize;
      StartPage(streamStart);
      Declare(main, totalSize);
    }

    /** Serializes the open page and appends it to the file. */
    method AppendPage() returns (entry: PageEntry)
      modifies this`out, this`currentOffset
      ensures var raw := cfg.codec.encodePage(page);
        && entry == PageEntry(old(currentOffset), AsU32(|raw|), pageStartBlock, pageStartLogical)
        && State() == old(State()).(out := old(out) + raw, currentOffset := old(currentOffset) + |raw|)
    {
      var pageBuf := cfg.codec.encodePage(page);
      var pOff := currentOffset;
      WriteAll(pageBuf);
      currentOffset := currentOffset + |pageBuf|;
      entry := PageEntry(pOff, AsU32(|pageBuf|), pageStartBlock, pageStartLogical);
    }

    /** Serializes the open page, appends it, lists it in the master index and opens the next one. */
    method FlushPage()
      modifies this
      ensures dedupMap == old(dedupMap)
      ensures State() == WriterModel.FlushPage(cfg, old(State()))
    {
      ghost var st := State();
      var entry := AppendPage();
      ListPage(entry, st.OpenPage());
      StartPage(currentLogicalPos);
    }

    /** Lists a page in the master index of the current stream. */
    method ListPage(entry: PageEntry, ghost rec: PageRec)
      modifies this`master, this`history
      ensures State() == old(State()).(
        master := old(master).AddPage(WriterRuns.StreamOf(isMain), entry),
        history := old(history).AddRec(WriterRuns.StreamOf(isMain), rec))
    {
      history := history.AddRec(WriterRuns.StreamOf(isMain), rec);
      if isMain {
        master := master.(mainPages := master.mainPages + [entry]);
      } else {
        master := master.(auxiliaryPages := master.auxiliaryPages + [entry]);
      }
    }

    /** Lists one block, standing for contents `d`, in the open page; a full page is flushed. */
    method PushBlock(b: BlockInfo, ghost d: Bytes)
      modifies this
      ensures dedupMap == old(dedupMap)
      ensures State() == WriterModel.PushBlock(cfg, old(State()), b, d)
    {
      history := history.AddData(State().Current(), d).(bounds := history.bounds + [currentLogicalPos + b.logicalLen]);
      page := page + [b];
      globalBlockIdx := globalBlockIdx + 1;
      currentLogicalPos := currentLogicalPos + b.logicalLen;
      assert State() == WriterModel.Push(old(State()), b, d);
      if |page| >= ENTRIES_PER_PAGE {
        FlushPage();
      }
    }

    /** The offset of contents with this hash: an earlier one, or the end of the file, where `raw` is then put. */
    method StoreOnce(hash: Hash, raw: Bytes, ghost d: Bytes) returns (offset: nat)
      modifies this, dedupMap
      ensures dedupMap == old(dedupMap)
      ensures (State(), offset) == WriterModel.StoreOnce(old(State()), hash, raw, d)
      ensures hash in old(dedupMap.entries) ==> out == old(out)
    {
      var existing := dedupMap.Get(hash);
      if existing.Some? {
        offset := existing.value;
      } else {
        offset := currentOffset;
        var _ := dedupMap.Insert(hash, offset);
        history := history.(stored := history.stored[hash := d]);
        WriteAll(raw);
        currentOffset := currentOffset + AsU32(|raw|);
      }
    }

    /** Compresses, encrypts or deduplicates, and stores one chunk. */
    method WriteBlock(chunk: Bytes, blockIdx: nat) returns (info: BlockInfo)
      requires blockIdx == globalBlockIdx
      modifies this, dedupMap
      ensures dedupMap == old(dedupMap)
      ensures (State(), info) == WriterModel.WriteBlock(cfg, old(State()), chunk)
    {
      var compressed := cfg.codec.compress(chunk);
      var finalData := compressed;
      if cfg.encrypted {
        finalData := cfg.codec.encrypt(compressed, blockIdx);
      }
      var checksum := cfg.codec.crc(finalData);
      var offset;
      if cfg.encrypted {
        history := history.(nonces := history.nonces + [blockIdx]);
        offset := currentOffset;
        WriteAll(finalData);
        currentOffset := currentOffset + AsU32(|finalData|);
      } else {
        hashBuf := cfg.codec.hash(chunk);
        offset := StoreOnce(hashBuf, finalData, chunk);
      }
      info := BlockInfo(offset, AsU32(|finalData|), AsU32(|chunk|), checksum, hashBuf);
    }

    method WriteParentRef(hash: Hash, logicalLen: nat, ghost d: Bytes)
      requires Valid() && streamActive
      requires hash == cfg.codec.hash(d) && logicalLen == |d| < U32_LIMIT
      requires d in cfg.codec.universe
      modifies this
      ensures Valid() && dedupMap == old(dedupMap)
      ensures State() == WriterRuns.Apply(cfg, old(State()), WriterRuns.Delegate(d))
    {
      hide WriterModel.Ready, Codec.Lawful;
      WriterModel.DescriptorsFit(cfg, d);
      WriterModel.PushBlockReady(cfg, State(), WriterModel.ParentBlock(hash, logicalLen), d);
      PushBlock(BlockInfo(BLOCK_OFFSET_PARENT, 0, logicalLen, 0, hash), d);
    }

    /**
     Adds `data` to the active stream: zeros become a descriptor only, contents known to the parent a reference,
     contents seen before an offset, and anything else bytes at the end of the file.
     */
    method WriteDataBlock(data: Bytes)
      requires Valid() && streamActive && WriterModel.Storable(cfg, State(), data)
      modifies this, dedupMap
      ensures Valid() && streamActive && dedupMap == old(dedupMap)
      ensures State() == WriterRuns.Apply(cfg, old(State()), WriterRuns.Data(data))
      ensures Written(State().Current()) == old(Written(State().Current())) + data
    {
      hide WriterModel.Ready, Codec.Lawful;
      WriterModel.DataBlockReady(cfg, State(), data);
      WriterRuns.ApplyLedger(cfg, State(), WriterRuns.Data(data));
      KeepsStreamActive(cfg, State(), data);
      var chunkLen := AsU32(|data|);
      if WriterModel.IsZeroChunk(data) {
        PushBlock(WriterModel.ZeroBlock(chunkLen), data);
      } else {
        if cfg.parentIndex.Some? {
          var hash := cfg.codec.hash(data);
          if hash in cfg.parentIndex.value {
            PushBlock(WriterModel.ParentBlock(hash, chunkLen), data);
            return;
          }
        }
        var info := WriteBlock(data, globalBlockIdx);
        PushBlock(info, data);
      }
    }

    /** Adds a chunk that a worker has compressed and hashed. */
    method WritePrecompressedBlock(compressed: Bytes, hash: Hash, logicalLen: nat, ghost d: Bytes)
      requires Valid() && streamActive && !cfg.encrypted && WriterModel.Storable(cfg, State(), d)
      requires compressed == cfg.codec.compress(d) && hash == cfg.codec.hash(d) && logicalLen == |d|
      modifies this, dedupMap
      ensures Valid() && streamActive && dedupMap == old(dedupMap)
      ensures State() == WriterRuns.Apply(cfg, old(State()), WriterRuns.Precompressed(d))
      ensures Written(State().Current()) == old(Written(State().Current())) + d
    {
      hide WriterModel.Ready, Codec.Lawful;
      WriterModel.PrecompressedReady(cfg, State(), d);
      WriterRuns.ApplyLedger(cfg, State(), WriterRuns.Precompressed(d));
      KeepsStreamActivePre(cfg, State(), d);
      if cfg.parentIndex.Some? {
        if hash in cfg.parentIndex.value {
          PushBlock(WriterModel.ParentBlock(hash, logicalLen), d);
          return;
        }
      }
      var checksum := cfg.codec.crc(compressed);
      var finalLen := AsU32(|compressed|);
      var offset := StoreOnce(hash, compressed, d);
      PushBlock(BlockInfo(offset, finalLen, logicalLen, checksum, hash), d);
    }

    static lemma KeepsStreamActive(cfg: Config, st: WriterState, d: Bytes)
      ensures WriterRuns.Apply(cfg, st, WriterRuns.Data(d)).streamActive == st.streamActive
    {
    }

    static lemma KeepsStreamActivePre(cfg: Config, st: WriterState, d: Bytes)
      ensures WriterRuns.Apply(cfg, st, WriterRuns.Precompressed(d)).streamActive == st.streamActive
    {
    }

    method EndStream()
      requires Valid()
      modifies this
      ensures Valid() && !streamActive && dedupMap == old(dedupMap)
      ensures State() == WriterRuns.Apply(cfg, old(State()), WriterRuns.End)
    {
      hide WriterModel.Ready, Codec.Lawful;
      WriterModel.EndReady(cfg, State());
      if page != [] {
        FlushPage();
      }
      streamActive := false;
    }

    method FlushStream()
      requires Valid()
      modifies this
      ensures Valid() && streamActive == old(streamActive) && dedupMap == old(dedupMap)
      ensures State() == WriterRuns.Apply(cfg, old(State()), WriterRuns.Flush)
    {
      hide WriterModel.Ready, Codec.Lawful;
      WriterModel.FlushStreamReady(cfg, State());
      if streamActive && page != [] {
        FlushPage();
      }
    }

    static lemma ClosePlace(cfg: Config, st: WriterState)
      ensures WriterRuns.Close(cfg, st).dictOffset == st.dictOffset && WriterRuns.Close(cfg, st).dictLen == st.dictLen
    {
    }

    static lemma HeaderOfFinal(cfg: Config, st: WriterState, parentPaths: seq<Bytes>, metadata: Option<Bytes>)
      requires cfg.codec.Lawful() && WriterModel.Ready(cfg, st)
      requires WriterRuns.Finalizable(cfg, WriterRuns.Close(cfg, st), parentPaths, metadata)
      ensures var c, file := WriterRuns.Close(cfg, st), WriterRuns.Finalize(cfg, st, parentPaths, metadata);
        && |file| >= HEADER_SIZE && cfg.codec.decodeHeader(file[..HEADER_SIZE]).Some?
        && (var h := cfg.codec.decodeHeader(file[..HEADER_SIZE]).value;
            && WriterRuns.Configured(cfg, parentPaths, h) && WriterRuns.FlagsPages(h, c.master)
            && h.dictionaryOffset == st.dictOffset && h.dictionaryLength == st.dictLen)
        && forall dict {:trigger WriterRuns.DictAt(st, dict)} :: WriterRuns.DictAt(st, dict) ==>
          WriterRuns.HeaderSays(cfg, file, parentPaths, dict, metadata, c.master)
    {
      hide WriterModel.Ready, Codec.Lawful, WriterModel.StreamWritten, WriterModel.FlushPage, WriterRuns.Finalizable;
      hide WriterRuns.Finalize, WriterRuns.DictAt, WriterRuns.HeaderSays, WriterRuns.Close;
      ClosePlace(cfg, st);
      WriterRuns.FinalFileHolds(cfg, st, parentPaths, metadata);
      forall dict {:trigger WriterRuns.DictAt(st, dict)} | WriterRuns.DictAt(st, dict)
        ensures WriterRuns.HeaderSays(cfg, WriterRuns.Finalize(cfg, st, parentPaths, metadata), parentPaths, dict,
          metadata, WriterRuns.Close(cfg, st).master)
      {
        WriterRuns.FinalHeaderSays(cfg, st, parentPaths, metadata, dict);
      }
    }

    /**
     Writes master index, metadata and header. The result is a file from which the reader can recover the index,
     the metadata and every byte handed to either stream; its header says what was configured, which parents were
     named, and where dictionary and metadata lie.
     */
    method Finalize(parentPaths: seq<Bytes>, metadata: Option<Bytes>) returns (file: Bytes)
      requires Valid()
      requires WriterRuns.Finalizable(cfg, WriterRuns.Close(cfg, State()), parentPaths, metadata)
      modifies this
      ensures file == out == WriterRuns.Finalize(cfg, old(State()), parentPaths, metadata)
      ensures var c := WriterRuns.Close(cfg, old(State()));
        WriterRuns.FileHolds(cfg, file, WriterRuns.FinalHeader(cfg, c, parentPaths, metadata), c.master, c.history)
      ensures |file| >= HEADER_SIZE && cfg.codec.decodeHeader(file[..HEADER_SIZE]).Some?
      ensures var h := cfg.codec.decodeHeader(file[..HEADER_SIZE]).value;
        && WriterRuns.Configured(cfg, parentPaths, h) && WriterRuns.FlagsPages(h, master)
        && h.dictionaryOffset == old(dictOffset) && h.dictionaryLength == old(dictLen)
      ensures forall dict {:trigger WriterRuns.DictAt(old(State()), dict)} :: WriterRuns.DictAt(old(State()), dict) ==>
        WriterRuns.HeaderSays(cfg, file, parentPaths, dict, metadata, master)
      ensures forall s: Stream {:trigger old(Written(s))} ::
        WriterRuns.Close(cfg, old(State())).history.Content(s) == old(Written(s))
    {
      hide WriterModel.Ready, Codec.Lawful, WriterRuns.FileHolds, WriterModel.FlushPage, WriterRuns.Finalizable;
      hide WriterRuns.HeaderSays, WriterRuns.DictAt, WriterRuns.Configured, WriterRuns.FlagsPages;
      ghost var st := State();
      WriterRuns.FinalFileHolds(cfg, st, parentPaths, metadata);
      WriterRuns.CloseReady(cfg, st);
      HeaderOfFinal(cfg, st, parentPaths, metadata);
      if streamActive {
        EndStream();
      }
      ghost var c := WriterRuns.Close(cfg, st);
      var indexOffset := currentOffset;
      var indexBytes := cfg.codec.encodeMaster(master);
      WriteAll(indexBytes);
      currentOffset := currentOffset + |indexBytes|;
      var metaOffset, metaLen := None, None;
      if metadata.Some? {
        metaOffset := Some(currentOffset);
        WriteAll(metadata.value);
        currentOffset := currentOffset + |metadata.value|;
        metaLen := Some(AsU32(|metadata.value|));
      }
      var header := Header(
        MAGIC_BYTES, FORMAT_VERSION, cfg.blockSize, indexOffset, parentPaths, dictOffset, dictLen,
        metaOffset, metaLen, None, None, if cfg.encrypted then Some(cfg.key) else None, cfg.compression,
        master.mainPages != [], master.auxiliaryPages != [], cfg.variableBlocks, cfg.cdcParams);
      assert header == WriterRuns.FinalHeader(cfg, c, parentPaths, metadata);
      assert out == c.out + WriterRuns.Tail(cfg, c, metadata);
      var headerBytes := cfg.codec.encodeHeader(header);
      out := WriterRuns.Overwrite(out, headerBytes);
      file := out;
    }
  }
}
