# Hexz archives: a verified model

Hexz packs byte streams into a single append-only file of compressed, deduplicated and optionally encrypted blocks,
and reads any byte range of them back. This project models that program in Dafny and proves what it is for: every
read returns what was packed. It follows the code step by step where the code works step by step (writer, reader,
caches, extraction, push, inode map, byte transforms are classes and loops over arrays and fields), and treats its
threads as state machines over every interleaving.

## How it is put together

- `Common`, `Format`: byte strings, results, on-disk records. Compressor, cipher, hash, checksum and serializers are
  the fields of `Codec`, constrained by `Codec.Lawful` only: decompression and decryption invert, values whose fields
  keep their widths decode again whatever follows them, such a page encodes to fewer than 2^32 bytes, hashes have 32
  bytes and checksums 32 bits, and the hash has no collision and is never null on `universe`, the set of block
  contents in use.
- `Bincode`: the byte layout of header, pages and master index. It has the laws asked of the serializers, so that these
  are not assumptions; what remains assumed is compressor, cipher, hash and checksum. `Witness` gives a codec that meets
  all laws, and a concrete archive that can be written but not opened.
- `Index`: pages, their chain, the binary search over them.
- `WriterModel`, `WriterRuns`: the writer as a function from state to state, its invariant, and every permitted
  sequence of calls. `Writer` and `DedupTable` are the objects; each method is proved equal to its step. `Chunks` says
  what one chunk adds to a file; `Layout` and `Nonces` prove further invariants over whole runs.
- `Image`: what an opened file denotes, and `ReadSpec`, the exact meaning of any read, past the end and over parents
  included. `Reader` is the archive object: page walk, work items, the pool that executes them, caches, hash index,
  prefetch. `Lru` holds the caches; `Prefetch` lets readers, prefetch tasks and evictions interleave, and
  `ConcurrentReads` proves that a read among them still returns `ReadSpec`.
- `Recovery`: what comes back of a run: the ledger of its calls, in which a delegated chunk that no parent holds counts
  as zeros. `Bridge`, `RoundTrip`: from the writer's file to the reader, over any parents. `Thin`: the parent index,
  and which archives are fit to be parents. `ThinOverThin`: where thin archives lose data.
- `Pipeline`, `PackStream`: the parallel packing pipeline and why it reads back as the serial path does.
  `Unordered`: the variant without reordering. `Directory`: packing and extracting directories and single files.
- `Transform`, `Push`, `Inodes`: byte shuffling, parents-first upload, the mounted archive's inode map.

## What the proofs found

- A thin archive over a parent that is itself thin loses data. The parent index lists every hash the parent's main
  stream mentions, references included; the parent's hash index lists only blocks stored in its own file. The chunk
  is delegated, does not resolve, and reads as zeros (`ThinOverThin.ReadThroughThinParent`). The exact condition:
  every read returns what was written if and only if each delegated chunk is zeros or held by a parent
  (`RoundTrip.ReadsAsWrittenIff`).
- `process_stream_parallel` drops a worker's compression error, so it can report success after writing only the chunks
  before the first one that does not compress (`Pipeline.FinishedRun`, `Pipeline.SilentLoss`).
- `process_chunks_parallel` with no workers reports success without delivering anything when the chunks fit in the
  channel (`Unordered.SilentSuccess`), and never returns when they do not. Success means that all was delivered if and
  only if there is a worker, no chunk, or no room for the chunks (`Unordered.SuccessMeansDeliveredIff`); every call
  returns if and only if there is a worker or room for them (`Unordered.ReturnsIff`).
- An archive whose index and metadata together exceed 64 MiB can be written but not opened: the reader takes
  everything after the index offset for the index (`RoundTrip.BuiltOpens`, `Witness.WrittenButNotOpened`).
- Beginning a stream while a page of another is open, or resuming one that has not received its declared size, breaks
  the index; the exact condition is `WriterModel.BeginReady`.
- A root-level file named `memory` is packed into the auxiliary stream and extracted from the main one; it survives
  exactly when the main stream begins with its content (`Directory.AuxiliarySurvivesIff`).
- The documentation in `format/index/mod.rs` puts a descriptor at 16 or 20 bytes and a full page at 64 KB; with its
  hash a descriptor takes 52 bytes (`Bincode.BlockInverts`), and a full page 208 KiB.
- On a cycle of parent references the remote cannot stay closed under parents during a push, though it is closed
  again after a successful one: closed after every upload if and only if no set of the archives sent is cyclic
  (`Push.PushTarget`; `Push.PushCycle` is a push of two archives that refer to each other).
- A manifest in which one path lies below another ("a" and "a/b", in either order) mounts with a file that no walk from
  the root reaches; the maps agree, and walking agrees with asking, if and only if no listed path is a proper prefix of
  another (`Inodes.InodeMap.FromManifest`). A rename does not touch directory links, so lookups keep answering for the
  old name (`Inodes.InodeMap.RenameIsNotSeen`).

## Model

| member | source | states |
|---|---|---|
| RoundTrip.WriteThenRead | crates/core/src/api/file.rs:520-534 | For every permitted sequence of writer calls, with or without a parent index, over any sound parents, for every stream, offset, length, cache size and placement: the read returns what the streams denote, which is that slice of what the stream was given, cut or zero-padded to its declared size, when every delegated chunk is held |
| RoundTrip.ReadsAsWrittenIff | crates/core/src/api/file.rs:604-628 | All reads return the bytes written if and only if each delegated chunk is zeros or held by a parent |
| RoundTrip.BuiltFile | crates/ops/src/archive_writer.rs:422-469 | Every block of the finished file reads, over any sound parents; its streams have the lengths and sizes of the ledger, and its bytes if and only if the parents hold what was delegated |
| RoundTrip.BuiltOpens | crates/core/src/format/index/mod.rs:483-502 | It opens with index and metadata as written if and only if these keep within 64 MiB and there is a key if it is encrypted; otherwise the error tells which of the two |
| RoundTrip.OpenFinished | crates/core/src/api/file.rs:256-328 | The same of the reader object: a finished encrypted file opened without a key is `EncryptionError`, an oversized index `FormatError`, and nothing else fails |
| RoundTrip.BuiltHeader | crates/ops/src/archive_writer.rs:442-465 | The header of the file of any run, field by field: parents, block size, compression, chunking and key as configured; the dictionary given last and the metadata lie where it says, or it names none; a flag is set for exactly the streams with pages |
| RoundTrip.Perform | crates/ops/src/archive_writer.rs:252-419 | Each public call on the object is the corresponding step, under the calling discipline |
| WriterRuns.RunReady | crates/ops/src/archive_writer.rs:261-419 | The invariant survives every permitted run; the streams hold what a ledger of the calls says |
| WriterRuns.FinalFileHolds | crates/ops/src/archive_writer.rs:422-469 | Rewriting the header region disturbs no block, page or index; the index decodes to what was written |
| WriterRuns.FinalHeaderSays | crates/ops/src/archive_writer.rs:442-465 | The header found in the file says what was configured, which parents were named, and where dictionary and metadata lie |
| WriterModel.PushKeepsInv | crates/ops/src/archive_writer.rs:303-336 | A block appended to the open page keeps page bounds, indices and contents in step |
| WriterModel.FlushKeepsInv | crates/ops/src/archive_writer.rs:471-496 | A flushed page continues its stream's chain without a gap, in bytes and in block indices |
| WriterModel.StoreOnceSound | crates/ops/src/write.rs:608-644 | Dedup soundness: the offset used, new or reused, holds the compressed form of this very chunk |
| WriterModel.HitSound | crates/ops/src/archive_writer.rs:351-370 | A dedup hit points at bytes already in the file that are the compressed form of the data with that hash |
| WriterModel.DataBlockReady | crates/ops/src/archive_writer.rs:290-336 | Zero, delegated, duplicate, plain and encrypted chunks all leave a descriptor that reads back |
| WriterModel.EncryptedBlockSound | crates/ops/src/write.rs:584-607 | An encrypted block is sealed under the next unused index |
| WriterModel.PrecompressedReady | crates/ops/src/archive_writer.rs:339-381 | So do chunks that arrive compressed and hashed |
| WriterModel.BeginReady | crates/ops/src/archive_writer.rs:261-287 | Beginning or resuming a stream, with or without a new dedup table, keeps the invariant if and only if no page is left open and the stream has received its declared size |
| WriterModel.EndReady | crates/ops/src/archive_writer.rs:404-410 | Ending a stream flushes what is open |
| WriterModel.InitialReady | crates/ops/src/archive_writer.rs:217-249 | A new writer satisfies the invariant |
| Chunks.ChunkIsHandled | crates/ops/src/archive_writer.rs:290-336 | What each chunk adds to the file: nothing but a descriptor for zeros, for what a parent lists and for what is stored already; else exactly its compressed, or compressed and sealed, bytes; then its page, if that makes 4096 blocks |
| Chunks.PrecompressedIsHandled | crates/ops/src/archive_writer.rs:339-381 | The same for chunks that arrive compressed and hashed |
| Chunks.StoredOnce | crates/ops/src/write.rs:608-644 | Over any run that keeps the table, a chunk written twice is stored once, and both descriptors are the same |
| Chunks.LengthCast | crates/ops/src/archive_writer.rs:290-296 | Lengths are cast to 32 bits: a chunk of zeros leaves the index in order if and only if it is below 4 GiB |
| Chunks.PageIsWritten | crates/ops/src/archive_writer.rs:404-419 | Flushing or ending a stream writes and lists the open page, if there is one, and leaves none open |
| Writer.ArchiveWriter.WriteDataBlock | crates/ops/src/archive_writer.rs:290-336 | New state is the model's step; the current stream grows by exactly the chunk |
| Writer.ArchiveWriter.WritePrecompressedBlock | crates/ops/src/archive_writer.rs:339-381 | The same for a chunk compressed by a worker |
| Writer.ArchiveWriter.WriteBlock | crates/ops/src/write.rs:584-645 | Compress, encrypt or deduplicate, store: the model's step and descriptor |
| Writer.ArchiveWriter.WriteParentRef | crates/ops/src/archive_writer.rs:384-401 | A reference to any hash is listed; nothing is stored |
| Writer.ArchiveWriter.BeginStream | crates/ops/src/archive_writer.rs:261-287 | The model's step, fresh table when the stream promises more blocks than the old one holds; the object stays valid exactly under the condition above |
| Writer.ArchiveWriter.FlushPage | crates/ops/src/archive_writer.rs:471-496 | The model's step |
| Writer.ArchiveWriter.EndStream | crates/ops/src/archive_writer.rs:404-410 | The model's step |
| Writer.ArchiveWriter.FlushStream | crates/ops/src/archive_writer.rs:414-419 | The model's step |
| Writer.ArchiveWriter.WriteDictionary | crates/ops/src/archive_writer.rs:252-258 | The dictionary lies at the noted offset |
| Writer.ArchiveWriter.Finalize | crates/ops/src/archive_writer.rs:422-469 | The file holds header, index, metadata and every byte of both streams; its header names the parents given and says what was configured, where dictionary and metadata lie, and which streams there are |
| DedupTable.StandardHashTable.Insert | crates/core/src/algo/dedup/hash_table/mod.rs:155-158 | The table maps the hash to the offset and hands back the previous one |
| DedupTable.StandardHashTable.Get | crates/core/src/algo/dedup/hash_table/mod.rs:161-164 | The offset stored, or none |
| Layout.RunLaidOut | crates/ops/src/archive_writer.rs:217-496 | Dictionary, blocks and pages tile the file behind the header without gap or overlap, and every descriptor points at one tile |
| Layout.BlocksApart | crates/ops/src/archive_writer.rs:422-495 | Two stored blocks share all bytes or none, and none with an index page |
| Nonces.NonceAgreement | crates/core/src/api/file.rs:1054-1055 | No index reaches the cipher twice; no two blocks of either stream share one; each encrypted block was sealed under the index the reader rebuilds |
| Nonces.FlushNumbered | crates/ops/src/archive_writer.rs:478-493 | Pages of the two streams take disjoint index ranges |
| Bridge.KindIsRecovered | crates/core/src/api/file.rs:600-633 | The reader's three-way test finds exactly the kind the writer chose |
| Bridge.WrittenReads | crates/core/src/api/file.rs:1042-1062 | Every written block passes its checksum and yields its contents; a reference that no parent holds yields zeros |
| Bridge.OnePagePerPlace | crates/core/src/api/file.rs:972-992 | The page cache key, a file offset, names one page |
| Bridge.FileIsReadable | crates/ops/src/archive_writer.rs:422-469 | A finished file over any sound parents is readable throughout, as the bytes that come back of it |
| Recovery.ClosedTracks | crates/ops/src/archive_writer.rs:296-301 | Over every permitted run the ledger of what comes back describes both streams of the file, block by block |
| Recovery.RecoveredIff | crates/core/src/api/file.rs:604-628 | What comes back is what was written if and only if each delegated, non-zero chunk is held by a parent |
| Bridge.ApplyAppends | crates/ops/src/archive_writer.rs:252-496 | No call changes a byte already written |
| Bincode.BlockInverts | crates/core/src/format/index/mod.rs:186-206 | A descriptor takes 52 bytes and reads back, whatever follows it |
| Bincode.PageInverts | crates/core/src/format/index/mod.rs:563-566 | A page reads back, trailing bytes ignored |
| Bincode.MasterInverts | crates/core/src/format/index/mod.rs:425-441 | So does the master index, which the reader loads together with the metadata behind it |
| Bincode.HeaderInverts | crates/core/src/format/header.rs:69-78 | So does the header, zero padding behind it ignored |
| Bincode.PageLayout | crates/core/src/format/index/mod.rs:186-206 | Where each field of each descriptor of a page lies, as little-endian digits |
| Bincode.MasterLayout | crates/core/src/format/index/mod.rs:425-441 | The same for the entries and sizes of the master index |
| Bincode.HeaderLayout | crates/core/src/format/header.rs:11-22 | Magic, version, block size, index offset and number of parents in the first 28 bytes |
| Bincode.BincodeIsLawful | crates/ops/src/archive_writer.rs:428-473 | The laws asked of the serializers hold of the program's own |
| Witness.WrittenButNotOpened | crates/core/src/format/index/mod.rs:483-502 | No calls and 64 MiB of metadata: the archive is written, and opening it is an error |
| Index.BinarySearchBy | crates/core/src/api/file.rs:468-471 | A match, or the insertion point |
| Index.LandingIsRight | crates/core/src/api/file.rs:796-799 | The landing page starts at or before the offset and no later page starts before it |
| Index.LandingHolds | crates/core/src/api/file.rs:796-799 | It holds the offset, unless it is a page without bytes sitting right there |
| Index.ContainingBlockUnique | crates/core/src/api/file.rs:454-487 | At most one block covers a position |
| Index.IndexIsUnique | crates/core/src/api/file.rs:475-481 | A global index names at most one block of a stream |
| Reader.Archive.GetBlockInfo | crates/core/src/api/file.rs:454-487 | The unique block at a position with its global index; none only past the content or at a page without bytes |
| Reader.Archive.GetPage | crates/core/src/api/file.rs:972-992 | The page of the entry, whether or not it was cached; cached afterwards |
| Reader.Archive.FetchRawBlock | crates/core/src/api/file.rs:1011-1038 | Plaintext or the stored bytes; what is cached stays true |
| Reader.Archive.DecompressAndVerify | crates/core/src/api/file.rs:1042-1062 | Checksum mismatch is an error; otherwise exactly what decryption and decompression give |
| Reader.Archive.ReadBlock | crates/core/src/api/file.rs:368-379 | The block's contents, cached or not |
| Reader.Archive.GetHashIndex | crates/core/src/api/file.rs:382-420 | Exactly the hashes stored in this file, each with a block that stores it |
| Reader.Archive.GetBlockByHash | crates/core/src/api/file.rs:423-429 | A block stored under the hash, if and only if there is one |
| Reader.Archive.IterBlockHashes | crates/core/src/api/file.rs:435-451 | Exactly the hashes of blocks that are neither sparse nor without hash |
| Reader.Archive.CollectQueued | crates/core/src/api/file.rs:630-639 | Tiling is kept when a stored block is queued |
| Reader.Archive.CollectFilled | crates/core/src/api/file.rs:600-628 | Tiling is kept when zeros or a parent's bytes are delivered at once |
| Reader.Archive.CollectWorkItems | crates/core/src/api/file.rs:560-644 | Delivered bytes and queued items tile exactly the part of the request that blocks describe; the early exit is never taken |
| Reader.Archive.DeliverFromParents | crates/core/src/api/file.rs:604-628 | The delegated bytes, from the first parent that stores them |
| Reader.Archive.WalkArithmetic | crates/core/src/api/file.rs:593-598 | The offset in a block never underflows |
| Reader.Archive.ExecuteOne | crates/core/src/api/file.rs:660-676 | Executing one queued item settles its bytes and no others |
| Reader.Archive.ExecuteSerial | crates/core/src/api/file.rs:689-712 | All queued bytes are final |
| Reader.Archive.ExecuteParallel | crates/core/src/api/file.rs:648-686 | The same when pool threads interleave, item by item and byte by byte, in any order |
| Reader.Archive.FallbackFill | crates/core/src/api/file.rs:815-828 | Bytes no block describes come from the first parent covering the position, else zeros |
| Reader.Archive.ReadAtUninitInner | crates/core/src/api/file.rs:751-852 | The target range becomes `ReadSpec`, everything else in the buffer is untouched |
| Reader.Archive.ReadAt | crates/core/src/api/file.rs:520-534 | Cut at the declared size, empty past it, else `ReadSpec`; a read that came upon stored blocks leaves a prefetch task outstanding where prefetching is on |
| Reader.Archive.ReadAtInto | crates/core/src/api/file.rs:537-552 | The whole buffer becomes `ReadSpec` |
| Reader.ZeroFill | crates/core/src/api/file.rs:715-734 | Exactly the range becomes zero |
| Reader.Archive.WarmBlocks | crates/core/src/api/file.rs:862-934 | Exactly the stored blocks that overlap the range are looked up and, where missing, inserted, in order; the cache stays true |
| Reader.Archive.PrefetchTask | crates/core/src/api/file.rs:836-848 | The background task warms four blocks' worth and frees the slot |
| Reader.Archive.TryStart | crates/core/src/cache/prefetch.rs:296-305 | One caller wins the slot; the count goes up exactly then |
| Reader.Archive.ClearInFlight | crates/core/src/cache/prefetch.rs:313-315 | Frees the slot |
| Reader.Archive.Open | crates/core/src/api/file.rs:187-328 | Exactly which files open, with or without a key, and which error each other file gives; index, metadata and settings as found; a valid archive object over a readable image |
| Image.ReadSpecIsCut | crates/core/src/api/file.rs:520-534 | Where blocks cover the declared size, reading is cutting the content |
| Thin.NewParentIndex | crates/ops/src/parent_index.rs:22-30 | Exactly the hashes that some parent's main stream offers |
| Recovery.ResolvesIff | crates/core/src/api/file.rs:605-628 | A reference reads as the delegated chunk if and only if some parent stores its hash or the chunk is zeros |
| Thin.SelfContainedHold | crates/ops/src/parent_index.rs:22-30 | Self-contained parents hold everything their index offers, so whatever a run delegates against it |
| Thin.BuiltIsSound | crates/ops/src/archive_writer.rs:384-401 | Every archive made from non-empty blocks over sound parents, encrypted or not, is a sound parent; a good base if nothing in it was delegated |
| Thin.ThinWriteThenRead | crates/core/src/api/file.rs:604-628 | Packing against the index of good bases and reading: byte for byte what was packed |
| ThinOverThin.ReadThroughThinParent | crates/core/src/api/file.rs:397-400 | Over a thin parent the same chunk reads as zeros |
| ThinOverThin.OfferedNotHeld | crates/core/src/api/file.rs:444-447 | A thin archive offers a hash it does not hold |
| Pipeline.StepInv | crates/ops/src/pack.rs:1428-1524 | Each step of any thread keeps: one place per chunk, first in first out, in-order prefix written, and why threads stop |
| Pipeline.RunInv | crates/ops/src/pack.rs:1428-1524 | So every reachable state has it |
| Pipeline.NeverStuck | crates/ops/src/pack.rs:1430-1540 | Unless all threads have finished, one can move |
| Pipeline.EveryRunEnds | crates/ops/src/pack.rs:1430-1540 | Runs are bounded, and one that cannot go on has finished, also after a write error |
| Pipeline.FinishedRun | crates/ops/src/pack.rs:1493-1548 | What is written: the chunks before the first failure, in order; all of them if and only if none fails. What is returned: the error of the first chunk if it fails in writing, else the reader's error if it got past all chunks, else success |
| Pipeline.SuccessMeansWritten | crates/ops/src/pack.rs:1542-1548 | If every chunk compresses: success exactly if no write and no read fails, and then every chunk is written |
| Pipeline.SilentLoss | crates/ops/src/pack.rs:1535-1540 | A run that reports success and has written nothing |
| PackStream.ProcessStreamSerial | crates/ops/src/pack.rs:1366-1390 | One data block per chunk, in order |
| PackStream.PackChunks | crates/ops/src/pack.rs:1084-1117 | Parallel only when not encrypting; the calls made on either path |
| PackStream.ProcessStream | crates/ops/src/pack.rs:1329-1363 | One input as a stream of its own, begun and ended |
| PackStream.ChunksLedger | crates/ops/src/pack.rs:1366-1524 | Either path hands the stream the chunks, concatenated |
| PackStream.ParallelReadsAsSerial | crates/ops/src/pack.rs:1366-1524 | Serial and parallel archives of the same chunks answer every read alike, over any sound parents, held or not |
| PackStream.PipelineWritesAll | crates/ops/src/pack.rs:1503-1508 | A pipeline without failures leaves exactly the state after those calls |
| Unordered.DeliveredExactlyOnce | crates/ops/src/parallel_pack.rs:117-184 | No chunk is delivered twice; success with a worker means all were, exactly once |
| Unordered.NeverStuck | crates/ops/src/parallel_pack.rs:131-181 | With a worker some thread can move until all have ended, on a channel without room included |
| Unordered.EveryHistoryEnds | crates/ops/src/parallel_pack.rs:131-181 | Every interleaving is bounded, and with a worker one that cannot go on has ended in every thread |
| Unordered.OutcomeIff | crates/ops/src/parallel_pack.rs:160-181 | With a worker a complete run returns success if and only if every chunk packs and is accepted |
| Unordered.ReturnsIff | crates/ops/src/parallel_pack.rs:137-181 | Every complete run returns if and only if there is a worker or the chunks fit in the channel |
| Unordered.SuccessMeansDeliveredIff | crates/ops/src/parallel_pack.rs:131-181 | Success means every chunk was delivered if and only if there is a worker, no chunk, or no room |
| Unordered.SilentSuccess | crates/ops/src/parallel_pack.rs:131-181 | A run without workers that returns success and has delivered nothing |
| Directory.ManifestTiles | crates/ops/src/pack.rs:978-1027 | Manifest ranges are consecutive, cover the main stream and hold the files |
| Directory.PackDirectory | crates/ops/src/pack.rs:918-1081 | The calls made and the manifest, offsets read off the writer's position |
| Directory.ExtractFiles | crates/ops/src/pack.rs:1180-1198 | Each entry gets its range of the main stream |
| Directory.ExtractRaw | crates/ops/src/pack.rs:1203-1215 | The chunked loop rebuilds the whole stream |
| Directory.PackArchive | crates/ops/src/pack.rs:768-909 | Dictionary, streams and manifest of a packed directory or file; the header names the parents and tells where dictionary and manifest lie |
| Directory.PackThenExtract | crates/ops/src/pack.rs:1119-1218 | Packing a directory or a file, against a base or none, and extracting it gives every main-stream file back, but for delegated chunks that no parent holds |
| Directory.FileSurvivesIff | crates/ops/src/pack.rs:1180-1198 | A main-stream file comes back as it was if and only if each chunk is zeros, not listed, or held |
| Directory.AuxiliarySurvivesIff | crates/ops/src/pack.rs:956-958 | A `memory` file survives exactly when the main stream begins with its content |
| Lru.LookupIsLastInserted | crates/core/src/cache/lru.rs:716-731 | Over every run a lookup yields the last inserted value or nothing |
| Lru.ResidentsAreMostRecent | crates/core/src/cache/lru.rs:878-895 | A shard holds exactly its most recently used keys, in order |
| Lru.OccupancyBound | crates/core/src/cache/lru.rs:556-581 | Up to 256, as many entries as distinct keys were used, until the capacity is reached; above, less than 16 more than the capacity |
| Lru.RoomAsAsked | crates/core/src/cache/lru.rs:556-581 | A cache has room for what was asked, and up to 256 for exactly that |
| Lru.FoundIffRecent | crates/core/src/cache/lru.rs:716-731 | A lookup yields the last inserted value exactly when the key is among the most recent that its shard has room for |
| Lru.StillCached | crates/core/src/cache/lru.rs:878-895 | Over every run an inserted key is found while no more distinct keys have been named since than there is room for: the capacity up to 256, a sixteenth of it rounded up, in its shard, above |
| Lru.Sharded.PutValid | crates/core/src/cache/lru.rs:588-598 | A key lives in its own shard only; an insertion changes no other key's value, at most evicts it |
| Lru.ShardedCache.Get | crates/core/src/cache/lru.rs:716-731 | The model's step on the cache's value |
| Lru.ShardedCache.Insert | crates/core/src/cache/lru.rs:878-895 | The model's step on the cache's value |
| Lru.ShardedCache.ForBlocks | crates/core/src/cache/lru.rs:556-581 | No shard for capacity zero, one of exactly that capacity up to 256, else 16 of the least capacity that suffices; all empty |
| Lru.ShardedCache.ForPages | crates/core/src/cache/lru.rs:1009-1034 | The same, with room for one page at least |
| ConcurrentReads.ReadReturnsSpec | crates/core/src/api/file.rs:751-849 | In every interleaving of reads, prefetch tasks and evictions over a readable archive without parents, a finished read returns `ReadSpec`, whichever page the search landed on |
| ConcurrentReads.CachedIsStored | crates/core/src/api/file.rs:972-1038 | What is cached under a block's index is its plaintext, under a page's place that page |
| ConcurrentReads.MissReadsFile | crates/core/src/api/file.rs:1031-1062 | On a miss, what is computed is what decoding, or checking and unsealing, makes of the file's bytes |
| Prefetch.CachesAreInvisible | crates/core/src/api/file.rs:835-849 | Of any access programs: cached entries are true, a finished thread has read what it would alone, at most one prefetch is outstanding |
| Prefetch.StepInv | crates/core/src/api/file.rs:972-1038 | Each atomic action keeps this, the second page lookup included |
| Prefetch.TruthExists | crates/core/src/api/file.rs:972-1038 | Cache keys are unambiguous in a readable archive |
| Prefetch.ActionsFill | crates/core/src/api/file.rs:972-1022 | Whoever is answered with a page leaves it in the page cache; prefetch tasks leave blocks in the block cache, readers do not |
| Transform.ByteShuffle | crates/core/src/algo/transform.rs:15-34 | In place: the buffer becomes its lanes, tail verbatim |
| Transform.ByteUnshuffle | crates/core/src/algo/transform.rs:42-60 | In place: the reverse mapping |
| Transform.ShuffleInverse | crates/core/src/algo/transform.rs:36-60 | Each undoes the other, for every buffer and element size |
| Transform.ShuffleKeepsBytes | crates/core/src/algo/transform.rs:15-60 | Neither loses or invents a byte |
| Transform.ElementByte | crates/core/src/algo/transform.rs:24-28 | Byte j of element i becomes byte i of lane j, and comes from there in unshuffling |
| Transform.LaneBijection | crates/core/src/algo/transform.rs:24-28 | j*count+i is a bijection on the full elements |
| Transform.XorInPlace | crates/core/src/algo/transform.rs:69-74 | Byte-wise exclusive or |
| Transform.XorRestores | crates/core/src/algo/transform.rs:62-74 | A delta applied twice cancels, and leads from one buffer to the other |
| Push.PushArchive | crates/cli/src/cmd/data/push.rs:56-108 | Ends on any graph; what a completed call leaves; succeeds if everything concerned can be sent; keeps closure where no cycle is in progress |
| Push.PushTarget | crates/cli/src/cmd/data/push.rs:49-50 | Succeeds exactly when everything missing below the target can be sent, and has then sent exactly that, each once, and every parent of it is on the remote; remote closed in the end; closed after every upload if and only if no set of the archives sent is cyclic |
| Push.ResolveFinds | crates/cli/src/cmd/data/push.rs:122-132 | A reference is resolved to exactly the file it leads to: the first that exists of an absolute path, the path in the archive's own directory, and the reference as given |
| Push.BesideIsParent | crates/cli/src/cmd/data/push.rs:86-90 | A file beside the archive is the parent meant, unless an absolute path comes first |
| Push.UploadKeepsClosed | crates/cli/src/cmd/data/push.rs:84-104 | Uploading after the parents keeps closure |
| Push.ClosedOnlyIfParentsFirst | crates/cli/src/cmd/data/push.rs:84-104 | Closure throughout forces parents before children |
| Push.CycleBreaksClosure | crates/cli/src/cmd/data/push.rs:66-68 | No member of a cycle of missing archives, of any length, can be uploaded without breaking it |
| Push.RankExists | crates/cli/src/cmd/data/push.rs:84-104 | Archives without a cyclic set can be ranked, parents below children |
| Push.PushCycle | crates/cli/src/cmd/data/push.rs:66-104 | A successful push of two archives that refer to each other leaves the remote open in between |
| Inodes.InodeMap.GetOrCreateDir | crates/vfs/src/lib.rs:266-310 | The directory with its missing ancestors, or the file met on the way and nothing created |
| Inodes.InodeMap.FromManifest | crates/vfs/src/lib.rs:156-190 | For every manifest of distinct paths: the maps agree, and walking agrees with asking everywhere, if and only if no listed path is a proper prefix of another; then exactly the files and the directories above them are there |
| Inodes.InodeMap.AddFile | crates/vfs/src/lib.rs:351-382 | From any state reached by adding: which paths and nodes may change; the maps agree afterwards if and only if the path was unused and no file lies above it |
| Inodes.InodeMap.AddFileAtPath | crates/vfs/src/lib.rs:198-242 | The same; existing paths are left alone |
| Inodes.InodeMap.Lookup | crates/vfs/src/lib.rs:385-392 | While the maps agree: the inode of the parent's path with the name added, if there is one |
| Inodes.InodeMap.GetInode | crates/vfs/src/lib.rs:400-402 | While the maps agree: the inode that walking down from the root ends at |
| Inodes.Tree.WalkIsGetInode | crates/vfs/src/lib.rs:385-402 | Walking lookups from the root and asking for the path agree, for every path |
| Inodes.Tree.InsertValid | crates/vfs/src/lib.rs:284-306 | Adding below a directory keeps all maps in agreement |
| Inodes.InodeMap.RenamePath | crates/vfs/src/lib.rs:411-439 | To an unused, unrelated path: exactly the old subtree is re-keyed and the maps stay inverse |
| Inodes.InodeMap.RenameIsNotSeen | crates/vfs/src/lib.rs:411-439 | Lookups go on answering for the old name and not for the new one |
| Inodes.InodeMap.RemovePath | crates/vfs/src/lib.rs:442-448 | The path and its inode's path are gone, the maps stay inverse |

## Left out

- Compression, encryption, hashing and checksums are parameters with the laws stated in `Codec.ForeignLawful`;
  dictionary training, content-defined chunking and statistics only choose the chunk list, which is given. Paths in a
  header are byte strings: that they are UTF-8 is not checked.
- Integers are unbounded: u64 offsets do not wrap. The `as u32` casts are written out, and callers keep blocks below
  2^32 bytes and offsets below the parent sentinel.
- I/O failures of a backend, allocation limits and poisoned locks; a read outside the file is an error. Of damaged
  files, only opening and `DecompressAndVerify` say what happens.
- RoundTrip.WriteThenRead: asks that hash collisions do not occur among the chunks in use, that streams are begun as
  `WriterModel.BeginReady` requires, and that parents are readable, have no page without bytes and hash what they
  store; `Thin.BuiltIsSound` shows that the writer makes such archives from non-empty blocks.
- RoundTrip.ReadsAsWrittenIff: for streams whose declared size is at least what they were given, as packing declares.
- Thin.ThinWriteThenRead: parents are good bases; for other parents `RoundTrip.ReadsAsWrittenIff` says what is needed.
- ConcurrentReads.ReadReturnsSpec: archives without parents, and reads by one thread each; the pool inside one read is
  `Reader.Archive.ExecuteParallel`.
- Reader.Archive.PrefetchTask: that it runs on a thread of its own is modelled in `Prefetch`, not here.
- Reader.Archive.ReadAt: the cache's locks and reference counts; the archive keeps the value of each cache, and
  `Lru.ShardedCache` is the object with the same steps.
- Lru.ShardedCache.Get: shards are picked by remainder; the code masks, which is the same for 1 and 16 shards.
- Push.PushTarget: assumes distinct file names, as two archives of one name are one object on the remote.
- Directory.PackThenExtract: the walk's filters, permissions and file times, and two entries of one path; sizes are
  those of the bytes packed.
- Pipeline.FinishedRun: panics of threads, and progress callbacks.
- Inodes.InodeMap.FromManifest: manifests that list a path twice (`Inodes.InodeMap.AddFile` says that the maps then
  disagree), and archives without a manifest, which mount under two fixed names.
- Paths with `..`, `.` or a root component in the inode map; attributes, overlay and FUSE plumbing.
- Network and mapped backends, signing, workspaces, Python bindings and the command line.
