// On-disk entities (crates/core/src/format) and the foreign algorithms they rely on.
module Format {
  import opened Common

  type Hash = Bytes

  const HEADER_SIZE: nat := 4096
  const ENTRIES_PER_PAGE: nat := 4096
  const BLOCK_OFFSET_PARENT: nat := U64_MAX
  const FORMAT_VERSION: nat := 1
  const MAX_INDEX_SIZE: nat := 64 * 1024 * 1024
  const DEFAULT_L1_CAPACITY: nat := 1000
  const MAGIC_BYTES: Bytes := [0x48, 0x45, 0x58, 0x5A]
  const HASH_SIZE: nat := 32
  const ZERO_HASH: Hash := Zeros(HASH_SIZE)

  datatype Stream = Main | Auxiliary

  /** One stored, sparse or delegated block. */
  datatype BlockInfo = BlockInfo(offset: nat, length: nat, logicalLen: nat, checksum: nat, hash: Hash) {
    predicate IsSparse() { length == 0 && offset != U64_MAX }

    /** The reader's first case: synthesised zeros. */
    predicate ReadsAsZero() { offset == 0 && length == 0 }

    /** The fields keep within their widths on disk. */
    predicate Fits() {
      offset <= U64_MAX && length < U32_LIMIT && logicalLen < U32_LIMIT && checksum < U32_LIMIT && |hash| == HASH_SIZE
    }

    /** What is listed to later archives: anything but sparse blocks and blocks without a hash. */
    predicate IsOffered() { !IsSparse() && hash != ZERO_HASH }

    /** What the hash index lists: neither sparse nor delegated. */
    predicate IsLocal() { !IsSparse() && offset != BLOCK_OFFSET_PARENT }
  }

  /** A page as the serializer can take it. */
  predicate Encodable(page: seq<BlockInfo>) {
    |page| <= ENTRIES_PER_PAGE && forall i {:trigger page[i]} :: 0 <= i < |page| ==> page[i].Fits()
  }

  datatype PageEntry = PageEntry(offset: nat, length: nat, startBlock: nat, startLogical: nat) {
    predicate Fits() {
      offset <= U64_MAX && length < U32_LIMIT && startBlock <= U64_MAX && startLogical <= U64_MAX
    }
  }

  datatype MasterIndex = MasterIndex(
    mainPages: seq<PageEntry>, auxiliaryPages: seq<PageEntry>,
    mainSize: nat, auxiliarySize: nat)
  {
    function Pages(s: Stream): seq<PageEntry> { if s.Main? then mainPages else auxiliaryPages }

    function Size(s: Stream): nat { if s.Main? then mainSize else auxiliarySize }

    predicate Fits() {
      && mainSize <= U64_MAX && auxiliarySize <= U64_MAX
      && |mainPages| <= U64_MAX && |auxiliaryPages| <= U64_MAX
      && (forall k {:trigger mainPages[k]} :: 0 <= k < |mainPages| ==> mainPages[k].Fits())
      && (forall k {:trigger auxiliaryPages[k]} :: 0 <= k < |auxiliaryPages| ==> auxiliaryPages[k].Fits())
    }

    function AddPage(s: Stream, e: PageEntry): MasterIndex {
      if s.Main? then this.(mainPages := mainPages + [e]) else this.(auxiliaryPages := auxiliaryPages + [e])
    }

    function Grow(s: Stream, n: nat): MasterIndex {
      if s.Main? then this.(mainSize := mainSize + n) else this.(auxiliarySize := auxiliarySize + n)
    }
  }

  const EMPTY_MASTER := MasterIndex([], [], 0, 0)

  const SALT_SIZE: nat := 16

  /** What the key is derived from, besides the password. */
  datatype KeyParams = KeyParams(salt: Bytes, iterations: nat)

  datatype Compression = Lz4 | Zstd

  /** Parent paths are the UTF-8 bytes of strings. */
  datatype Header = Header(
    magic: Bytes, version: nat, blockSize: nat, indexOffset: nat, parentPaths: seq<Bytes>,
    dictionaryOffset: Option<nat>, dictionaryLength: Option<nat>,
    metadataOffset: Option<nat>, metadataLength: Option<nat>,
    signatureOffset: Option<nat>, signatureLength: Option<nat>,
    encryption: Option<KeyParams>, compression: Compression,
    hasMain: bool, hasAuxiliary: bool, variableBlocks: bool, cdcParams: Option<(nat, nat, nat)>)
  {
    predicate Encrypted() { encryption.Some? }

    /** The fields keep within their widths on disk. */
    predicate Fits() {
      && |magic| == |MAGIC_BYTES| && version < U32_LIMIT && blockSize < U32_LIMIT && indexOffset <= U64_MAX
      && |parentPaths| <= U64_MAX
      && (forall i {:trigger parentPaths[i]} :: 0 <= i < |parentPaths| ==> |parentPaths[i]| <= U64_MAX)
      && PlaceFits(dictionaryOffset, dictionaryLength)
      && PlaceFits(metadataOffset, metadataLength)
      && PlaceFits(signatureOffset, signatureLength)
      && (encryption.Some? ==> |encryption.value.salt| == SALT_SIZE && encryption.value.iterations < U32_LIMIT)
      && (cdcParams.Some? ==>
        cdcParams.value.0 < U32_LIMIT && cdcParams.value.1 < U32_LIMIT && cdcParams.value.2 < U32_LIMIT)
    }
  }

  /** An optional region of the file. */
  predicate PlaceFits(offset: Option<nat>, length: Option<nat>) {
    (offset.Some? ==> offset.value <= U64_MAX) && (length.Some? ==> length.value < U32_LIMIT)
  }

  /**
   The compressor, cipher, hash, checksum and serializer are foreign code. They are parameters:
   deterministic functions, constrained only by `Lawful`. `universe` is the set of block contents over
   which the hash is assumed to be free of collisions and never all-zero.
   */
  datatype Codec = Codec(
    compress: Bytes -> Bytes,
    decompress: (Bytes, nat) -> Option<Bytes>,
    encrypt: (Bytes, nat) -> Bytes,
    decrypt: (Bytes, nat) -> Option<Bytes>,
    hash: Bytes -> Hash,
    crc: Bytes -> nat,
    encodePage: seq<BlockInfo> -> Bytes,
    decodePage: Bytes -> Option<seq<BlockInfo>>,
    encodeMaster: MasterIndex -> Bytes,
    decodeMaster: Bytes -> Option<MasterIndex>,
    encodeHeader: Header -> Bytes,
    decodeHeader: Bytes -> Option<Header>,
    universe: set<Bytes>)
  {
    ghost predicate Lawful() { ForeignLawful() && SerializersLawful() }

    /** Compressor, cipher, hash and checksum. */
    ghost predicate ForeignLawful() {
      && (forall d :: decompress(compress(d), |d|) == Some(d))
      && (forall d, i :: decrypt(encrypt(d, i), i) == Some(d))
      && (forall a, b :: a in universe && b in universe && hash(a) == hash(b) ==> a == b)
      && (forall a :: a in universe ==> hash(a) != ZERO_HASH)
      && (forall d :: |hash(d)| == HASH_SIZE)
      && (forall d :: crc(d) < U32_LIMIT)
    }

    /** Serializers of index and header: a decoder stops at the end of the value and ignores what follows it. */
    ghost predicate SerializersLawful() {
      && (forall p, rest :: Encodable(p) ==> decodePage(encodePage(p) + rest) == Some(p))
      && (forall p :: Encodable(p) && p != [] ==> 0 < |encodePage(p)| < U32_LIMIT)
      && (forall m: MasterIndex, rest :: m.Fits() ==> decodeMaster(encodeMaster(m) + rest) == Some(m))
      && (forall m :: 0 < |encodeMaster(m)|)
      && (forall h: Header, rest :: h.Fits() ==> decodeHeader(encodeHeader(h) + rest) == Some(h))
    }

    /** What is stored for block contents `d` at global index `idx`. */
    function Seal(encrypted: bool, d: Bytes, idx: nat): Bytes {
      if encrypted then encrypt(compress(d), idx) else compress(d)
    }

    /** What is recovered from stored bytes, `n` being the logical length. */
    function Unseal(encrypted: bool, raw: Bytes, idx: nat, n: nat): Option<Bytes> {
      if encrypted then
        match decrypt(raw, idx)
        case None => None
        case Some(c) => decompress(c, n)
      else
        decompress(raw, n)
    }

    lemma DecodePage(p: seq<BlockInfo>, rest: Bytes)
      requires Lawful() && Encodable(p)
      ensures decodePage(encodePage(p) + rest) == Some(p)
    {
    }

    lemma DecodeMaster(m: MasterIndex, rest: Bytes)
      requires Lawful() && m.Fits()
      ensures decodeMaster(encodeMaster(m) + rest) == Some(m) && 0 < |encodeMaster(m)|
    {
    }

    lemma DecodeHeader(h: Header, rest: Bytes)
      requires Lawful() && h.Fits()
      ensures decodeHeader(encodeHeader(h) + rest) == Some(h)
    {
    }

    lemma PageFits(p: seq<BlockInfo>)
      requires Lawful() && Encodable(p) && p != []
      ensures 0 < |encodePage(p)| < U32_LIMIT
    {
    }

    lemma Widths(d: Bytes)
      requires Lawful()
      ensures |hash(d)| == HASH_SIZE && crc(d) < U32_LIMIT
    {
    }

    lemma NoCollision(a: Bytes, b: Bytes)
      requires Lawful() && a in universe && b in universe && hash(a) == hash(b)
      ensures a == b
    {
    }

    lemma UnsealSeal(encrypted: bool, d: Bytes, idx: nat)
      requires Lawful()
      ensures Unseal(encrypted, Seal(encrypted, d, idx), idx, |d|) == Some(d)
    {
      assert decrypt(encrypt(compress(d), idx), idx) == Some(compress(d));
      assert decompress(compress(d), |d|) == Some(d);
    }
  }
}
