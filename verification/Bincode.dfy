// How header, pages and master index are laid out in bytes: bincode with fixed-width little-endian integers, 64-bit
// sequence lengths, one-byte tags for options and truth values, and trailing bytes allowed.
module Bincode {
  import opened Common
  import opened Format

  // ---------------------------------------------------------------------------------------------
  // Integers

  function Power256(k: nat): (p: nat)
    ensures p > 0
  {
    if k == 0 then 1 else 256 * Power256(k - 1)
  }

  lemma Powers()
    ensures Power256(4) == U32_LIMIT && Power256(8) == U64_MAX + 1
  {
    assert Power256(4) == 256 * Power256(3) == 256 * 256 * Power256(2);
    assert Power256(8) == 256 * Power256(7) == 256 * 256 * Power256(6) == 256 * 256 * 256 * Power256(5);
  }

  function Bit(on: bool, mask: bv8): bv8 { if on then mask else 0 }

  function Odd(n: nat): bool { n % 2 == 1 }

  function Join(a: bool, b: bool, c: bool, d: bool, e: bool, f: bool, g: bool, h: bool): bv8 {
    Bit(a, 0x80) | Bit(b, 0x40) | Bit(c, 0x20) | Bit(d, 0x10) | Bit(e, 8) | Bit(f, 4) | Bit(g, 2) | Bit(h, 1)
  }

  function Half(n: nat): (h: nat)
    ensures n == 2 * h + One(Odd(n))
  {
    n / 2
  }

  /** The byte of a number below 256. */
  function ByteOf(n: nat): bv8 {
    var n1 := Half(n);
    var n2 := Half(n1);
    var n3 := Half(n2);
    var n4 := Half(n3);
    var n5 := Half(n4);
    var n6 := Half(n5);
    var n7 := Half(n6);
    Join(Odd(n7), Odd(n6), Odd(n5), Odd(n4), Odd(n3), Odd(n2), Odd(n1), Odd(n))
  }

  function Sum(a: bool, b: bool, c: bool, d: bool, e: bool, f: bool, g: bool, h: bool): nat {
    128 * One(a) + 64 * One(b) + 32 * One(c) + 16 * One(d) + 8 * One(e) + 4 * One(f) + 2 * One(g) + One(h)
  }

  function NatOf(x: bv8): nat {
    Sum(x & 0x80 != 0, x & 0x40 != 0, x & 0x20 != 0, x & 0x10 != 0, x & 8 != 0, x & 4 != 0, x & 2 != 0, x & 1 != 0)
  }

  /** The `k` bytes of `n`, lowest first. */
  function Le(n: nat, k: nat): (b: Bytes)
    ensures |b| == k
  {
    if k == 0 then [] else [ByteOf(n % 256)] + Le(n / 256, k - 1)
  }

  function FromLe(b: Bytes): nat { if b == [] then 0 else NatOf(b[0]) + 256 * FromLe(b[1..]) }

  lemma {:induction false} FromLeInverts(n: nat, k: nat)
    requires n < Power256(k)
    ensures FromLe(Le(n, k)) == n
  {
    if k > 0 {
      var high := n / 256;
      assert n == 256 * high + n % 256 && high < Power256(k - 1);
      FromLeInverts(high, k - 1);
      ByteInverts(n % 256);
      FromLeCons(ByteOf(n % 256), Le(high, k - 1));
    }
  }

  lemma JoinKeeps(a: bool, b: bool, c: bool, d: bool, e: bool, f: bool, g: bool, h: bool)
    ensures NatOf(Join(a, b, c, d, e, f, g, h)) == Sum(a, b, c, d, e, f, g, h)
  {
    var x := Join(a, b, c, d, e, f, g, h);
    assert (x & 0x80 != 0 <==> a) && (x & 0x40 != 0 <==> b) && (x & 0x20 != 0 <==> c) && (x & 0x10 != 0 <==> d);
    assert (x & 8 != 0 <==> e) && (x & 4 != 0 <==> f) && (x & 2 != 0 <==> g) && (x & 1 != 0 <==> h);
    hide Join, Sum;
  }

  /** The binary digits of a number below 256, from the halves taken one after the other. */
  lemma Digits(n: nat, n1: nat, n2: nat, n3: nat, n4: nat, n5: nat, n6: nat, n7: nat)
    requires n < 256 && n1 == Half(n) && n2 == Half(n1) && n3 == Half(n2) && n4 == Half(n3)
    requires n5 == Half(n4) && n6 == Half(n5) && n7 == Half(n6)
    ensures Sum(Odd(n7), Odd(n6), Odd(n5), Odd(n4), Odd(n3), Odd(n2), Odd(n1), Odd(n)) == n
  {
    hide Odd, Half, One;
    var n8 := Half(n7);
    var low := One(Odd(n)) + 2 * One(Odd(n1)) + 4 * One(Odd(n2)) + 8 * One(Odd(n3));
    assert n == low + 16 * n4;
    var high := One(Odd(n4)) + 2 * One(Odd(n5)) + 4 * One(Odd(n6)) + 8 * One(Odd(n7));
    assert n4 == high + 16 * n8;
    hide *;
    Compose(n, low, n4, high, n8);
    SumOfNibbles(Odd(n7), Odd(n6), Odd(n5), Odd(n4), Odd(n3), Odd(n2), Odd(n1), Odd(n));
  }

  lemma Compose(n: nat, low: nat, mid: nat, high: nat, top: nat)
    requires n == low + 16 * mid && mid == high + 16 * top && n < 256
    ensures n == low + 16 * high
  {
  }

  lemma SumOfNibbles(a: bool, b: bool, c: bool, d: bool, e: bool, f: bool, g: bool, h: bool)
    ensures Sum(a, b, c, d, e, f, g, h) ==
      (One(h) + 2 * One(g) + 4 * One(f) + 8 * One(e)) + 16 * (One(d) + 2 * One(c) + 4 * One(b) + 8 * One(a))
  {
  }

  lemma ByteInverts(n: nat)
    requires n < 256
    ensures NatOf(ByteOf(n)) == n
  {
    hide Join, NatOf, Odd, Half, Sum, One;
    var n1 := Half(n);
    var n2 := Half(n1);
    var n3 := Half(n2);
    var n4 := Half(n3);
    var n5 := Half(n4);
    var n6 := Half(n5);
    var n7 := Half(n6);
    Digits(n, n1, n2, n3, n4, n5, n6, n7);
    JoinKeeps(Odd(n7), Odd(n6), Odd(n5), Odd(n4), Odd(n3), Odd(n2), Odd(n1), Odd(n));
  }

  lemma FromLeCons(x: bv8, b: Bytes)
    ensures FromLe([x] + b) == NatOf(x) + 256 * FromLe(b)
  {
    assert ([x] + b)[1..] == b;
  }

  /** Reads a `k`-byte integer off the front. */
  function TakeInt(b: Bytes, k: nat): Option<(nat, Bytes)> {
    if |b| < k then None else Some((FromLe(b[..k]), b[k..]))
  }

  lemma TakesInt(n: nat, k: nat, rest: Bytes)
    requires n < Power256(k)
    ensures TakeInt(Le(n, k) + rest, k) == Some((n, rest))
  {
    FromLeInverts(n, k);
    assert (Le(n, k) + rest)[..k] == Le(n, k);
  }

  // ---------------------------------------------------------------------------------------------
  // Records

  function EncodeBlock(b: BlockInfo): Bytes {
    Le(b.offset, 8) + (Le(b.length, 4) + (Le(b.logicalLen, 4) + (Le(b.checksum, 4) + b.hash)))
  }

  function DecodeBlock(bytes: Bytes): Option<(BlockInfo, Bytes)> {
    match TakeInt(bytes, 8) case None => None case Some((offset, r1)) =>
    match TakeInt(r1, 4) case None => None case Some((length, r2)) =>
    match TakeInt(r2, 4) case None => None case Some((logicalLen, r3)) =>
    match TakeInt(r3, 4) case None => None case Some((checksum, r4)) =>
    if |r4| < HASH_SIZE then None
    else Some((BlockInfo(offset, length, logicalLen, checksum, r4[..HASH_SIZE]), r4[HASH_SIZE..]))
  }

  lemma BlockInverts(b: BlockInfo, rest: Bytes)
    requires b.Fits()
    ensures DecodeBlock(EncodeBlock(b) + rest) == Some((b, rest)) && |EncodeBlock(b)| == 52
  {
    Powers();
    var r4 := b.hash + rest;
    var r3 := Le(b.checksum, 4) + r4;
    var r2 := Le(b.logicalLen, 4) + r3;
    var r1 := Le(b.length, 4) + r2;
    assert EncodeBlock(b) + rest == Le(b.offset, 8) + r1;
    hide Le, TakeInt;
    TakesInt(b.offset, 8, r1);
    TakesInt(b.length, 4, r2);
    TakesInt(b.logicalLen, 4, r3);
    TakesInt(b.checksum, 4, r4);
  }

  function EncodeEntry(e: PageEntry): Bytes {
    Le(e.offset, 8) + (Le(e.length, 4) + (Le(e.startBlock, 8) + Le(e.startLogical, 8)))
  }

  function DecodeEntry(bytes: Bytes): Option<(PageEntry, Bytes)> {
    match TakeInt(bytes, 8) case None => None case Some((offset, r1)) =>
    match TakeInt(r1, 4) case None => None case Some((length, r2)) =>
    match TakeInt(r2, 8) case None => None case Some((startBlock, r3)) =>
    match TakeInt(r3, 8) case None => None case Some((startLogical, r4)) =>
    Some((PageEntry(offset, length, startBlock, startLogical), r4))
  }

  lemma EntryInverts(e: PageEntry, rest: Bytes)
    requires e.Fits()
    ensures DecodeEntry(EncodeEntry(e) + rest) == Some((e, rest))
  {
    Powers();
    var r3 := Le(e.startLogical, 8) + rest;
    var r2 := Le(e.startBlock, 8) + r3;
    var r1 := Le(e.length, 4) + r2;
    assert EncodeEntry(e) + rest == Le(e.offset, 8) + r1;
    hide Le, TakeInt;
    TakesInt(e.offset, 8, r1);
    TakesInt(e.length, 4, r2);
    TakesInt(e.startBlock, 8, r3);
    TakesInt(e.startLogical, 8, rest);
  }

  // ---------------------------------------------------------------------------------------------
  // Sequences

  function EncodeAll<T>(enc: T -> Bytes, xs: seq<T>): Bytes {
    if xs == [] then [] else enc(xs[0]) + EncodeAll(enc, xs[1..])
  }

  function DecodeMany<T>(dec: Bytes -> Option<(T, Bytes)>, n: nat, bytes: Bytes): Option<(seq<T>, Bytes)> {
    if n == 0 then Some(([], bytes))
    else
      match dec(bytes) case None => None case Some((x, rest)) =>
      match DecodeMany(dec, n - 1, rest) case None => None case Some((xs, end)) =>
      Some(([x] + xs, end))
  }

  lemma {:induction false} ManyInverts<T>(enc: T -> Bytes, dec: Bytes -> Option<(T, Bytes)>, xs: seq<T>, rest: Bytes)
    requires forall i: nat, r: Bytes :: i < |xs| ==> dec(enc(xs[i]) + r) == Some((xs[i], r))
    ensures DecodeMany(dec, |xs|, EncodeAll(enc, xs) + rest) == Some((xs, rest))
  {
    if xs != [] {
      var more := EncodeAll(enc, xs[1..]) + rest;
      assert EncodeAll(enc, xs) + rest == enc(xs[0]) + more;
      forall i: nat, r: Bytes | i < |xs| - 1 ensures dec(enc(xs[1..][i]) + r) == Some((xs[1..][i], r)) {
        assert xs[1..][i] == xs[i + 1];
      }
      ManyInverts(enc, dec, xs[1..], rest);
      assert DecodeMany(dec, |xs| - 1, more) == Some((xs[1..], rest));
      assert dec(enc(xs[0]) + more) == Some((xs[0], more));
      var whole := enc(xs[0]) + more;
      assert DecodeMany(dec, |xs|, whole) == Some(([xs[0]] + xs[1..], rest));
      assert [xs[0]] + xs[1..] == xs;
    } else {
      assert EncodeAll(enc, xs) + rest == rest;
    }
  }

  function EncodeSeq<T>(enc: T -> Bytes, xs: seq<T>): Bytes { Le(|xs|, 8) + EncodeAll(enc, xs) }

  function DecodeSeq<T>(dec: Bytes -> Option<(T, Bytes)>, bytes: Bytes): Option<(seq<T>, Bytes)> {
    match TakeInt(bytes, 8) case None => None case Some((n, rest)) => DecodeMany(dec, n, rest)
  }

  lemma SeqInverts<T>(enc: T -> Bytes, dec: Bytes -> Option<(T, Bytes)>, xs: seq<T>, rest: Bytes)
    requires |xs| <= U64_MAX
    requires forall i: nat, r: Bytes :: i < |xs| ==> dec(enc(xs[i]) + r) == Some((xs[i], r))
    ensures DecodeSeq(dec, EncodeSeq(enc, xs) + rest) == Some((xs, rest))
  {
    Powers();
    hide TakeInt, Le, DecodeMany, EncodeAll;
    var more := EncodeAll(enc, xs) + rest;
    assert EncodeSeq(enc, xs) + rest == Le(|xs|, 8) + more;
    TakesInt(|xs|, 8, more);
    ManyInverts(enc, dec, xs, rest);
  }

  // ---------------------------------------------------------------------------------------------
  // Pages and the master index

  function EncodePage(p: seq<BlockInfo>): Bytes { EncodeSeq(EncodeBlock, p) }

  function DecodePage(bytes: Bytes): Option<seq<BlockInfo>> {
    match DecodeSeq(DecodeBlock, bytes) case None => None case Some((p, _)) => Some(p)
  }

  function EncodeMaster(m: MasterIndex): Bytes {
    EncodeSeq(EncodeEntry, m.mainPages) +
    (EncodeSeq(EncodeEntry, m.auxiliaryPages) + (Le(m.mainSize, 8) + Le(m.auxiliarySize, 8)))
  }

  function DecodeMaster(bytes: Bytes): Option<MasterIndex> {
    match DecodeSeq(DecodeEntry, bytes) case None => None case Some((main, r1)) =>
    match DecodeSeq(DecodeEntry, r1) case None => None case Some((aux, r2)) =>
    match TakeInt(r2, 8) case None => None case Some((mainSize, r3)) =>
    match TakeInt(r3, 8) case None => None case Some((auxSize, _)) =>
    Some(MasterIndex(main, aux, mainSize, auxSize))
  }

  lemma PageInverts(p: seq<BlockInfo>, rest: Bytes)
    requires Encodable(p)
    ensures DecodePage(EncodePage(p) + rest) == Some(p)
  {
    forall i: nat, r: Bytes | i < |p| ensures DecodeBlock(EncodeBlock(p[i]) + r) == Some((p[i], r)) {
      BlockInverts(p[i], r);
    }
    SeqInverts(EncodeBlock, DecodeBlock, p, rest);
  }

  lemma {:induction false} BlocksLength(p: seq<BlockInfo>)
    requires forall i {:trigger p[i]} :: 0 <= i < |p| ==> p[i].Fits()
    ensures |EncodeAll(EncodeBlock, p)| == 52 * |p|
  {
    if p != [] {
      BlockInverts(p[0], []);
      BlocksLength(p[1..]);
    }
  }

  lemma MasterInverts(m: MasterIndex, rest: Bytes)
    requires m.Fits()
    ensures DecodeMaster(EncodeMaster(m) + rest) == Some(m)
  {
    Powers();
    var r3 := Le(m.auxiliarySize, 8) + rest;
    var r2 := Le(m.mainSize, 8) + r3;
    var r1 := EncodeSeq(EncodeEntry, m.auxiliaryPages) + r2;
    assert EncodeMaster(m) + rest == EncodeSeq(EncodeEntry, m.mainPages) + r1;
    forall e: PageEntry, r: Bytes | e.Fits() ensures DecodeEntry(EncodeEntry(e) + r) == Some((e, r)) {
      EntryInverts(e, r);
    }
    hide EncodeSeq, DecodeSeq, TakeInt, Le, EncodeEntry, DecodeEntry;
    SeqInverts(EncodeEntry, DecodeEntry, m.mainPages, r1);
    SeqInverts(EncodeEntry, DecodeEntry, m.auxiliaryPages, r2);
    TakesInt(m.mainSize, 8, r3);
    TakesInt(m.auxiliarySize, 8, rest);
  }

  // ---------------------------------------------------------------------------------------------
  // The header

  /** Takes the first `n` bytes. */
  function TakeBytes(b: Bytes, n: nat): Option<(Bytes, Bytes)> {
    if |b| < n then None else Some((b[..n], b[n..]))
  }

  lemma TakesBytes(x: Bytes, rest: Bytes)
    ensures TakeBytes(x + rest, |x|) == Some((x, rest))
  {
  }

  function EncodeBool(x: bool): Bytes { [if x then 1 else 0] }

  function TakeBool(b: Bytes): Option<(bool, Bytes)> {
    if b == [] || (b[0] != 0 && b[0] != 1) then None else Some((b[0] == 1, b[1..]))
  }

  lemma TakesBool(x: bool, rest: Bytes)
    ensures TakeBool(EncodeBool(x) + rest) == Some((x, rest))
  {
  }

  function EncodeOption<T>(enc: T -> Bytes, o: Option<T>): Bytes {
    match o case None => EncodeBool(false) case Some(x) => EncodeBool(true) + enc(x)
  }

  function TakeOption<T>(dec: Bytes -> Option<(T, Bytes)>, b: Bytes): Option<(Option<T>, Bytes)> {
    match TakeBool(b) case None => None case Some((some, r)) =>
    if !some then Some((Option<T>.None, r))
    else match dec(r) case None => None case Some((x, end)) => Some((Option<T>.Some(x), end))
  }

  lemma TakesOption<T>(enc: T -> Bytes, dec: Bytes -> Option<(T, Bytes)>, o: Option<T>, rest: Bytes)
    requires o.Some? ==> dec(enc(o.value) + rest) == Some((o.value, rest))
    ensures TakeOption(dec, EncodeOption(enc, o) + rest) == Some((o, rest))
  {
    hide EncodeBool, TakeBool;
    match o
    case None => TakesBool(false, rest);
    case Some(x) =>
      assert EncodeBool(true) + enc(x) + rest == EncodeBool(true) + (enc(x) + rest);
      TakesBool(true, enc(x) + rest);
  }

  function EncodeU64(n: nat): Bytes { Le(n, 8) }

  function TakeU64(b: Bytes): Option<(nat, Bytes)> { TakeInt(b, 8) }

  function EncodeU32(n: nat): Bytes { Le(n, 4) }

  function TakeU32(b: Bytes): Option<(nat, Bytes)> { TakeInt(b, 4) }

  lemma TakesU64(n: nat, rest: Bytes)
    requires n <= U64_MAX
    ensures TakeU64(EncodeU64(n) + rest) == Some((n, rest))
  {
    hide Le, TakeInt;
    Powers();
    TakesInt(n, 8, rest);
  }

  lemma TakesU32(n: nat, rest: Bytes)
    requires n < U32_LIMIT
    ensures TakeU32(EncodeU32(n) + rest) == Some((n, rest))
  {
    hide Le, TakeInt;
    Powers();
    TakesInt(n, 4, rest);
  }

  function EncodeString(x: Bytes): Bytes { EncodeU64(|x|) + x }

  function TakeString(b: Bytes): Option<(Bytes, Bytes)> {
    match TakeU64(b) case None => None case Some((n, r)) => TakeBytes(r, n)
  }

  lemma TakesString(x: Bytes, rest: Bytes)
    requires |x| <= U64_MAX
    ensures TakeString(EncodeString(x) + rest) == Some((x, rest))
  {
    hide EncodeU64, TakeU64;
    assert EncodeString(x) + rest == EncodeU64(|x|) + (x + rest);
    TakesU64(|x|, x + rest);
    TakesBytes(x, rest);
  }

  /** An optional region: its offset and its length. */
  function EncodePlace(offset: Option<nat>, length: Option<nat>): Bytes {
    EncodeOption(EncodeU64, offset) + EncodeOption(EncodeU32, length)
  }

  function TakePlace(b: Bytes): Option<((Option<nat>, Option<nat>), Bytes)> {
    match TakeOption(TakeU64, b) case None => None case Some((offset, r)) =>
    match TakeOption(TakeU32, r) case None => None case Some((length, end)) =>
    Some(((offset, length), end))
  }

  lemma TakesPlace(offset: Option<nat>, length: Option<nat>, rest: Bytes)
    requires PlaceFits(offset, length)
    ensures TakePlace(EncodePlace(offset, length) + rest) == Some(((offset, length), rest))
  {
    hide EncodeOption, TakeOption, EncodeU64, TakeU64, EncodeU32, TakeU32;
    var r := EncodeOption(EncodeU32, length) + rest;
    assert EncodePlace(offset, length) + rest == EncodeOption(EncodeU64, offset) + r;
    if offset.Some? { TakesU64(offset.value, r); }
    TakesOption(EncodeU64, TakeU64, offset, r);
    if length.Some? { TakesU32(length.value, rest); }
    TakesOption(EncodeU32, TakeU32, length, rest);
  }

  function EncodeKey(k: KeyParams): Bytes { k.salt + EncodeU32(k.iterations) }

  function TakeKey(b: Bytes): Option<(KeyParams, Bytes)> {
    match TakeBytes(b, SALT_SIZE) case None => None case Some((salt, r)) =>
    match TakeU32(r) case None => None case Some((iterations, end)) =>
    Some((KeyParams(salt, iterations), end))
  }

  lemma TakesKey(k: KeyParams, rest: Bytes)
    requires |k.salt| == SALT_SIZE && k.iterations < U32_LIMIT
    ensures TakeKey(EncodeKey(k) + rest) == Some((k, rest))
  {
    hide EncodeU32, TakeU32, TakeBytes;
    assert EncodeKey(k) + rest == k.salt + (EncodeU32(k.iterations) + rest);
    TakesBytes(k.salt, EncodeU32(k.iterations) + rest);
    TakesU32(k.iterations, rest);
  }

  function EncodeTriple(t: (nat, nat, nat)): Bytes { EncodeU32(t.0) + (EncodeU32(t.1) + EncodeU32(t.2)) }

  function TakeTriple(b: Bytes): Option<((nat, nat, nat), Bytes)> {
    match TakeU32(b) case None => None case Some((x, r1)) =>
    match TakeU32(r1) case None => None case Some((y, r2)) =>
    match TakeU32(r2) case None => None case Some((z, end)) =>
    Some(((x, y, z), end))
  }

  lemma TakesTriple(t: (nat, nat, nat), rest: Bytes)
    requires t.0 < U32_LIMIT && t.1 < U32_LIMIT && t.2 < U32_LIMIT
    ensures TakeTriple(EncodeTriple(t) + rest) == Some((t, rest))
  {
    hide EncodeU32, TakeU32;
    var r2 := EncodeU32(t.2) + rest;
    var r1 := EncodeU32(t.1) + r2;
    assert EncodeTriple(t) + rest == EncodeU32(t.0) + r1;
    TakesU32(t.0, r1);
    TakesU32(t.1, r2);
    TakesU32(t.2, rest);
  }

  /** An enumeration is the number of its variant. */
  function EncodeCompression(c: Compression): Bytes { EncodeU32(if c.Lz4? then 0 else 1) }

  function TakeCompression(b: Bytes): Option<(Compression, Bytes)> {
    match TakeU32(b) case None => None case Some((n, r)) =>
    if n == 0 then Some((Lz4, r)) else if n == 1 then Some((Zstd, r)) else None
  }

  lemma TakesCompression(c: Compression, rest: Bytes)
    ensures TakeCompression(EncodeCompression(c) + rest) == Some((c, rest))
  {
    hide EncodeU32, TakeU32;
    TakesU32(if c.Lz4? then 0 else 1, rest);
  }

  /** Magic, version, block size, index offset and parents. */
  datatype Front = Front(magic: Bytes, version: nat, blockSize: nat, indexOffset: nat, parentPaths: seq<Bytes>)

  function EncodeFront(f: Front): Bytes {
    f.magic + (EncodeU32(f.version) + (EncodeU32(f.blockSize) +
    (EncodeU64(f.indexOffset) + EncodeSeq(EncodeString, f.parentPaths))))
  }

  function TakeFront(b: Bytes): Option<(Front, Bytes)> {
    match TakeBytes(b, |MAGIC_BYTES|) case None => None case Some((magic, r1)) =>
    match TakeU32(r1) case None => None case Some((version, r2)) =>
    match TakeU32(r2) case None => None case Some((blockSize, r3)) =>
    match TakeU64(r3) case None => None case Some((indexOffset, r4)) =>
    match DecodeSeq(TakeString, r4) case None => None case Some((paths, end)) =>
    Some((Front(magic, version, blockSize, indexOffset, paths), end))
  }

  lemma TakesFront(f: Front, rest: Bytes)
    requires |f.magic| == |MAGIC_BYTES| && f.version < U32_LIMIT && f.blockSize < U32_LIMIT && f.indexOffset <= U64_MAX
    requires |f.parentPaths| <= U64_MAX
    requires forall i {:trigger f.parentPaths[i]} :: 0 <= i < |f.parentPaths| ==> |f.parentPaths[i]| <= U64_MAX
    ensures TakeFront(EncodeFront(f) + rest) == Some((f, rest))
  {
    hide EncodeU32, TakeU32, EncodeU64, TakeU64, TakeBytes, EncodeSeq, DecodeSeq, EncodeString, TakeString;
    var r4 := EncodeSeq(EncodeString, f.parentPaths) + rest;
    var r3 := EncodeU64(f.indexOffset) + r4;
    var r2 := EncodeU32(f.blockSize) + r3;
    var r1 := EncodeU32(f.version) + r2;
    assert EncodeFront(f) + rest == f.magic + r1;
    TakesBytes(f.magic, r1);
    TakesU32(f.version, r2);
    TakesU32(f.blockSize, r3);
    TakesU64(f.indexOffset, r4);
    forall i: nat, r: Bytes | i < |f.parentPaths|
      ensures TakeString(EncodeString(f.parentPaths[i]) + r) == Some((f.parentPaths[i], r))
    {
      TakesString(f.parentPaths[i], r);
    }
    SeqInverts(EncodeString, TakeString, f.parentPaths, rest);
  }

  /** Encryption, compression, features and chunking parameters. */
  datatype Options = Options(
    encryption: Option<KeyParams>, compression: Compression, hasMain: bool, hasAuxiliary: bool, variableBlocks: bool,
    cdcParams: Option<(nat, nat, nat)>)

  function EncodeOptions(k: Options): Bytes {
    EncodeOption(EncodeKey, k.encryption) + (EncodeCompression(k.compression) + (EncodeBool(k.hasMain) +
    (EncodeBool(k.hasAuxiliary) + (EncodeBool(k.variableBlocks) + EncodeOption(EncodeTriple, k.cdcParams)))))
  }

  function TakeOptions(b: Bytes): Option<(Options, Bytes)> {
    match TakeOption(TakeKey, b) case None => None case Some((encryption, r1)) =>
    match TakeCompression(r1) case None => None case Some((compression, r2)) =>
    match TakeBool(r2) case None => None case Some((hasMain, r3)) =>
    match TakeBool(r3) case None => None case Some((hasAuxiliary, r4)) =>
    match TakeBool(r4) case None => None case Some((variableBlocks, r5)) =>
    match TakeOption(TakeTriple, r5) case None => None case Some((cdcParams, end)) =>
    Some((Options(encryption, compression, hasMain, hasAuxiliary, variableBlocks, cdcParams), end))
  }

  lemma TakesOptions(k: Options, rest: Bytes)
    requires k.encryption.Some? ==> |k.encryption.value.salt| == SALT_SIZE && k.encryption.value.iterations < U32_LIMIT
    requires k.cdcParams.Some? ==>
      k.cdcParams.value.0 < U32_LIMIT && k.cdcParams.value.1 < U32_LIMIT && k.cdcParams.value.2 < U32_LIMIT
    ensures TakeOptions(EncodeOptions(k) + rest) == Some((k, rest))
  {
    hide EncodeOption, TakeOption, EncodeCompression, TakeCompression, EncodeBool, TakeBool, EncodeKey, TakeKey,
      EncodeTriple, TakeTriple;
    var r5 := EncodeOption(EncodeTriple, k.cdcParams) + rest;
    var r4 := EncodeBool(k.variableBlocks) + r5;
    var r3 := EncodeBool(k.hasAuxiliary) + r4;
    var r2 := EncodeBool(k.hasMain) + r3;
    var r1 := EncodeCompression(k.compression) + r2;
    assert EncodeOptions(k) + rest == EncodeOption(EncodeKey, k.encryption) + r1;
    if k.encryption.Some? { TakesKey(k.encryption.value, r1); }
    TakesOption(EncodeKey, TakeKey, k.encryption, r1);
    TakesCompression(k.compression, r2);
    TakesBool(k.hasMain, r3);
    TakesBool(k.hasAuxiliary, r4);
    TakesBool(k.variableBlocks, r5);
    if k.cdcParams.Some? { TakesTriple(k.cdcParams.value, rest); }
    TakesOption(EncodeTriple, TakeTriple, k.cdcParams, rest);
  }

  function FrontOf(h: Header): Front { Front(h.magic, h.version, h.blockSize, h.indexOffset, h.parentPaths) }

  function OptionsOf(h: Header): Options {
    Options(h.encryption, h.compression, h.hasMain, h.hasAuxiliary, h.variableBlocks, h.cdcParams)
  }

  function EncodeHeader(h: Header): Bytes {
    EncodeFront(FrontOf(h)) + (EncodePlace(h.dictionaryOffset, h.dictionaryLength) +
    (EncodePlace(h.metadataOffset, h.metadataLength) + (EncodePlace(h.signatureOffset, h.signatureLength) +
    EncodeOptions(OptionsOf(h)))))
  }

  function DecodeHeader(bytes: Bytes): Option<Header> {
    match TakeFront(bytes) case None => None case Some((f, r1)) =>
    match TakePlace(r1) case None => None case Some((dict, r2)) =>
    match TakePlace(r2) case None => None case Some((meta, r3)) =>
    match TakePlace(r3) case None => None case Some((sig, r4)) =>
    match TakeOptions(r4) case None => None case Some((k, _)) =>
    Some(Header(f.magic, f.version, f.blockSize, f.indexOffset, f.parentPaths, dict.0, dict.1, meta.0, meta.1,
                sig.0, sig.1, k.encryption, k.compression, k.hasMain, k.hasAuxiliary, k.variableBlocks, k.cdcParams))
  }

  lemma HeaderInverts(h: Header, rest: Bytes)
    requires h.Fits()
    ensures DecodeHeader(EncodeHeader(h) + rest) == Some(h)
  {
    hide EncodeFront, TakeFront, EncodePlace, TakePlace, EncodeOptions, TakeOptions;
    var r4 := EncodeOptions(OptionsOf(h)) + rest;
    var r3 := EncodePlace(h.signatureOffset, h.signatureLength) + r4;
    var r2 := EncodePlace(h.metadataOffset, h.metadataLength) + r3;
    var r1 := EncodePlace(h.dictionaryOffset, h.dictionaryLength) + r2;
    assert EncodeHeader(h) + rest == EncodeFront(FrontOf(h)) + r1;
    TakesFront(FrontOf(h), r1);
    TakesPlace(h.dictionaryOffset, h.dictionaryLength, r2);
    TakesPlace(h.metadataOffset, h.metadataLength, r3);
    TakesPlace(h.signatureOffset, h.signatureLength, r4);
    TakesOptions(OptionsOf(h), rest);
  }

  lemma OptionLength<T>(enc: T -> Bytes, o: Option<T>, n: nat)
    requires o.Some? ==> |enc(o.value)| <= n
    ensures |EncodeOption(enc, o)| <= 1 + n
  {
  }

  lemma PlaceLength(offset: Option<nat>, length: Option<nat>)
    ensures |EncodePlace(offset, length)| <= 14
  {
    hide EncodeOption;
    OptionLength(EncodeU64, offset, 8);
    OptionLength(EncodeU32, length, 4);
  }

  /** Without parents a header is short. */
  lemma LoneHeaderLength(h: Header)
    requires h.Fits() && h.parentPaths == []
    ensures |EncodeHeader(h)| <= 111
  {
    hide EncodeOption, EncodePlace, EncodeBool, Le;
    PlaceLength(h.dictionaryOffset, h.dictionaryLength);
    PlaceLength(h.metadataOffset, h.metadataLength);
    PlaceLength(h.signatureOffset, h.signatureLength);
    OptionLength(EncodeKey, h.encryption, SALT_SIZE + 4);
    OptionLength(EncodeTriple, h.cdcParams, 12);
    assert forall b: bool {:trigger EncodeBool(b)} :: |EncodeBool(b)| == 1 by { BoolLength(); }
    assert |EncodeFront(FrontOf(h))| == 28;
  }

  lemma BoolLength()
    ensures forall b: bool {:trigger EncodeBool(b)} :: |EncodeBool(b)| == 1
  {
  }

  // ---------------------------------------------------------------------------------------------
  // Where each field lies

  /** The `k` bytes from `at` on are the digits of `n` to base 256, lowest first. */
  predicate IntAt(bytes: Bytes, at: nat, k: nat, n: nat) {
    at + k <= |bytes| && forall i: nat {:trigger Digit(n, i)} :: i < k ==> NatOf(bytes[at + i]) == Digit(n, i)
  }

  /** How often 256 to the `i` goes into `n`, counted up to 255. */
  function Digit(n: nat, i: nat): nat { if i == 0 then n % 256 else Digit(n / 256, i - 1) }

  /** A descriptor: offset, two lengths, checksum and hash. */
  predicate BlockAt(bytes: Bytes, at: nat, b: BlockInfo) {
    && IntAt(bytes, at, 8, b.offset) && IntAt(bytes, at + 8, 4, b.length) && IntAt(bytes, at + 12, 4, b.logicalLen)
    && IntAt(bytes, at + 16, 4, b.checksum) && at + 52 <= |bytes| && bytes[at + 20..at + 52] == b.hash
  }

  predicate EntryAt(bytes: Bytes, at: nat, e: PageEntry) {
    && IntAt(bytes, at, 8, e.offset) && IntAt(bytes, at + 8, 4, e.length)
    && IntAt(bytes, at + 12, 8, e.startBlock) && IntAt(bytes, at + 20, 8, e.startLogical)
  }

  lemma {:induction false} LeDigit(n: nat, k: nat, i: nat)
    requires i < k
    ensures NatOf(Le(n, k)[i]) == Digit(n, i)
  {
    hide ByteOf, NatOf;
    if i == 0 { ByteInverts(n % 256); } else { LeDigit(n / 256, k - 1, i - 1); }
  }

  /** A number written between other bytes. */
  lemma IntBetween(before: Bytes, n: nat, k: nat, after: Bytes)
    ensures IntAt(before + Le(n, k) + after, |before|, k, n)
  {
    hide Le, NatOf, Digit;
    var bytes := before + Le(n, k) + after;
    forall i: nat {:trigger Digit(n, i)} | i < k ensures NatOf(bytes[|before| + i]) == Digit(n, i) {
      LeDigit(n, k, i);
      assert bytes[|before| + i] == Le(n, k)[i];
    }
  }

  lemma IntInside(a: Bytes, b: Bytes, c: Bytes, at: nat, k: nat, n: nat)
    requires IntAt(b, at, k, n)
    ensures IntAt(a + b + c, |a| + at, k, n)
  {
    hide NatOf, Digit;
    forall i: nat {:trigger Digit(n, i)} | i < k ensures NatOf((a + b + c)[|a| + at + i]) == Digit(n, i) {
      assert (a + b + c)[|a| + at + i] == b[at + i];
    }
  }

  lemma BlockLayout(b: BlockInfo)
    requires b.Fits()
    ensures BlockAt(EncodeBlock(b), 0, b) && |EncodeBlock(b)| == 52
  {
    hide IntAt, Le;
    var o, l, n, c := Le(b.offset, 8), Le(b.length, 4), Le(b.logicalLen, 4), Le(b.checksum, 4);
    var whole := EncodeBlock(b);
    assert whole == [] + o + (l + n + c + b.hash) == o + l + (n + c + b.hash) == (o + l) + n + (c + b.hash);
    assert whole == (o + l + n) + c + b.hash;
    IntBetween([], b.offset, 8, l + n + c + b.hash);
    IntBetween(o, b.length, 4, n + c + b.hash);
    IntBetween(o + l, b.logicalLen, 4, c + b.hash);
    IntBetween(o + l + n, b.checksum, 4, b.hash);
  }

  lemma EntryLayout(e: PageEntry)
    ensures EntryAt(EncodeEntry(e), 0, e) && |EncodeEntry(e)| == 28
  {
    hide IntAt, Le;
    var o, l, b, p := Le(e.offset, 8), Le(e.length, 4), Le(e.startBlock, 8), Le(e.startLogical, 8);
    var whole := EncodeEntry(e);
    assert whole == [] + o + (l + b + p) == o + l + (b + p) == (o + l) + b + p == (o + l + b) + p + [];
    IntBetween([], e.offset, 8, l + b + p);
    IntBetween(o, e.length, 4, b + p);
    IntBetween(o + l, e.startBlock, 8, p);
    IntBetween(o + l + b, e.startLogical, 8, []);
  }

  /** Of records of one width, each lies at its multiple of that width. */
  lemma {:induction false} RecordAt<T>(enc: T -> Bytes, xs: seq<T>, width: nat, i: nat) returns (a: Bytes, c: Bytes)
    requires forall j {:trigger xs[j]} :: 0 <= j < |xs| ==> |enc(xs[j])| == width
    requires i < |xs|
    ensures EncodeAll(enc, xs) == a + enc(xs[i]) + c && |a| == width * i
    ensures |EncodeAll(enc, xs)| == width * |xs|
  {
    if i == 0 {
      a, c := [], EncodeAll(enc, xs[1..]);
      AllWidth(enc, xs, width);
    } else {
      a, c := RecordAt(enc, xs[1..], width, i - 1);
      assert xs[1..][i - 1] == xs[i];
      a := enc(xs[0]) + a;
      AllWidth(enc, xs, width);
    }
  }

  lemma {:induction false} AllWidth<T>(enc: T -> Bytes, xs: seq<T>, width: nat)
    requires forall j {:trigger xs[j]} :: 0 <= j < |xs| ==> |enc(xs[j])| == width
    ensures |EncodeAll(enc, xs)| == width * |xs|
  {
    if xs != [] {
      AllWidth(enc, xs[1..], width);
      assert width * |xs| == width + width * (|xs| - 1);
    }
  }

  lemma BlockInside(a: Bytes, b: BlockInfo, c: Bytes)
    requires b.Fits()
    ensures BlockAt(a + EncodeBlock(b) + c, |a|, b)
  {
    BlockLayout(b);
    var raw := EncodeBlock(b);
    hide IntAt, EncodeBlock;
    IntInside(a, raw, c, 0, 8, b.offset);
    IntInside(a, raw, c, 8, 4, b.length);
    IntInside(a, raw, c, 12, 4, b.logicalLen);
    IntInside(a, raw, c, 16, 4, b.checksum);
    assert (a + raw + c)[|a| + 20..|a| + 52] == raw[20..52];
  }

  lemma EntryInside(a: Bytes, e: PageEntry, c: Bytes)
    ensures EntryAt(a + EncodeEntry(e) + c, |a|, e)
  {
    EntryLayout(e);
    hide IntAt, EncodeEntry;
    IntInside(a, EncodeEntry(e), c, 0, 8, e.offset);
    IntInside(a, EncodeEntry(e), c, 8, 4, e.length);
    IntInside(a, EncodeEntry(e), c, 12, 8, e.startBlock);
    IntInside(a, EncodeEntry(e), c, 20, 8, e.startLogical);
  }

  lemma PageBlock(p: seq<BlockInfo>, i: nat)
    requires Encodable(p) && i < |p|
    ensures BlockAt(EncodePage(p), 8 + 52 * i, p[i])
  {
    hide BlockAt, Le, EncodeBlock, EncodeAll, BlockInfo.Fits;
    forall i {:trigger p[i]} | 0 <= i < |p| ensures |EncodeBlock(p[i])| == 52 { BlockLayout(p[i]); }
    var a, c := RecordAt(EncodeBlock, p, 52, i);
    assert EncodePage(p) == (Le(|p|, 8) + a) + EncodeBlock(p[i]) + c;
    BlockInside(Le(|p|, 8) + a, p[i], c);
  }

  /** A page is its number of blocks and then their descriptors, 52 bytes each. */
  lemma PageLayout(p: seq<BlockInfo>)
    requires Encodable(p)
    ensures |EncodePage(p)| == 8 + 52 * |p| && IntAt(EncodePage(p), 0, 8, |p|)
    ensures forall i {:trigger p[i]} :: 0 <= i < |p| ==> BlockAt(EncodePage(p), 8 + 52 * i, p[i])
  {
    hide IntAt, BlockAt, Le, EncodeBlock, EncodeAll;
    forall i {:trigger p[i]} | 0 <= i < |p|
      ensures |EncodeBlock(p[i])| == 52 && BlockAt(EncodePage(p), 8 + 52 * i, p[i])
    {
      BlockLayout(p[i]);
      PageBlock(p, i);
    }
    AllWidth(EncodeBlock, p, 52);
    assert EncodePage(p) == [] + Le(|p|, 8) + EncodeAll(EncodeBlock, p);
    IntBetween([], |p|, 8, EncodeAll(EncodeBlock, p));
  }

  lemma OneEntry(before: Bytes, es: seq<PageEntry>, after: Bytes, i: nat)
    requires i < |es|
    ensures EntryAt(before + EncodeSeq(EncodeEntry, es) + after, |before| + 8 + 28 * i, es[i])
  {
    hide EntryAt, Le, EncodeEntry, EncodeAll;
    forall i {:trigger es[i]} | 0 <= i < |es| ensures |EncodeEntry(es[i])| == 28 { EntryLayout(es[i]); }
    var a, c := RecordAt(EncodeEntry, es, 28, i);
    var front := before + Le(|es|, 8) + a;
    SplitAround(before, Le(|es|, 8), a, EncodeEntry(es[i]), c, after);
    EntryInside(front, es[i], c + after);
  }

  lemma SplitAround(before: Bytes, n: Bytes, a: Bytes, e: Bytes, c: Bytes, after: Bytes)
    ensures before + (n + (a + e + c)) + after == (before + n + a) + e + (c + after)
  {
  }

  /** The entries of one stream behind `before`: their number, and 28 bytes each. */
  lemma EntriesLayout(before: Bytes, es: seq<PageEntry>, after: Bytes)
    ensures var bytes := before + EncodeSeq(EncodeEntry, es) + after;
      && |EncodeSeq(EncodeEntry, es)| == 8 + 28 * |es| && IntAt(bytes, |before|, 8, |es|)
      && forall i {:trigger es[i]} :: 0 <= i < |es| ==> EntryAt(bytes, |before| + 8 + 28 * i, es[i])
  {
    hide IntAt, EntryAt, Le, EncodeEntry, EncodeAll;
    forall i {:trigger es[i]} | 0 <= i < |es|
      ensures |EncodeEntry(es[i])| == 28
      ensures EntryAt(before + EncodeSeq(EncodeEntry, es) + after, |before| + 8 + 28 * i, es[i])
    {
      EntryLayout(es[i]);
      OneEntry(before, es, after, i);
    }
    AllWidth(EncodeEntry, es, 28);
    var n, all := Le(|es|, 8), EncodeAll(EncodeEntry, es);
    assert before + EncodeSeq(EncodeEntry, es) + after == before + n + (all + after);
    IntBetween(before, |es|, 8, all + after);
  }

  /** The master index: main entries, auxiliary entries, and the declared sizes of both streams. */
  lemma MasterLayout(m: MasterIndex)
    ensures var bytes, main, aux := EncodeMaster(m), |m.mainPages|, |m.auxiliaryPages|;
      && |bytes| == 32 + 28 * (main + aux)
      && IntAt(bytes, 0, 8, main) && IntAt(bytes, 8 + 28 * main, 8, aux)
      && (forall i {:trigger m.mainPages[i]} :: 0 <= i < main ==> EntryAt(bytes, 8 + 28 * i, m.mainPages[i]))
      && (forall i {:trigger m.auxiliaryPages[i]} :: 0 <= i < aux ==>
        EntryAt(bytes, 16 + 28 * main + 28 * i, m.auxiliaryPages[i]))
      && IntAt(bytes, 16 + 28 * (main + aux), 8, m.mainSize)
      && IntAt(bytes, 24 + 28 * (main + aux), 8, m.auxiliarySize)
  {
    hide IntAt, EntryAt, Le, EncodeSeq;
    var bytes := EncodeMaster(m);
    var main, aux := EncodeSeq(EncodeEntry, m.mainPages), EncodeSeq(EncodeEntry, m.auxiliaryPages);
    var size1, size2 := Le(m.mainSize, 8), Le(m.auxiliarySize, 8);
    assert bytes == [] + main + (aux + size1 + size2) == main + aux + (size1 + size2);
    assert bytes == (main + aux) + size1 + size2 == (main + aux + size1) + size2 + [];
    EntriesLayout([], m.mainPages, aux + size1 + size2);
    EntriesLayout(main, m.auxiliaryPages, size1 + size2);
    IntBetween(main + aux, m.mainSize, 8, size2);
    IntBetween(main + aux + size1, m.auxiliarySize, 8, []);
  }

  /** The fixed part of a header: magic, version, block size, index offset and the number of parents. */
  lemma HeaderLayout(h: Header)
    requires |h.magic| == 4
    ensures var bytes := EncodeHeader(h);
      && |bytes| >= 28 && bytes[..4] == h.magic && IntAt(bytes, 4, 4, h.version) && IntAt(bytes, 8, 4, h.blockSize)
      && IntAt(bytes, 12, 8, h.indexOffset) && IntAt(bytes, 20, 8, |h.parentPaths|)
  {
    hide IntAt, Le, EncodeAll, EncodePlace, EncodeOptions;
    var v, b, x, n := Le(h.version, 4), Le(h.blockSize, 4), Le(h.indexOffset, 8), Le(|h.parentPaths|, 8);
    var rest := EncodeAll(EncodeString, h.parentPaths) + (EncodePlace(h.dictionaryOffset, h.dictionaryLength) +
      (EncodePlace(h.metadataOffset, h.metadataLength) + (EncodePlace(h.signatureOffset, h.signatureLength) +
      EncodeOptions(OptionsOf(h)))));
    var bytes := EncodeHeader(h);
    FixedPart(h, v, b, x, n, rest);
    hide *;
    Regroup(h.magic, v, b, x, n, rest);
    IntBetween(h.magic, h.version, 4, b + x + n + rest);
    IntBetween(h.magic + v, h.blockSize, 4, x + n + rest);
    IntBetween(h.magic + v + b, h.indexOffset, 8, n + rest);
    IntBetween(h.magic + v + b + x, |h.parentPaths|, 8, rest);
  }

  lemma FixedPart(h: Header, v: Bytes, b: Bytes, x: Bytes, n: Bytes, rest: Bytes)
    requires v == Le(h.version, 4) && b == Le(h.blockSize, 4) && x == Le(h.indexOffset, 8)
    requires n == Le(|h.parentPaths|, 8)
    requires rest == EncodeAll(EncodeString, h.parentPaths) + (EncodePlace(h.dictionaryOffset, h.dictionaryLength) +
      (EncodePlace(h.metadataOffset, h.metadataLength) + (EncodePlace(h.signatureOffset, h.signatureLength) +
      EncodeOptions(OptionsOf(h)))))
    ensures EncodeHeader(h) == h.magic + v + b + x + n + rest
  {
    hide Le, EncodeAll, EncodePlace, EncodeOptions;
  }

  lemma Regroup(m: Bytes, v: Bytes, b: Bytes, x: Bytes, n: Bytes, rest: Bytes)
    ensures var whole := m + v + b + x + n + rest;
      && whole == m + v + (b + x + n + rest) == (m + v) + b + (x + n + rest)
      && whole == (m + v + b) + x + (n + rest) == (m + v + b + x) + n + rest
      && whole[..|m|] == m
  {
  }

  // ---------------------------------------------------------------------------------------------
  // The laws

  /** The program's codec: whatever compressor, cipher and hash, with these serializers. */
  function WithBincode(codec: Codec): Codec {
    codec.(encodePage := EncodePage, decodePage := DecodePage, encodeMaster := EncodeMaster,
           decodeMaster := DecodeMaster, encodeHeader := EncodeHeader, decodeHeader := DecodeHeader)
  }

  /** Nothing has to be assumed about the records on disk: their serializers have the laws the proofs rely on. */
  lemma BincodeIsLawful(codec: Codec)
    requires codec.ForeignLawful()
    ensures WithBincode(codec).Lawful()
  {
    SameForeign(codec);
    SerializersAreLawful(codec);
    hide *;
    LawfulParts(WithBincode(codec));
  }

  lemma LawfulParts(c: Codec)
    requires c.ForeignLawful() && c.SerializersLawful()
    ensures c.Lawful()
  {
    hide Codec.ForeignLawful, Codec.SerializersLawful;
  }

  lemma SameForeign(codec: Codec)
    requires codec.ForeignLawful()
    ensures WithBincode(codec).ForeignLawful()
  {
  }

  lemma SerializersAreLawful(codec: Codec)
    ensures WithBincode(codec).SerializersLawful()
  {
    var c := WithBincode(codec);
    forall p, rest | Encodable(p) ensures c.decodePage(c.encodePage(p) + rest) == Some(p) { PageInverts(p, rest); }
    forall p | Encodable(p) && p != [] ensures 0 < |c.encodePage(p)| < U32_LIMIT { BlocksLength(p); }
    hide EncodePage, DecodePage, DecodeMaster, EncodeHeader, DecodeHeader, Header.Fits;
    forall m: MasterIndex, rest | m.Fits() ensures c.decodeMaster(c.encodeMaster(m) + rest) == Some(m) {
      MasterInverts(m, rest);
    }
    forall m ensures 0 < |c.encodeMaster(m)| {}
    forall h: Header, rest | h.Fits() ensures c.decodeHeader(c.encodeHeader(h) + rest) == Some(h) {
      HeaderInverts(h, rest);
    }
  }
}
