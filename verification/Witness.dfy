// Concrete inputs: the laws can be met, and an archive with 64 MiB of metadata does not open.
module Witness {
  import opened Common
  import opened Format
  import opened WriterModel
  import opened WriterRuns
  import opened Recovery
  import opened RoundTrip
  import Bincode
  import Reader

  function Ones(): (h: Hash)
    ensures |h| == HASH_SIZE && h != ZERO_HASH
  {
    var h := seq(HASH_SIZE, _ => 1);
    assert h[0] != ZERO_HASH[0];
    h
  }

  /** Nothing is compressed or encrypted, and the only chunk in use is a single byte. */
  function PlainAlgorithms(): Codec {
    Codec(
      d => d, (d, _) => Some(d), (d, _) => d, (d, _) => Some(d), _ => Ones(), _ => 0,
      _ => [], _ => None, _ => [], _ => None, _ => [], _ => None, {[1]})
  }

  function PlainCodec(): Codec { Bincode.WithBincode(PlainAlgorithms()) }

  /** What the proofs ask of compressor, cipher, hash, checksum and serializers can be had. */
  lemma LawsCanBeMet()
    ensures PlainCodec().Lawful()
  {
    Bincode.BincodeIsLawful(PlainAlgorithms());
  }

  function PlainConfig(): Config {
    Config(PlainCodec(), false, None, 65536, true, KeyParams([], 0), Lz4, None)
  }

  function Large(): Option<Bytes> { Some(Zeros(MAX_INDEX_SIZE)) }

  lemma EmptyMaster()
    ensures |PlainCodec().encodeMaster(EMPTY_MASTER)| == 32 && EMPTY_MASTER.Fits()
  {
    assert |Bincode.EncodeMaster(EMPTY_MASTER)| == 32;
  }

  lemma EmptyRun(cfg: Config)
    ensures Close(cfg, Run(cfg, Initial(), [])) == Initial() && RunPermitted(cfg, Initial(), [])
    ensures Initial().master == EMPTY_MASTER && Initial().currentOffset == HEADER_SIZE
    ensures Initial().dictOffset == None && Initial().dictLen == None
  {
  }

  lemma PlainHeader()
    ensures var h := FinalHeader(PlainConfig(), Initial(), [], Large());
      h.Fits() && h.parentPaths == [] && PlainConfig().codec.encodeHeader(h) == Bincode.EncodeHeader(h)
  {
    EmptyRun(PlainConfig());
    EmptyMaster();
    hide Initial, Bincode.EncodeMaster, Bincode.EncodeHeader, Bincode.EncodePage;
  }

  /** No calls, and as much metadata as the reader is willing to read: with the index it is too much. */
  lemma TooLarge()
    ensures var cfg := PlainConfig();
      && cfg.codec.Lawful() && RunPermitted(cfg, Initial(), []) && HeaderFits(cfg, [], [], Large())
      && IndexBytes(cfg, [], Large()) == MAX_INDEX_SIZE + 32
  {
    LawsCanBeMet();
    EmptyMaster();
    EmptyRun(PlainConfig());
    PlainHeader();
    var cfg := PlainConfig();
    assert cfg.codec == PlainCodec();
    hide Initial, PlainConfig, FinalHeader, Codec.Lawful, Bincode.EncodeHeader, PlainCodec, Run, Close;
    Bincode.LoneHeaderLength(FinalHeader(cfg, Initial(), [], Large()));
  }

  /** Such an archive can be written, and not opened. */
  method WrittenButNotOpened(shardBlock: Reader.BlockKey -> nat, shardPage: nat -> nat) returns (r: Result<Bytes>)
    ensures r == Err(FormatError)
  {
    hide *;
    TooLarge();
    NoParents(PlainConfig().codec);
    assert Images([]) == [] && Reader.Archive.Closure([]) == {};
    r := WriteThenRead(PlainConfig(), [], [], [], Large(), shardBlock, shardPage, None, 0, Main, 0, 0);
  }
}
