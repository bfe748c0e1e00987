// Shared vocabulary: byte strings, optional values and failures.
module Common {
  type Bytes = seq<bv8>

  datatype Option<+T> = None | Some(value: T)

  datatype Error =
    | FormatError          // bad magic, checksum mismatch, undecodable page
    | EncryptionError      // missing key or failed authentication
    | IoError              // backend read outside the file, failed upload

  datatype Result<+T> = Ok(value: T) | Err(error: Error)

  const U32_LIMIT: nat := 0x1_0000_0000
  const U64_MAX: nat := 0xFFFF_FFFF_FFFF_FFFF

  /** The `as u32` cast: it drops the high bits. */
  function AsU32(n: nat): nat { n % U32_LIMIT }

  /** A truth value as a count. */
  function One(b: bool): nat { if b then 1 else 0 }

  function Min(a: nat, b: nat): nat { if a <= b then a else b }

  function Zeros(n: nat): (z: Bytes)
    ensures |z| == n && forall i :: 0 <= i < n ==> z[i] == 0
  {
    seq(n, _ => 0)
  }

  /** The part of `b` that a read of `n` bytes at `off` may return: cut at the end of `b`. */
  function Cut(b: Bytes, off: nat, n: nat): (r: Bytes)
    ensures |r| <= n
  {
    if off >= |b| then [] else b[off..off + Min(n, |b| - off)]
  }

  function Flatten(parts: seq<Bytes>): Bytes {
    if parts == [] then [] else Flatten(parts[..|parts| - 1]) + parts[|parts| - 1]
  }

  lemma {:induction false} FlattenAppend(a: seq<Bytes>, b: seq<Bytes>)
    ensures Flatten(a + b) == Flatten(a) + Flatten(b)
  {
    if b == [] {
      assert a + b == a;
    } else {
      var n := |b| - 1;
      assert (a + b)[..|a + b| - 1] == a + b[..n];
      FlattenAppend(a, b[..n]);
    }
  }
}
