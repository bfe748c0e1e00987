// Byte shuffling by lanes and exclusive or, in place (crates/core/src/algo/transform.rs).
module Transform {
  import opened Common

  /** Full elements of `size` bytes each in `n` bytes; what is left over is the tail. */
  function Elements(n: nat, size: nat): nat
    requires size > 0
  {
    n / size
  }

  predicate Untouched(n: nat, size: nat) { size <= 1 || n < size }

  /** Where byte `p` goes: byte `j` of element `i` becomes number `i` of lane `j`. */
  function Lane(p: nat, size: nat, count: nat): nat
    requires size > 0
  {
    (p % size) * count + p / size
  }

  /** Where the byte at `q` of the lanes comes from. */
  function Origin(q: nat, size: nat, count: nat): nat
    requires count > 0
  {
    (q % count) * size + q / count
  }

  /** A number written as quotient and remainder has just those. */
  lemma QuotientRemainder(a: nat, b: nat, r: nat)
    requires r < b
    ensures (a * b + r) / b == a && (a * b + r) % b == r
  {
    var n := a * b + r;
    assert n == (n / b) * b + n % b;
    if n / b < a { Monotone(n / b + 1, a, b); }
    if n / b > a { Monotone(a + 1, n / b, b); }
  }

  lemma Monotone(x: nat, y: nat, b: nat)
    requires x <= y
    ensures x * b <= y * b
  {
  }

  lemma ProductBound(i: nat, j: nat, rows: nat, columns: nat)
    requires i < rows && j < columns
    ensures i * columns + j < rows * columns
  {
    assert (i + 1) * columns <= rows * columns;
  }

  /** `Lane` is a bijection on the full elements, and `Origin` its inverse. */
  lemma LaneBijection(p: nat, size: nat, count: nat)
    requires size > 0 && count > 0 && p < count * size
    ensures Lane(p, size, count) < count * size && Origin(Lane(p, size, count), size, count) == p
    ensures Origin(p, size, count) < count * size && Lane(Origin(p, size, count), size, count) == p
  {
    Transposes(p, size, count);
    assert count * size == size * count;
    Transposes(p, count, size);
  }

  /** Transposing a `b` by `a` grid of positions and back. */
  lemma Transposes(p: nat, a: nat, b: nat)
    requires a > 0 && b > 0 && p < b * a
    ensures var q := (p % a) * b + p / a; q < a * b && (q % b) * a + q / b == p
  {
    var i, j := p / a, p % a;
    assert p == i * a + j;
    if i >= b { Monotone(b, i, a); }
    ProductBound(j, i, a, b);
    QuotientRemainder(j, b, i);
  }

  // ---------------------------------------------------------------------------------------------
  // Meaning

  function Shuffled(s: Bytes, size: nat): (r: Bytes)
    ensures |r| == |s|
  {
    if Untouched(|s|, size) then s
    else
      var count := Elements(|s|, size);
      seq(|s|, q requires 0 <= q < |s| => s[ShuffleSource(|s|, size, q)])
  }

  /** Which byte a shuffled buffer has at `q`: the tail stays where it is. */
  function ShuffleSource(n: nat, size: nat, q: nat): (p: nat)
    requires !Untouched(n, size) && q < n
    ensures p < n
  {
    var count := Elements(n, size);
    FullElements(n, size);
    if q < count * size then
      LaneBijection(q, size, count);
      Origin(q, size, count)
    else q
  }

  function Unshuffled(s: Bytes, size: nat): (r: Bytes)
    ensures |r| == |s|
  {
    if Untouched(|s|, size) then s
    else seq(|s|, p requires 0 <= p < |s| => s[UnshuffleSource(|s|, size, p)])
  }

  function UnshuffleSource(n: nat, size: nat, p: nat): (q: nat)
    requires !Untouched(n, size) && p < n
    ensures q < n
  {
    var count := Elements(n, size);
    FullElements(n, size);
    if p < count * size then
      LaneBijection(p, size, count);
      Lane(p, size, count)
    else p
  }

  lemma FullElements(n: nat, size: nat)
    requires !Untouched(n, size)
    ensures 0 < Elements(n, size) && Elements(n, size) * size <= n
  {
    assert n == (n / size) * size + n % size;
  }

  lemma SourcesInvert(n: nat, size: nat, p: nat)
    requires !Untouched(n, size) && p < n
    ensures ShuffleSource(n, size, UnshuffleSource(n, size, p)) == p
    ensures UnshuffleSource(n, size, ShuffleSource(n, size, p)) == p
  {
    FullElements(n, size);
    if p < Elements(n, size) * size { LaneBijection(p, size, Elements(n, size)); }
  }

  /** Unshuffling undoes shuffling and shuffling undoes unshuffling, for every buffer and element size. */
  lemma ShuffleInverse(s: Bytes, size: nat)
    ensures Unshuffled(Shuffled(s, size), size) == s
    ensures Shuffled(Unshuffled(s, size), size) == s
  {
    if !Untouched(|s|, size) {
      forall p | 0 <= p < |s|
        ensures Unshuffled(Shuffled(s, size), size)[p] == s[p] && Shuffled(Unshuffled(s, size), size)[p] == s[p]
      {
        SourcesInvert(|s|, size, p);
        hide ShuffleSource, UnshuffleSource;
      }
    }
  }

  /** Reordering by an injective choice of sources keeps the bytes. */
  lemma {:induction false} Reordered(s: Bytes, r: Bytes, source: seq<nat>)
    requires |s| == |r| == |source|
    requires forall q :: 0 <= q < |r| ==> source[q] < |s| && r[q] == s[source[q]]
    requires forall q, t :: 0 <= q < t < |r| ==> source[q] != source[t]
    ensures multiset(r) == multiset(s)
    decreases |s|
  {
    if s != [] {
      var n := |s| - 1;
      var k := source[n];
      var s' := s[..k] + s[k + 1..];
      var source' := seq(n, q requires 0 <= q < n => if source[q] < k then source[q] else source[q] - 1);
      assert forall q :: 0 <= q < n ==> source[q] != k;
      Reordered(s', r[..n], source');
      assert r == r[..n] + [r[n]];
      assert s == s[..k] + [s[k]] + s[k + 1..];
      assert multiset(s) == multiset(s') + multiset{s[k]};
    }
  }

  /** Neither direction loses or invents a byte. */
  lemma ShuffleKeepsBytes(s: Bytes, size: nat)
    ensures multiset(Shuffled(s, size)) == multiset(s) && multiset(Unshuffled(s, size)) == multiset(s)
  {
    if !Untouched(|s|, size) {
      var n := |s|;
      var there := seq(n, q requires 0 <= q < n => ShuffleSource(n, size, q));
      var back := seq(n, q requires 0 <= q < n => UnshuffleSource(n, size, q));
      forall q: nat | q < n
        ensures UnshuffleSource(n, size, there[q]) == q && ShuffleSource(n, size, back[q]) == q
      {
        SourcesInvert(n, size, q);
      }
      hide ShuffleSource, UnshuffleSource;
      Reordered(s, Shuffled(s, size), there);
      Reordered(s, Unshuffled(s, size), back);
    }
  }

  // ---------------------------------------------------------------------------------------------
  // In place

  /** Groups the bytes of `data` by lane; `scratch` comes back as the copy that was worked from. */
  method ByteShuffle(data: array<bv8>, size: nat, scratch: Bytes) returns (copy: Bytes)
    modifies data
    ensures data[..] == Shuffled(old(data[..]), size)
    ensures copy == if Untouched(data.Length, size) then scratch else old(data[..])
  {
    hide LaneDone, Lane, Origin, ShuffleSource, UnshuffleSource;
    if size <= 1 || data.Length < size {
      return scratch;
    }
    copy := data[..];
    var count := data.Length / size;
    FullElements(data.Length, size);
    var i := 0;
    while i < count
      invariant i <= count
      invariant forall p: nat :: p < i * size ==> LaneDone(data[..], copy, size, count, p)
      invariant forall p :: count * size <= p < data.Length ==> data[p] == copy[p]
    {
      var j := 0;
      while j < size
        invariant j <= size
        invariant forall p: nat :: p < i * size + j ==> LaneDone(data[..], copy, size, count, p)
        invariant forall p :: count * size <= p < data.Length ==> data[p] == copy[p]
      {
        ghost var before := data[..];
        ProductBound(j, i, size, count);
        ProductBound(i, j, count, size);
        data[j * count + i] := copy[i * size + j];
        NextLane(before, data[..], copy, size, count, i, j);
        j := j + 1;
      }
      assert i * size + size == (i + 1) * size;
      i := i + 1;
    }
    LanesDone(data[..], copy, size, count);
  }

  /** Byte `p` of the copy has reached its lane. */
  ghost predicate LaneDone(data: Bytes, copy: Bytes, size: nat, count: nat, p: nat)
    requires size > 0
  {
    p < |copy| && Lane(p, size, count) < |data| && data[Lane(p, size, count)] == copy[p]
  }

  lemma NextLane(before: Bytes, after: Bytes, copy: Bytes, size: nat, count: nat, i: nat, j: nat)
    requires i < count && j < size && |before| == |copy| && count * size <= |copy|
    requires i * size + j < count * size && j * count + i < count * size
    requires after == before[j * count + i := copy[i * size + j]]
    requires forall p: nat :: p < i * size + j ==> LaneDone(before, copy, size, count, p)
    ensures forall p: nat :: p < i * size + j + 1 ==> LaneDone(after, copy, size, count, p)
    ensures forall p :: count * size <= p < |copy| ==> after[p] == before[p]
  {
    var here := i * size + j;
    QuotientRemainder(i, size, j);
    assert Lane(here, size, count) == j * count + i;
    LaneBijection(here, size, count);
    forall p: nat | p < here ensures LaneDone(after, copy, size, count, p) {
      assert LaneDone(before, copy, size, count, p);
      LaneBijection(p, size, count);
    }
  }

  lemma LanesDone(data: Bytes, copy: Bytes, size: nat, count: nat)
    requires |data| == |copy| && !Untouched(|copy|, size) && count == Elements(|copy|, size)
    requires forall p: nat :: p < count * size ==> LaneDone(data, copy, size, count, p)
    requires forall p :: count * size <= p < |copy| ==> data[p] == copy[p]
    ensures data == Shuffled(copy, size)
  {
    FullElements(|copy|, size);
    forall q | 0 <= q < |data| ensures data[q] == Shuffled(copy, size)[q] {
      if q < count * size {
        LaneBijection(q, size, count);
        assert LaneDone(data, copy, size, count, Origin(q, size, count));
      }
    }
  }

  /** Puts the lanes back into elements. */
  method ByteUnshuffle(data: array<bv8>, size: nat, scratch: Bytes) returns (copy: Bytes)
    modifies data
    ensures data[..] == Unshuffled(old(data[..]), size)
    ensures copy == if Untouched(data.Length, size) then scratch else old(data[..])
  {
    hide ElementDone, Lane, Origin, ShuffleSource, UnshuffleSource;
    if size <= 1 || data.Length < size {
      return scratch;
    }
    copy := data[..];
    var count := data.Length / size;
    FullElements(data.Length, size);
    var i := 0;
    while i < count
      invariant i <= count
      invariant forall p: nat :: p < i * size ==> ElementDone(data[..], copy, size, count, p)
      invariant forall p :: count * size <= p < data.Length ==> data[p] == copy[p]
    {
      var j := 0;
      while j < size
        invariant j <= size
        invariant forall p: nat :: p < i * size + j ==> ElementDone(data[..], copy, size, count, p)
        invariant forall p :: count * size <= p < data.Length ==> data[p] == copy[p]
      {
        ghost var before := data[..];
        ProductBound(j, i, size, count);
        ProductBound(i, j, count, size);
        data[i * size + j] := copy[j * count + i];
        NextElement(before, data[..], copy, size, count, i, j);
        j := j + 1;
      }
      assert i * size + size == (i + 1) * size;
      i := i + 1;
    }
    ElementsDone(data[..], copy, size, count);
  }

  /** Position `p` has received its byte. */
  ghost predicate ElementDone(data: Bytes, copy: Bytes, size: nat, count: nat, p: nat)
    requires size > 0
  {
    p < |data| && Lane(p, size, count) < |copy| && data[p] == copy[Lane(p, size, count)]
  }

  lemma NextElement(before: Bytes, after: Bytes, copy: Bytes, size: nat, count: nat, i: nat, j: nat)
    requires i < count && j < size && |before| == |copy| && count * size <= |copy|
    requires i * size + j < count * size && j * count + i < count * size
    requires after == before[i * size + j := copy[j * count + i]]
    requires forall p: nat :: p < i * size + j ==> ElementDone(before, copy, size, count, p)
    ensures forall p: nat :: p < i * size + j + 1 ==> ElementDone(after, copy, size, count, p)
    ensures forall p :: count * size <= p < |copy| ==> after[p] == before[p]
  {
    QuotientRemainder(i, size, j);
    assert Lane(i * size + j, size, count) == j * count + i;
    forall p: nat | p < i * size + j ensures ElementDone(after, copy, size, count, p) {
      assert ElementDone(before, copy, size, count, p);
    }
  }

  lemma ElementsDone(data: Bytes, copy: Bytes, size: nat, count: nat)
    requires |data| == |copy| && !Untouched(|copy|, size) && count == Elements(|copy|, size)
    requires forall p: nat :: p < count * size ==> ElementDone(data, copy, size, count, p)
    requires forall p :: count * size <= p < |copy| ==> data[p] == copy[p]
    ensures data == Unshuffled(copy, size)
  {
    forall p: nat | p < |data| ensures data[p] == Unshuffled(copy, size)[p] {
      if p < count * size { assert ElementDone(data, copy, size, count, p); }
    }
  }

  /** Byte `j` of element `i` becomes byte `i` of lane `j` by shuffling, and comes from there by unshuffling. */
  lemma ElementByte(s: Bytes, size: nat, i: nat, j: nat)
    requires size > 0 && j < size && i < |s| / size
    ensures var count := |s| / size;
      && i * size + j < |s| && j * count + i < |s|
      && Shuffled(s, size)[j * count + i] == s[i * size + j]
      && Unshuffled(s, size)[i * size + j] == s[j * count + i]
  {
    hide *;
    var count := |s| / size;
    Places(size, count, i, j);
    if size == 1 {
      SingleBytes(s);
    } else {
      WholeElements(|s|, size);
      SourcesAre(|s|, size, j * count + i, i * size + j);
      Moved(s, size, j * count + i);
      Moved(s, size, i * size + j);
    }
  }

  lemma Places(size: nat, count: nat, i: nat, j: nat)
    requires i < count && j < size
    ensures i * size + j < count * size && j * count + i < count * size
    ensures Origin(j * count + i, size, count) == i * size + j && Lane(i * size + j, size, count) == j * count + i
  {
    ProductBound(i, j, count, size);
    ProductBound(j, i, size, count);
    QuotientRemainder(i, size, j);
    QuotientRemainder(j, count, i);
  }

  lemma SingleBytes(s: Bytes)
    ensures Shuffled(s, 1) == s && Unshuffled(s, 1) == s
  {
  }

  lemma WholeElements(n: nat, size: nat)
    requires size > 1 && n / size > 0
    ensures !Untouched(n, size) && Elements(n, size) == n / size && n / size * size <= n
  {
  }

  lemma SourcesAre(n: nat, size: nat, q: nat, p: nat)
    requires !Untouched(n, size)
    requires q < Elements(n, size) * size <= n && p < Elements(n, size) * size
    requires Origin(q, size, Elements(n, size)) == p && Lane(p, size, Elements(n, size)) == q
    ensures ShuffleSource(n, size, q) == p && UnshuffleSource(n, size, p) == q
  {
    hide Origin, Lane, Elements;
  }

  lemma Moved(s: Bytes, size: nat, q: nat)
    requires !Untouched(|s|, size) && q < |s|
    ensures Shuffled(s, size)[q] == s[ShuffleSource(|s|, size, q)]
    ensures Unshuffled(s, size)[q] == s[UnshuffleSource(|s|, size, q)]
  {
    hide ShuffleSource, UnshuffleSource;
  }

  /** Bytes after the last full element stay, and so do all of a buffer without elements to shuffle. */
  lemma TailStays(s: Bytes, size: nat, q: nat)
    requires q < |s| && (size > 0 ==> q >= |s| / size * size)
    ensures Shuffled(s, size)[q] == s[q] && Unshuffled(s, size)[q] == s[q]
  {
  }

  // ---------------------------------------------------------------------------------------------
  // Exclusive or

  function Xored(a: Bytes, b: Bytes): (r: Bytes)
    requires |a| == |b|
    ensures |r| == |a|
  {
    seq(|a|, i requires 0 <= i < |a| => a[i] ^ b[i])
  }

  /**
   Applying a delta twice restores the bytes; the delta between two buffers turns one into the other; a delta of zeros
   changes nothing.
   */
  lemma XorRestores(a: Bytes, b: Bytes)
    requires |a| == |b|
    ensures Xored(Xored(a, b), b) == a
    ensures Xored(Xored(a, b), a) == b
    ensures Xored(a, Zeros(|a|)) == a
  {
    forall i | 0 <= i < |a| ensures a[i] ^ b[i] ^ b[i] == a[i] && a[i] ^ b[i] ^ a[i] == b[i] && a[i] ^ 0 == a[i] {}
  }

  method XorInPlace(dst: array<bv8>, src: Bytes)
    requires dst.Length == |src|
    modifies dst
    ensures dst[..] == Xored(old(dst[..]), src)
    ensures forall k :: 0 <= k < dst.Length ==> dst[k] == old(dst[k]) ^ src[k]
  {
    var i := 0;
    while i < |src|
      invariant i <= |src|
      invariant forall k :: 0 <= k < dst.Length ==> dst[k] == if k < i then old(dst[k]) ^ src[k] else old(dst[k])
    {
      dst[i] := dst[i] ^ src[i];
      i := i + 1;
    }
  }
}
