// The sharded least-recently-used caches (crates/core/src/cache/lru.rs).
module Lru {
  import opened Common
  import opened Format

  const SHARD_COUNT: nat := 16
  const SINGLE_SHARD_CAPACITY_LIMIT: nat := 256
  const DEFAULT_PAGE_CACHE_CAPACITY: nat := 128

  // ---------------------------------------------------------------------------------------------
  // One shard: entries, most recently used first

  function Keys<K, V>(es: seq<(K, V)>): (ks: seq<K>)
    ensures |ks| == |es|
    ensures forall i :: 0 <= i < |es| ==> ks[i] == es[i].0
  {
    if es == [] then [] else [es[0].0] + Keys(es[1..])
  }

  lemma KeysCons<K, V>(k: K, v: V, es: seq<(K, V)>)
    ensures Keys([(k, v)] + es) == [k] + Keys(es)
  {
    assert ([(k, v)] + es)[1..] == es;
  }

  function Find<K(==,!new), V>(es: seq<(K, V)>, k: K): (v: Option<V>)
    ensures v.Some? <==> k in Keys(es)
  {
    if es == [] then None
    else if es[0].0 == k then Some(es[0].1)
    else Find(es[1..], k)
  }

  function Without<K(==,!new)>(ks: seq<K>, k: K): (r: seq<K>)
    ensures |r| <= |ks| && k !in r
    ensures forall x :: x in r <==> x in ks && x != k
    ensures k !in ks ==> r == ks
  {
    if ks == [] then [] else if ks[0] == k then Without(ks[1..], k) else [ks[0]] + Without(ks[1..], k)
  }

  function Drop<K(==,!new), V>(es: seq<(K, V)>, k: K): (r: seq<(K, V)>)
    ensures Keys(r) == Without(Keys(es), k)
  {
    if es == [] then []
    else
      var rest := Drop(es[1..], k);
      if es[0].0 == k then rest
      else
        KeysCons(es[0].0, es[0].1, rest);
        [(es[0].0, es[0].1)] + rest
  }

  lemma {:induction false} FindDrop<K(!new), V>(es: seq<(K, V)>, k: K, x: K)
    requires x != k
    ensures Find(Drop(es, k), x) == Find(es, x)
  {
    if es != [] {
      FindDrop(es[1..], k, x);
      var rest := Drop(es[1..], k);
      if es[0].0 != k {
        assert ([es[0]] + rest)[1..] == rest;
      }
    }
  }

  predicate Distinct<K(==,!new)>(ks: seq<K>) { forall i, j :: 0 <= i < j < |ks| ==> ks[i] != ks[j] }

  function Take<T>(n: nat, s: seq<T>): seq<T> { if |s| <= n then s else s[..n] }

  lemma {:induction false} WithoutDistinct<K(!new)>(ks: seq<K>, k: K)
    requires Distinct(ks)
    ensures Distinct(Without(ks, k)) && Distinct([k] + Without(ks, k))
    ensures k in ks ==> |Without(ks, k)| == |ks| - 1
  {
    if ks != [] {
      WithoutDistinct(ks[1..], k);
      if ks[0] == k {
        assert k !in ks[1..];
      } else {
        var r := Without(ks[1..], k);
        assert ks[0] !in r;
      }
    }
  }

  lemma {:induction false} FindTake<K(!new), V>(n: nat, es: seq<(K, V)>, k: K)
    ensures Find(Take(n, es), k) == Find(es, k) || Find(Take(n, es), k) == None
    ensures Keys(Take(n, es)) == Take(n, Keys(es))
  {
    if |es| > n && n > 0 && es[0].0 != k {
      FindTake(n - 1, es[1..], k);
      assert Take(n, es)[1..] == Take(n - 1, es[1..]);
    }
  }

  datatype Shard<K(==,!new), V> = Shard(cap: nat, entries: seq<(K, V)>) {
    predicate Valid() { 0 < cap && |entries| <= cap && Distinct(Keys(entries)) }

    /** A hit moves the entry to the front. */
    function Touch(k: K): Shard<K, V> {
      match Find(entries, k)
      case None => this
      case Some(v) => this.(entries := [(k, v)] + Drop(entries, k))
    }

    /** Insertion or update at the front; the entry at the back falls out when the shard is full. */
    function Put(k: K, v: V): Shard<K, V> {
      this.(entries := Take(cap, [(k, v)] + Drop(entries, k)))
    }

    lemma TouchValid(k: K)
      requires Valid()
      ensures Touch(k).Valid() && forall x :: Find(Touch(k).entries, x) == Find(entries, x)
    {
      WithoutDistinct(Keys(entries), k);
      if Find(entries, k).Some? {
        KeysCons(k, Find(entries, k).value, Drop(entries, k));
        forall x ensures Find(Touch(k).entries, x) == Find(entries, x) {
          assert Touch(k).entries[1..] == Drop(entries, k);
          if x != k { FindDrop(entries, k, x); }
        }
      }
    }

    lemma PutValid(k: K, v: V)
      requires Valid()
      ensures Put(k, v).Valid()
      ensures Find(Put(k, v).entries, k) == Some(v)
      ensures forall x :: x != k ==>
        Find(Put(k, v).entries, x) == Find(entries, x) || Find(Put(k, v).entries, x) == None
    {
      var rest := Drop(entries, k);
      WithoutDistinct(Keys(entries), k);
      FrontDistinct(k, v, rest, cap);
      forall x | x != k
        ensures Find(Put(k, v).entries, x) == Find(entries, x) || Find(Put(k, v).entries, x) == None
      {
        FindTake(cap, [(k, v)] + rest, x);
        FindDrop(entries, k, x);
        assert ([(k, v)] + rest)[1..] == rest;
      }
    }

    static lemma FrontDistinct(k: K, v: V, rest: seq<(K, V)>, cap: nat)
      requires Distinct([k] + Keys(rest)) && 0 < cap
      ensures var es := Take(cap, [(k, v)] + rest); Distinct(Keys(es)) && |es| <= cap && Find(es, k) == Some(v)
    {
      var es := [(k, v)] + rest;
      FindTake(cap, es, k);
      KeysCons(k, v, rest);
      assert Take(cap, es)[0] == (k, v);
    }
  }

  // ---------------------------------------------------------------------------------------------
  // Shards selected by a hash of the key

  /** The shard for a key with hash `h`, counting round and round: every shard serves its share of the hashes. */
  function Pick(h: nat, n: nat): (j: nat)
    requires 0 < n
    ensures j < n && exists rounds: nat :: h == rounds * n + j
  {
    assert h == (h / n) * n + h % n;
    h % n
  }

  datatype Sharded<!K(==,!new), V> = Sharded(shardOf: K -> nat, shards: seq<Shard<K, V>>) {
    ghost predicate Valid() {
      && (forall j {:trigger shards[j]} :: 0 <= j < |shards| ==> shards[j].Valid())
      && (forall j, k {:trigger k in Keys(shards[j].entries)} :: 0 <= j < |shards| && k in Keys(shards[j].entries) ==>
        j == Slot(k))
    }

    function Slot(k: K): (j: nat)
      requires shards != []
      ensures j < |shards|
    {
      Pick(shardOf(k), |shards|)
    }

    function Lookup(k: K): Option<V> {
      if shards == [] then None else Find(shards[Slot(k)].entries, k)
    }

    function Touch(k: K): Sharded<K, V> {
      if shards == [] then this else this.(shards := shards[Slot(k) := shards[Slot(k)].Touch(k)])
    }

    function Put(k: K, v: V): Sharded<K, V> {
      if shards == [] then this else this.(shards := shards[Slot(k) := shards[Slot(k)].Put(k, v)])
    }

    lemma TouchValid(k: K)
      requires Valid()
      ensures Touch(k).Valid() && |Touch(k).shards| == |shards|
      ensures forall x :: Touch(k).Lookup(x) == Lookup(x)
    {
      if shards != [] {
        shards[Slot(k)].TouchValid(k);
        assert forall x :: x in Keys(shards[Slot(k)].Touch(k).entries) ==> Find(shards[Slot(k)].entries, x).Some?;
      }
    }

    lemma PutValid(k: K, v: V)
      requires Valid()
      ensures Put(k, v).Valid() && |Put(k, v).shards| == |shards|
      ensures shards != [] ==> Put(k, v).Lookup(k) == Some(v)
      ensures shards == [] ==> Put(k, v).Lookup(k) == None
      ensures forall x :: x != k ==> Put(k, v).Lookup(x) == Lookup(x) || Put(k, v).Lookup(x) == None
    {
      if shards != [] {
        var sh := shards[Slot(k)];
        sh.PutValid(k, v);
        forall x | x in Keys(sh.Put(k, v).entries)
          ensures Slot(x) == Slot(k)
        {
          if x != k { assert Find(sh.entries, x).Some?; }
        }
      }
    }

    function Residents(): nat { Count(shards) }
  }

  function Count<K(!new), V>(shards: seq<Shard<K, V>>): nat {
    if shards == [] then 0 else Count(shards[..|shards| - 1]) + |shards[|shards| - 1].entries|
  }

  lemma {:induction false} CountBound<K(!new), V>(shards: seq<Shard<K, V>>, cap: nat)
    requires forall j {:trigger shards[j]} :: 0 <= j < |shards| ==> |shards[j].entries| <= cap
    ensures Count(shards) <= |shards| * cap
  {
    if shards != [] {
      CountBound(shards[..|shards| - 1], cap);
      assert |shards| * cap == (|shards| - 1) * cap + cap;
    }
  }

  /** Shard count and capacity per shard for a cache of `capacity` blocks: one exact shard, or 16 rounded up. */
  function ShardLayout(capacity: nat): (layout: (nat, nat)) {
    if capacity == 0 then (0, 0)
    else if capacity <= SINGLE_SHARD_CAPACITY_LIMIT then (1, capacity)
    else (SHARD_COUNT, (capacity + SHARD_COUNT - 1) / SHARD_COUNT)
  }

  /**
   Room for `capacity` entries: none for zero, exactly that in one shard up to 256, and above that in each of 16 shards
   the least that makes room for `capacity` in all.
   */
  predicate SizedFor<K(!new), V>(shards: seq<Shard<K, V>>, capacity: nat) {
    if capacity == 0 then shards == []
    else if capacity <= 256 then |shards| == 1 && shards[0].cap == capacity
    else |shards| == 16 && forall j {:trigger shards[j]} :: 0 <= j < 16 ==>
      shards[j].cap > 0 && 16 * (shards[j].cap - 1) < capacity <= 16 * shards[j].cap
  }

  predicate AllEmpty<K(!new), V>(shards: seq<Shard<K, V>>) {
    forall j {:trigger shards[j]} :: 0 <= j < |shards| ==> shards[j].entries == []
  }

  /** What all shards together can hold. */
  function Room<K(!new), V>(shards: seq<Shard<K, V>>): nat {
    if shards == [] then 0 else Room(shards[..|shards| - 1]) + shards[|shards| - 1].cap
  }

  lemma {:induction false} RoomAtLeast<K(!new), V>(shards: seq<Shard<K, V>>, cap: nat)
    requires forall j {:trigger shards[j]} :: 0 <= j < |shards| ==> shards[j].cap >= cap
    ensures Room(shards) >= |shards| * cap
  {
    if shards != [] {
      RoomAtLeast(shards[..|shards| - 1], cap);
      assert |shards| * cap == (|shards| - 1) * cap + cap;
    }
  }

  /** A cache has room for what was asked, and up to 256 for no more. */
  lemma RoomAsAsked<K(!new), V>(shardOf: K -> nat, capacity: nat)
    ensures var room := Room(WithCapacity<K, V>(shardOf, capacity).shards);
      room >= capacity && (capacity <= 256 ==> room == capacity)
  {
    var shards := WithCapacity<K, V>(shardOf, capacity).shards;
    if capacity > 256 { RoomAtLeast(shards, (capacity + 15) / 16); }
    assert |shards| == 1 ==> Room(shards[..0]) == 0;
  }

  function WithCapacity<K(!new), V>(shardOf: K -> nat, capacity: nat): (c: Sharded<K, V>)
    ensures c.Valid() && c.shardOf == shardOf
    ensures SizedFor(c.shards, capacity) && AllEmpty(c.shards)
    ensures c.shards == [] <==> capacity == 0
    ensures forall k :: c.Lookup(k) == None
  {
    var (n, cap) := ShardLayout(capacity);
    Sharded(shardOf, seq(n, _ => Shard(cap, [])))
  }

  // ---------------------------------------------------------------------------------------------
  // Whole runs

  datatype CacheOp<K, V> = Get(k: K) | Insert(k: K, v: V)

  function Step<K(==,!new), V>(c: Sharded<K, V>, op: CacheOp<K, V>): Sharded<K, V> {
    match op
    case Get(k) => c.Touch(k)
    case Insert(k, v) => c.Put(k, v)
  }

  function After<K(==,!new), V>(c: Sharded<K, V>, ops: seq<CacheOp<K, V>>): Sharded<K, V> {
    if ops == [] then c else Step(After(c, ops[..|ops| - 1]), ops[|ops| - 1])
  }

  /** The value most recently inserted under `k`. */
  function LastInserted<K(==), V>(ops: seq<CacheOp<K, V>>, k: K): Option<V> {
    if ops == [] then None
    else
      var op := ops[|ops| - 1];
      if op.Insert? && op.k == k then Some(op.v) else LastInserted(ops[..|ops| - 1], k)
  }

  /** The keys used in shard `j`, in order: every insertion, and every get that hit. */
  function Uses<K(==,!new), V>(c: Sharded<K, V>, ops: seq<CacheOp<K, V>>, j: nat): seq<K>
    requires c.shards != []
  {
    if ops == [] then []
    else
      var before, op := ops[..|ops| - 1], ops[|ops| - 1];
      var counts := c.Slot(op.k) == j && (op.Insert? || After(c, before).Lookup(op.k).Some?);
      Uses(c, before, j) + if counts then [op.k] else []
  }

  /** Distinct keys by last use, latest first. */
  function Recent<K(==,!new)>(uses: seq<K>): seq<K> {
    if uses == [] then []
    else [uses[|uses| - 1]] + Without(Recent(uses[..|uses| - 1]), uses[|uses| - 1])
  }

  lemma {:induction false} AfterShape<K(!new), V>(c: Sharded<K, V>, ops: seq<CacheOp<K, V>>)
    requires c.Valid()
    ensures After(c, ops).Valid() && |After(c, ops).shards| == |c.shards| && After(c, ops).shardOf == c.shardOf
    ensures forall j :: 0 <= j < |c.shards| ==> After(c, ops).shards[j].cap == c.shards[j].cap
  {
    if ops != [] {
      var before, op := ops[..|ops| - 1], ops[|ops| - 1];
      AfterShape(c, before);
      match op
      case Get(k) => After(c, before).TouchValid(k);
      case Insert(k, v) => After(c, before).PutValid(k, v);
    }
  }

  /** A lookup never returns anything but the value last inserted under that key. */
  lemma {:induction false} LookupIsLastInserted<K(!new), V>(
    shardOf: K -> nat, capacity: nat, ops: seq<CacheOp<K, V>>, k: K)
    ensures var r := After(WithCapacity(shardOf, capacity), ops).Lookup(k);
      r == None || r == LastInserted(ops, k)
  {
    var c: Sharded<K, V> := WithCapacity(shardOf, capacity);
    if ops != [] {
      var before, op := ops[..|ops| - 1], ops[|ops| - 1];
      LookupIsLastInserted(shardOf, capacity, before, k);
      AfterShape(c, before);
      match op
      case Get(x) => After(c, before).TouchValid(x);
      case Insert(x, v) => After(c, before).PutValid(x, v);
    }
  }

  lemma TakeCons<T>(n: nat, s: seq<T>)
    requires 0 < n && s != []
    ensures Take(n, s) == [s[0]] + Take(n - 1, s[1..])
    ensures Take(n, s)[1..] == Take(n - 1, s[1..])
  {
  }

  lemma WithoutCons<K(!new)>(x: K, s: seq<K>, k: K)
    ensures Without([x] + s, k) == if x == k then Without(s, k) else [x] + Without(s, k)
  {
    assert ([x] + s)[1..] == s;
  }

  lemma TakeSubset<T>(n: nat, s: seq<T>, x: T)
    requires x in Take(n, s)
    ensures x in s
  {
  }

  lemma {:induction false} TakeWithoutPresent<K(!new)>(n: nat, ks: seq<K>, k: K)
    requires Distinct(ks) && 0 < n && k in Take(n, ks)
    ensures Without(Take(n, ks), k) == Take(n - 1, Without(ks, k))
  {
    hide Take, Without;
    TakeSubset(n, ks, k);
    TakeCons(n, ks);
    var x, rest := ks[0], ks[1..];
    assert ks == [x] + rest;
    WithoutCons(x, rest, k);
    WithoutCons(x, Take(n - 1, rest), k);
    if x == k {
      assert k !in rest;
      if k in Take(n - 1, rest) { TakeSubset(n - 1, rest, k); }
    } else {
      TakeZero(rest);
      TakeWithoutPresent(n - 1, rest, k);
      TakeCons(n - 1, [x] + Without(rest, k));
    }
  }

  lemma TakeZero<T>(s: seq<T>)
    ensures Take(0, s) == []
  {
  }

  lemma {:induction false} TakeWithoutAbsent<K(!new)>(n: nat, ks: seq<K>, k: K)
    requires k !in Take(n, ks)
    ensures Take(n, Without(ks, k)) == Take(n, ks)
  {
    if n > 0 && ks != [] {
      assert Take(n, ks)[0] == ks[0];
      assert Take(n, ks)[1..] == Take(n - 1, ks[1..]);
      TakeWithoutAbsent(n - 1, ks[1..], k);
      assert Take(n, [ks[0]] + Without(ks[1..], k)) == [ks[0]] + Take(n - 1, Without(ks[1..], k));
    }
  }

  /** Using a key moves it to the front of the `n` most recent ones; only an insertion can push another out. */
  lemma TakeUse<K(!new)>(n: nat, ks: seq<K>, k: K)
    requires 0 < n && Distinct(ks)
    ensures k in Take(n, ks) ==> [k] + Without(Take(n, ks), k) == Take(n, [k] + Without(ks, k))
    ensures Take(n, [k] + Without(Take(n, ks), k)) == Take(n, [k] + Without(ks, k))
  {
    hide Take, Without;
    var rest := Without(ks, k);
    FrontTake(n, k, rest);
    if k in Take(n, ks) {
      TakeWithoutPresent(n, ks, k);
      FrontTake(n, k, Take(n - 1, rest));
      TakeTwice(n - 1, n - 1, rest);
    } else {
      FrontTake(n, k, Take(n, ks));
      TakeTwice(n - 1, n, ks);
      TakeFewer(n, ks, k);
      TakeWithoutAbsent(n - 1, ks, k);
    }
  }

  lemma FrontTake<T>(n: nat, x: T, s: seq<T>)
    requires 0 < n
    ensures Take(n, [x] + s) == [x] + Take(n - 1, s)
  {
  }

  lemma TakeTwice<T>(m: nat, n: nat, s: seq<T>)
    requires m <= n
    ensures Take(m, Take(n, s)) == Take(m, s)
  {
  }

  lemma TakeFewer<T>(n: nat, s: seq<T>, x: T)
    requires 0 < n && x !in Take(n, s)
    ensures x !in Take(n - 1, s)
  {
  }

  lemma {:induction false} RecentDistinct<K(!new)>(uses: seq<K>)
    ensures Distinct(Recent(uses))
  {
    if uses != [] {
      RecentDistinct(uses[..|uses| - 1]);
      WithoutDistinct(Recent(uses[..|uses| - 1]), uses[|uses| - 1]);
    }
  }

  lemma TouchKeys<K(!new), V>(sh: Shard<K, V>, k: K)
    requires k in Keys(sh.entries)
    ensures Keys(sh.Touch(k).entries) == [k] + Without(Keys(sh.entries), k)
  {
    KeysCons(k, Find(sh.entries, k).value, Drop(sh.entries, k));
  }

  lemma PutKeys<K(!new), V>(sh: Shard<K, V>, k: K, v: V)
    ensures Keys(sh.Put(k, v).entries) == Take(sh.cap, [k] + Without(Keys(sh.entries), k))
  {
    var es := [(k, v)] + Drop(sh.entries, k);
    FindTake(sh.cap, es, k);
    KeysCons(k, v, Drop(sh.entries, k));
  }

  /** One operation on a shard whose residents are the `cap` most recent of `uses`. */
  lemma ShardStep<K(!new), V>(sh: Shard<K, V>, uses: seq<K>, op: CacheOp<K, V>)
    requires 0 < sh.cap && Keys(sh.entries) == Take(sh.cap, Recent(uses))
    ensures op.Get? && Find(sh.entries, op.k).Some? ==>
      Keys(sh.Touch(op.k).entries) == Take(sh.cap, Recent(uses + [op.k]))
    ensures op.Insert? ==> Keys(sh.Put(op.k, op.v).entries) == Take(sh.cap, Recent(uses + [op.k]))
  {
    RecentDistinct(uses);
    TakeUse(sh.cap, Recent(uses), op.k);
    assert (uses + [op.k])[..|uses|] == uses;
    match op
    case Get(k) => if Find(sh.entries, k).Some? { TouchKeys(sh, k); }
    case Insert(k, v) => PutKeys(sh, k, v);
  }

  lemma StepAt<K(!new), V>(s: Sharded<K, V>, op: CacheOp<K, V>, j: nat)
    requires j < |s.shards|
    ensures |Step(s, op).shards| == |s.shards|
    ensures Step(s, op).shards[j] ==
      if s.Slot(op.k) != j then s.shards[j]
      else if op.Insert? then s.shards[j].Put(op.k, op.v) else s.shards[j].Touch(op.k)
  {
  }

  /** How one more operation, at the end of a run, extends the log of uses of shard `j`. */
  lemma UsesStep<K(!new), V>(c: Sharded<K, V>, before: seq<CacheOp<K, V>>, op: CacheOp<K, V>, j: nat)
    requires c.Valid() && j < |c.shards|
    ensures var s := After(c, before);
      && s.shards != []
      && After(c, before + [op]) == Step(s, op)
      && Uses(c, before + [op], j) ==
         Uses(c, before, j) +
         if s.Slot(op.k) == j && (op.Insert? || Find(s.shards[s.Slot(op.k)].entries, op.k).Some?) then [op.k] else []
  {
    AfterShape(c, before);
    assert (before + [op])[..|before|] == before;
    hide Find, Pick, Sharded.Valid, Step;
  }

  /** At every moment a shard holds exactly the keys most recently used in it, in order of use. */
  lemma {:induction false} ResidentsAreMostRecent<K(!new), V>(c: Sharded<K, V>, ops: seq<CacheOp<K, V>>, j: nat)
    requires c.Valid() && j < |c.shards| && c.shards[j].entries == []
    ensures |After(c, ops).shards| == |c.shards|
    ensures Keys(After(c, ops).shards[j].entries) == Take(c.shards[j].cap, Recent(Uses(c, ops, j)))
  {
    if ops != [] {
      var before, op := ops[..|ops| - 1], ops[|ops| - 1];
      assert ops == before + [op];
      ResidentsAreMostRecent(c, before, j);
      hide *;
      ResidentsStep(c, before, op, j);
    }
  }

  lemma ResidentsStep<K(!new), V>(c: Sharded<K, V>, before: seq<CacheOp<K, V>>, op: CacheOp<K, V>, j: nat)
    requires c.Valid() && j < |c.shards| && |After(c, before).shards| == |c.shards|
    requires Keys(After(c, before).shards[j].entries) == Take(c.shards[j].cap, Recent(Uses(c, before, j)))
    ensures |After(c, before + [op]).shards| == |c.shards|
    ensures Keys(After(c, before + [op]).shards[j].entries) == Take(c.shards[j].cap, Recent(Uses(c, before + [op], j)))
  {
    hide *;
    var s := After(c, before);
    AfterShape(c, before);
    ShardsHaveRoom(c, j);
    UsesStep(c, before, op, j);
    StepAt(s, op, j);
    ShardStep(s.shards[j], Uses(c, before, j), op);
    MissKeeps(s.shards[j], op.k);
    assert Uses(c, before, j) + [] == Uses(c, before, j);
  }

  lemma MissKeeps<K(!new), V>(sh: Shard<K, V>, k: K)
    ensures Find(sh.entries, k) == None ==> sh.Touch(k) == sh
  {
  }

  lemma ShardsHaveRoom<K(!new), V>(c: Sharded<K, V>, j: nat)
    requires c.Valid() && j < |c.shards|
    ensures 0 < c.shards[j].cap
  {
  }

  // ---------------------------------------------------------------------------------------------
  // What is not forgotten

  lemma {:induction false} FindIn<K(!new), V>(es: seq<(K, V)>, k: K)
    ensures Find(es, k).Some? <==> k in Keys(es)
  {
  }

  /** Exactly the most recent keys of a shard are found, each with the value last inserted under it. */
  lemma FoundIffRecent<K(!new), V>(shardOf: K -> nat, capacity: nat, ops: seq<CacheOp<K, V>>, k: K)
    requires capacity > 0
    ensures var c := WithCapacity<K, V>(shardOf, capacity);
      var j := c.Slot(k);
      After(c, ops).Lookup(k) ==
        if k in Take(c.shards[j].cap, Recent(Uses(c, ops, j))) then LastInserted(ops, k) else None
    ensures var c := WithCapacity<K, V>(shardOf, capacity);
      k in Take(c.shards[c.Slot(k)].cap, Recent(Uses(c, ops, c.Slot(k)))) ==> LastInserted(ops, k).Some?
  {
    var c := WithCapacity<K, V>(shardOf, capacity);
    hide WithCapacity, Take, Recent, Uses, LastInserted;
    ResidentsAreMostRecent(c, ops, c.Slot(k));
    AfterShape(c, ops);
    LookupIsLastInserted(shardOf, capacity, ops, k);
    FindIn(After(c, ops).shards[c.Slot(k)].entries, k);
  }

  /** The keys that these calls name and that live in shard `j`. */
  function Named<K(==,!new), V>(c: Sharded<K, V>, ops: seq<CacheOp<K, V>>, j: nat): set<K>
    requires c.shards != []
  {
    if ops == [] then {}
    else
      Named(c, ops[..|ops| - 1], j) + if c.Slot(ops[|ops| - 1].k) == j then {ops[|ops| - 1].k} else {}
  }

  lemma {:induction false} WithoutConcat<K(!new)>(a: seq<K>, b: seq<K>, k: K)
    ensures Without(a + b, k) == Without(a, k) + Without(b, k)
  {
    if a == [] {
      assert a + b == b;
    } else {
      assert (a + b)[1..] == a[1..] + b;
      WithoutConcat(a[1..], b, k);
    }
  }

  lemma RecentMore<K(!new)>(uses: seq<K>, x: K)
    ensures Recent(uses + [x]) == [x] + Without(Recent(uses), x)
  {
    assert (uses + [x])[..|uses|] == uses;
  }

  /** Taking `x` out of `a`, `k` and `b` in a row. */
  lemma WithoutAround<K(!new)>(a: seq<K>, k: K, b: seq<K>, x: K)
    requires x != k
    ensures Without(a + [k] + b, x) == Without(a, x) + [k] + Without(b, x)
  {
    WithoutConcat(a + [k], b, x);
    WithoutConcat(a, [k], x);
    WithoutCons(k, [], x);
    assert [k] + [] == [k];
  }

  /** Only keys used after `k` come before it. */
  lemma {:induction false} RecentSince<K(!new)>(before: seq<K>, k: K, later: seq<K>) returns (a: seq<K>, b: seq<K>)
    ensures Recent(before + [k] + later) == a + [k] + b
    ensures forall x :: x in a ==> x in later && x != k
  {
    hide Recent, Without;
    if later == [] {
      assert before + [k] + later == before + [k];
      RecentMore(before, k);
      a, b := [], Without(Recent(before), k);
    } else {
      var rest, x := later[..|later| - 1], later[|later| - 1];
      assert before + [k] + later == before + [k] + rest + [x];
      a, b := RecentSince(before, k, rest);
      RecentMore(before + [k] + rest, x);
      if x == k {
        a, b := [], Without(a + [k] + b, k);
      } else {
        WithoutAround(a, k, b, x);
        a, b := [x] + Without(a, x), Without(b, x);
      }
    }
  }

  lemma {:induction false} FewDistinct<K(!new)>(ks: seq<K>, s: set<K>)
    requires Distinct(ks) && forall x :: x in ks ==> x in s
    ensures |ks| <= |s|
  {
    if ks != [] {
      FewDistinct(ks[1..], s - {ks[0]});
    }
  }

  /** A key stays among the `n` most recent ones while no more than `n` distinct keys have been used since. */
  lemma StaysRecent<K(!new)>(before: seq<K>, k: K, later: seq<K>, s: set<K>, n: nat)
    requires forall x :: x in later ==> x in s
    requires k in s && |s| <= n
    ensures k in Take(n, Recent(before + [k] + later))
  {
    var a, b := RecentSince(before, k, later);
    RecentDistinct(before + [k] + later);
    forall i, j | 0 <= i < j < |a| ensures a[i] != a[j] {
      assert (a + [k] + b)[i] == a[i] && (a + [k] + b)[j] == a[j];
    }
    FewDistinct(a, s - {k});
    assert (a + [k] + b)[|a|] == k;
    assert Take(n, a + [k] + b)[|a|] == k;
  }

  lemma UsesMore<K(!new), V>(c: Sharded<K, V>, ops: seq<CacheOp<K, V>>, op: CacheOp<K, V>, j: nat)
    returns (more: seq<K>)
    requires c.shards != []
    ensures Uses(c, ops + [op], j) == Uses(c, ops, j) + more
    ensures more == [op.k] || more == []
    ensures c.Slot(op.k) != j ==> more == []
    ensures op.Insert? && c.Slot(op.k) == j ==> more == [op.k]
  {
    assert (ops + [op])[..|ops|] == ops;
    hide After, Find, Sharded.Slot;
    more := if c.Slot(op.k) == j && (op.Insert? || After(c, ops).Lookup(op.k).Some?) then [op.k] else [];
  }

  lemma NamedMore<K(!new), V>(c: Sharded<K, V>, ops: seq<CacheOp<K, V>>, op: CacheOp<K, V>, j: nat)
    requires c.shards != []
    ensures Named(c, ops + [op], j) == Named(c, ops, j) + if c.Slot(op.k) == j then {op.k} else {}
  {
    assert (ops + [op])[..|ops|] == ops;
  }

  /** The uses of a shard in a run that inserts a key at some point. */
  lemma {:induction false} UsesSince<K(!new), V>(
    c: Sharded<K, V>, before: seq<CacheOp<K, V>>, op: CacheOp<K, V>, later: seq<CacheOp<K, V>>)
    returns (since: seq<K>)
    requires c.shards != [] && op.Insert?
    ensures var j := c.Slot(op.k);
      && Uses(c, before + [op] + later, j) == Uses(c, before, j) + [op.k] + since
      && forall x :: x in since ==> x in Named(c, later, j)
  {
    hide Uses, Named, Sharded.Slot;
    var j := c.Slot(op.k);
    if later == [] {
      assert before + [op] + later == before + [op];
      var more := UsesMore(c, before, op, j);
      since := [];
    } else {
      var rest, last := later[..|later| - 1], later[|later| - 1];
      assert before + [op] + later == before + [op] + rest + [last] && later == rest + [last];
      since := UsesSince(c, before, op, rest);
      var more := UsesMore(c, before + [op] + rest, last, j);
      NamedMore(c, rest, last, j);
      since := since + more;
    }
  }

  /**
   Nothing is forgotten too early: a value inserted is still found, or the one inserted under its key since, as long as
   the calls since then have named no more distinct keys of its shard than the shard has room for.
   */
  lemma StillCached<K(!new), V>(
    shardOf: K -> nat, capacity: nat, before: seq<CacheOp<K, V>>, k: K, v: V, later: seq<CacheOp<K, V>>)
    requires capacity > 0
    requires var c := WithCapacity<K, V>(shardOf, capacity);
      var named := |Named(c, later, c.Slot(k)) + {k}|;
      if capacity <= 256 then named <= capacity else 16 * (named - 1) < capacity
    ensures var ops := before + [CacheOp<K, V>.Insert(k, v)] + later;
      && LastInserted(ops, k).Some?
      && After(WithCapacity<K, V>(shardOf, capacity), ops).Lookup(k) == LastInserted(ops, k)
  {
    var c := WithCapacity<K, V>(shardOf, capacity);
    var op := CacheOp<K, V>.Insert(k, v);
    hide WithCapacity, Take, Recent, Uses, LastInserted, After, Named;
    var j := c.Slot(k);
    var since := UsesSince(c, before, op, later);
    StaysRecent(Uses(c, before, j), k, since, Named(c, later, j) + {k}, c.shards[j].cap);
    FoundIffRecent(shardOf, capacity, before + [op] + later, k);
  }

  lemma LayoutBound(capacity: nat)
    ensures var (n, cap) := ShardLayout(capacity);
      n * cap < capacity + SHARD_COUNT && (capacity <= SINGLE_SHARD_CAPACITY_LIMIT ==> n * cap <= capacity)
  {
  }

  function AsSet<K(==,!new)>(ks: seq<K>): set<K> { set k | k in ks }

  lemma {:induction false} RecentKeys<K(!new)>(uses: seq<K>)
    ensures AsSet(Recent(uses)) == AsSet(uses)
  {
    if uses != [] {
      var n := |uses| - 1;
      RecentKeys(uses[..n]);
      assert forall x :: x in Recent(uses[..n]) <==> x in AsSet(Recent(uses[..n]));
      assert forall x :: x in uses[..n] <==> x in AsSet(uses[..n]);
      assert forall x :: x in uses <==> x in uses[..n] || x == uses[n];
    }
  }

  lemma {:induction false} DistinctSize<K(!new)>(ks: seq<K>)
    requires Distinct(ks)
    ensures |AsSet(ks)| == |ks|
  {
    if ks != [] {
      DistinctSize(ks[1..]);
      assert AsSet(ks) == {ks[0]} + AsSet(ks[1..]) && ks[0] !in AsSet(ks[1..]);
    }
  }

  /** A shard is full once it has been used for as many keys as it has room for, and holds all of them before. */
  lemma ShardOccupancy<K(!new), V>(c: Sharded<K, V>, ops: seq<CacheOp<K, V>>, j: nat)
    requires c.Valid() && j < |c.shards| && c.shards[j].entries == []
    ensures |After(c, ops).shards| == |c.shards|
    ensures |After(c, ops).shards[j].entries| == Min(c.shards[j].cap, |AsSet(Uses(c, ops, j))|)
  {
    hide Recent, Uses, After;
    ResidentsAreMostRecent(c, ops, j);
    RecentDistinct(Uses(c, ops, j));
    RecentKeys(Uses(c, ops, j));
    DistinctSize(Recent(Uses(c, ops, j)));
  }

  /**
   Occupancy: less than 16 more than the capacity asked for. Up to 256 it is the number of distinct keys used until
   that reaches the capacity, and the capacity from then on.
   */
  lemma OccupancyBound<K(!new), V>(shardOf: K -> nat, capacity: nat, ops: seq<CacheOp<K, V>>)
    ensures var c := WithCapacity<K, V>(shardOf, capacity);
      var n := After(c, ops).Residents();
      && n < capacity + SHARD_COUNT
      && (capacity == 0 ==> n == 0)
      && (0 < capacity <= SINGLE_SHARD_CAPACITY_LIMIT ==> n == Min(capacity, |AsSet(Uses(c, ops, 0))|))
  {
    var c: Sharded<K, V> := WithCapacity(shardOf, capacity);
    var s := After(c, ops);
    AfterShape(c, ops);
    LayoutBound(capacity);
    forall j {:trigger s.shards[j]} | 0 <= j < |s.shards|
      ensures |s.shards[j].entries| <= ShardLayout(capacity).1
    {
    }
    if 0 < capacity <= SINGLE_SHARD_CAPACITY_LIMIT {
      ShardOccupancy(c, ops, 0);
      assert |s.shards| == 1 && Count(s.shards[..0]) == 0;
    }
    hide ShardLayout, After, Uses;
    CountBound(s.shards, ShardLayout(capacity).1);
  }

  // ---------------------------------------------------------------------------------------------
  // The cache objects

  /** A cache whose shards are replaced in place; each call is one step on its value. */
  class ShardedCache<K(==,!new), V> {
    const shardOf: K -> nat
    var shards: seq<Shard<K, V>>

    ghost function Value(): Sharded<K, V>
      reads this
    {
      Sharded(shardOf, shards)
    }

    /** The block cache: without a shard, and so without effect, for capacity zero. */
    constructor ForBlocks(shardOf: K -> nat, capacity: nat)
      ensures Value() == WithCapacity(shardOf, capacity)
      ensures SizedFor(shards, capacity) && AllEmpty(shards)
    {
      var (n, cap) := ShardLayout(capacity);
      this.shardOf := shardOf;
      shards := [];
      new;
      while |shards| < n
        invariant |shards| <= n
        invariant forall j :: 0 <= j < |shards| ==> shards[j] == Shard(cap, [])
      {
        shards := shards + [Shard(cap, [])];
      }
    }

    /** The page cache: as the block cache, but with room for one page at least. */
    constructor ForPages(shardOf: K -> nat, capacity: nat)
      ensures Value() == WithCapacity(shardOf, if capacity == 0 then 1 else capacity)
      ensures SizedFor(shards, if capacity == 0 then 1 else capacity) && AllEmpty(shards)
    {
      var (n, cap) := ShardLayout(if capacity == 0 then 1 else capacity);
      this.shardOf := shardOf;
      shards := [];
      new;
      while |shards| < n
        invariant |shards| <= n
        invariant forall j :: 0 <= j < |shards| ==> shards[j] == Shard(cap, [])
      {
        shards := shards + [Shard(cap, [])];
      }
    }

    /** The value last inserted under `k`, unless it has been evicted; a hit makes `k` the most recent of its shard. */
    method Get(k: K) returns (v: Option<V>)
      requires Value().Valid()
      modifies this`shards
      ensures v == old(Value()).Lookup(k)
      ensures Value() == Step(old(Value()), CacheOp<K, V>.Get(k)) && Value().Valid()
    {
      Value().TouchValid(k);
      if shards == [] {
        return None;
      }
      var idx := Pick(shardOf(k), |shards|);
      v := Find(shards[idx].entries, k);
      if v.Some? {
        shards := shards[idx := shards[idx].(entries := [(k, v.value)] + Drop(shards[idx].entries, k))];
      }
    }

    method Insert(k: K, v: V)
      requires Value().Valid()
      modifies this`shards
      ensures Value() == Step(old(Value()), CacheOp<K, V>.Insert(k, v)) && Value().Valid()
    {
      Value().PutValid(k, v);
      if shards != [] {
        var idx := Pick(shardOf(k), |shards|);
        shards := shards[idx := shards[idx].Put(k, v)];
      }
    }
  }
}
