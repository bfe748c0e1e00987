// Readers, prefetch tasks and evictions interleaving over the shared caches: none of it shows in what is read.
module Prefetch {
  import opened Common
  import opened Format
  import opened Index
  import opened Image
  import opened Lru
  import Reader

  type BlockKey = Reader.BlockKey

  /** What a reading thread may ask for next, and what it gets. */
  datatype Access = PageAt(offset: nat) | BlockOf(key: BlockKey)

  datatype Val = PageVal(blocks: seq<BlockInfo>) | BlockVal(data: Bytes)

  /** What reading the file, without any cache, yields. */
  datatype Truth = Truth(page: nat -> seq<BlockInfo>, block: BlockKey -> Bytes) {
    function Of(a: Access): Val {
      match a
      case PageAt(offset) => PageVal(page(offset))
      case BlockOf(key) => BlockVal(block(key))
    }
  }

  /** A reading thread: given all it has read so far, what it reads next, if anything. */
  type Program = seq<Val> -> Option<Access>

  /**
   How far one access has got. Each phase ends with one atomic action: a lookup under the shard's lock, file access
   and decompression without any lock, a second lookup (pages only), an insertion.
   */
  datatype Phase = Looking | Missed | Computed(v: Val) | Rechecked(v: Val)

  datatype Thread =
    | Reading(program: Program, got: seq<Val>, phase: Phase, wantsPrefetch: bool)
    | Claimed(program: Program, got: seq<Val>, counted: bool) // won the slot, task not spawned yet
    | Done(program: Program, got: seq<Val>)
    | Prefetching(program: Program, got: seq<Val>, phase: Phase)
    | Ended

  datatype State = State(
    blocks: Sharded<BlockKey, Bytes>, pages: Sharded<nat, seq<BlockInfo>>,
    threads: seq<Thread>, inFlight: bool, spawnCount: nat)

  /** A new reader, one action of a thread, or the spawning of a task by a thread that has won the slot. */
  datatype Event = Arrive(program: Program, wantsPrefetch: bool) | Move(i: nat) | Spawn(i: nat, task: Program)

  // ---------------------------------------------------------------------------------------------
  // Steps

  predicate Enabled(s: State, e: Event) {
    match e
    case Arrive(_, _) => true
    case Move(i) =>
      && i < |s.threads|
      && (s.threads[i].Reading? || s.threads[i].Prefetching? || (s.threads[i].Claimed? && !s.threads[i].counted))
    case Spawn(i, _) => i < |s.threads| && s.threads[i].Claimed? && s.threads[i].counted
  }

  function Step(t: Truth, s: State, e: Event): State
    requires Enabled(s, e)
  {
    match e
    case Arrive(p, wants) => s.(threads := s.threads + [Reading(p, [], Looking, wants)])
    case Spawn(i, task) =>
      s.(threads := s.threads[i := Done(s.threads[i].program, s.threads[i].got)] + [Prefetching(task, [], Looking)])
    case Move(i) =>
      var th := s.threads[i];
      if th.Claimed? then
        s.(threads := s.threads[i := th.(counted := true)], spawnCount := s.spawnCount + 1)
      else
        match th.program(th.got)
        case None => Finish(s, i)
        case Some(PageAt(offset)) => PageAction(t, s, i, offset)
        case Some(BlockOf(key)) => BlockAction(t, s, i, key)
  }

  predicate Active(s: State, i: nat) {
    i < |s.threads| && (s.threads[i].Reading? || s.threads[i].Prefetching?)
  }

  /** A reader that has all it wants tries for the prefetch slot; a task gives it back. */
  function Finish(s: State, i: nat): State
    requires Active(s, i)
  {
    var th := s.threads[i];
    if th.Prefetching? then s.(threads := s.threads[i := Ended], inFlight := false)
    else if th.wantsPrefetch && !s.inFlight then
      s.(threads := s.threads[i := Claimed(th.program, th.got, false)], inFlight := true)
    else s.(threads := s.threads[i := Done(th.program, th.got)])
  }

  function Goto(s: State, i: nat, p: Phase): State
    requires Active(s, i)
  {
    s.(threads := s.threads[i := s.threads[i].(phase := p)])
  }

  function Receive(s: State, i: nat, v: Val): State
    requires Active(s, i)
  {
    s.(threads := s.threads[i := s.threads[i].(phase := Looking, got := s.threads[i].got + [v])])
  }

  function PageAction(t: Truth, s: State, i: nat, offset: nat): State
    requires Active(s, i)
  {
    var hit := s.pages.Lookup(offset);
    var touched := s.(pages := s.pages.Touch(offset));
    match s.threads[i].phase
    case Looking => if hit.Some? then Receive(touched, i, PageVal(hit.value)) else Goto(touched, i, Missed)
    case Missed => Goto(s, i, Computed(PageVal(t.page(offset))))
    case Computed(v) => if hit.Some? then Receive(touched, i, PageVal(hit.value)) else Goto(touched, i, Rechecked(v))
    case Rechecked(v) =>
      if v.PageVal? then Receive(s.(pages := s.pages.Put(offset, v.blocks)), i, v) else s
  }

  /** Only prefetch tasks fill the block cache. */
  function BlockAction(t: Truth, s: State, i: nat, key: BlockKey): State
    requires Active(s, i)
  {
    var hit := s.blocks.Lookup(key);
    var touched := s.(blocks := s.blocks.Touch(key));
    match s.threads[i].phase
    case Looking => if hit.Some? then Receive(touched, i, BlockVal(hit.value)) else Goto(touched, i, Missed)
    case Missed => Goto(s, i, Computed(BlockVal(t.block(key))))
    case Computed(v) =>
      if s.threads[i].Prefetching? && v.BlockVal? then Receive(s.(blocks := s.blocks.Put(key, v.data)), i, v)
      else Receive(s, i, v)
    case Rechecked(v) => s
  }

  // ---------------------------------------------------------------------------------------------
  // Invariant

  /** `got` is what the program reads when it runs alone and without a cache. */
  ghost predicate Solo(t: Truth, p: Program, got: seq<Val>) {
    forall j: nat {:trigger AsAlone(t, p, got, j)} :: j < |got| ==> AsAlone(t, p, got, j)
  }

  ghost predicate AsAlone(t: Truth, p: Program, got: seq<Val>, j: nat)
    requires j < |got|
  {
    p(got[..j]).Some? && got[j] == t.Of(p(got[..j]).value)
  }

  ghost predicate ThreadOk(t: Truth, th: Thread) {
    match th
    case Reading(p, got, phase, _) => Solo(t, p, got) && PhaseOk(t, p, got, phase)
    case Prefetching(p, got, phase) => Solo(t, p, got) && PhaseOk(t, p, got, phase)
    case Claimed(p, got, _) => Solo(t, p, got) && p(got) == None
    case Done(p, got) => Solo(t, p, got) && p(got) == None
    case Ended => true
  }

  ghost predicate PhaseOk(t: Truth, p: Program, got: seq<Val>, phase: Phase) {
    match phase
    case Computed(v) => p(got).Some? && v == t.Of(p(got).value)
    case Rechecked(v) => p(got).Some? && p(got).value.PageAt? && v == t.Of(p(got).value)
    case _ => true
  }

  /** Every cached entry is the truth about its key. */
  ghost predicate CachesTrue(t: Truth, s: State) {
    && s.blocks.Valid() && s.pages.Valid()
    && (forall k {:trigger s.blocks.Lookup(k)} :: s.blocks.Lookup(k) == None || s.blocks.Lookup(k) == Some(t.block(k)))
    && (forall k {:trigger s.pages.Lookup(k)} :: s.pages.Lookup(k) == None || s.pages.Lookup(k) == Some(t.page(k)))
  }

  predicate HoldsSlot(th: Thread) { th.Claimed? || th.Prefetching? }

  predicate WasCounted(th: Thread) { (th.Claimed? && th.counted) || th.Prefetching? || th.Ended? }

  function Slots(ths: seq<Thread>): nat {
    if ths == [] then 0 else Slots(ths[..|ths| - 1]) + One(HoldsSlot(ths[|ths| - 1]))
  }

  function Spawned(ths: seq<Thread>): nat {
    if ths == [] then 0 else Spawned(ths[..|ths| - 1]) + One(WasCounted(ths[|ths| - 1]))
  }

  ghost predicate Inv(t: Truth, s: State) {
    && CachesTrue(t, s)
    && (forall i {:trigger s.threads[i]} :: 0 <= i < |s.threads| ==> ThreadOk(t, s.threads[i]))
    && Slots(s.threads) == One(s.inFlight)
    && Spawned(s.threads) == s.spawnCount
  }

  lemma {:induction false} SlotsUpdate(ths: seq<Thread>, i: nat, th: Thread)
    requires i < |ths|
    ensures Slots(ths[i := th]) + One(HoldsSlot(ths[i])) == Slots(ths) + One(HoldsSlot(th))
    ensures Spawned(ths[i := th]) + One(WasCounted(ths[i])) == Spawned(ths) + One(WasCounted(th))
  {
    var n := |ths| - 1;
    if i < n {
      assert ths[i := th][..n] == ths[..n][i := th];
      SlotsUpdate(ths[..n], i, th);
    } else {
      assert ths[i := th][..n] == ths[..n];
    }
  }

  lemma SlotsAppend(ths: seq<Thread>, th: Thread)
    ensures Slots(ths + [th]) == Slots(ths) + One(HoldsSlot(th))
    ensures Spawned(ths + [th]) == Spawned(ths) + One(WasCounted(th))
  {
    assert (ths + [th])[..|ths|] == ths;
  }

  /** Replacing thread `i` by one in good order, with the slot and the count adjusted to match. */
  lemma Replace(t: Truth, s: State, i: nat, th: Thread, s': State)
    requires Inv(t, s) && i < |s.threads| && ThreadOk(t, th) && CachesTrue(t, s') && s'.threads == s.threads[i := th]
    requires One(s'.inFlight) + One(HoldsSlot(s.threads[i])) == One(s.inFlight) + One(HoldsSlot(th))
    requires s'.spawnCount + One(WasCounted(s.threads[i])) == s.spawnCount + One(WasCounted(th))
    ensures Inv(t, s')
  {
    hide CachesTrue, ThreadOk;
    SlotsUpdate(s.threads, i, th);
  }

  lemma SoloMore(t: Truth, p: Program, got: seq<Val>, v: Val)
    requires Solo(t, p, got) && p(got).Some? && v == t.Of(p(got).value)
    ensures Solo(t, p, got + [v])
  {
    var more := got + [v];
    forall j: nat {:trigger AsAlone(t, p, more, j)} | j < |more|
      ensures AsAlone(t, p, more, j)
    {
      if j < |got| {
        assert AsAlone(t, p, got, j);
        assert more[..j] == got[..j] && more[j] == got[j];
      } else {
        assert more[..j] == got;
      }
    }
  }

  /** The slot has one owner, so a thread that owns it finds it taken. */
  lemma {:induction false} OwnerSeesSlot(ths: seq<Thread>, i: nat)
    requires i < |ths| && HoldsSlot(ths[i])
    ensures Slots(ths) > 0
  {
    if i < |ths| - 1 { OwnerSeesSlot(ths[..|ths| - 1], i); }
  }

  lemma TouchTrue(t: Truth, s: State, offset: nat, key: BlockKey)
    requires CachesTrue(t, s)
    ensures CachesTrue(t, s.(pages := s.pages.Touch(offset)))
    ensures CachesTrue(t, s.(blocks := s.blocks.Touch(key)))
    ensures s.pages.Lookup(offset) == None || s.pages.Lookup(offset) == Some(t.page(offset))
    ensures s.blocks.Lookup(key) == None || s.blocks.Lookup(key) == Some(t.block(key))
  {
    hide Sharded.Valid, Sharded.Lookup, Sharded.Touch;
    s.pages.TouchValid(offset);
    s.blocks.TouchValid(key);
  }

  lemma PutTrue(t: Truth, s: State, offset: nat, key: BlockKey)
    requires CachesTrue(t, s)
    ensures CachesTrue(t, s.(pages := s.pages.Put(offset, t.page(offset))))
    ensures CachesTrue(t, s.(blocks := s.blocks.Put(key, t.block(key))))
  {
    hide Sharded.Valid, Sharded.Lookup, Sharded.Put;
    s.pages.PutValid(offset, t.page(offset));
    s.blocks.PutValid(key, t.block(key));
  }

  lemma ReceiveInv(t: Truth, s: State, s1: State, i: nat, v: Val)
    requires Inv(t, s) && Active(s, i) && CachesTrue(t, s1)
    requires s1.threads == s.threads && s1.inFlight == s.inFlight && s1.spawnCount == s.spawnCount
    requires s.threads[i].program(s.threads[i].got).Some? && v == t.Of(s.threads[i].program(s.threads[i].got).value)
    ensures Inv(t, Receive(s1, i, v))
  {
    var th := s.threads[i];
    assert ThreadOk(t, th);
    SoloMore(t, th.program, th.got, v);
    Replace(t, s, i, Receive(s1, i, v).threads[i], Receive(s1, i, v));
  }

  lemma GotoInv(t: Truth, s: State, s1: State, i: nat, p: Phase)
    requires Inv(t, s) && Active(s, i) && CachesTrue(t, s1)
    requires s1.threads == s.threads && s1.inFlight == s.inFlight && s1.spawnCount == s.spawnCount
    requires PhaseOk(t, s.threads[i].program, s.threads[i].got, p)
    ensures Inv(t, Goto(s1, i, p))
  {
    assert ThreadOk(t, s.threads[i]);
    Replace(t, s, i, Goto(s1, i, p).threads[i], Goto(s1, i, p));
  }

  lemma PageActionInv(t: Truth, s: State, i: nat, offset: nat)
    requires Inv(t, s) && Active(s, i) && s.threads[i].program(s.threads[i].got) == Some(PageAt(offset))
    ensures Inv(t, PageAction(t, s, i, offset))
  {
    hide CachesTrue, Sharded.Lookup, Sharded.Touch, Sharded.Put, Receive, Goto, Slots, Spawned;
    assert ThreadOk(t, s.threads[i]);
    TouchTrue(t, s, offset, (Main, 0));
    PutTrue(t, s, offset, (Main, 0));
    var touched := s.(pages := s.pages.Touch(offset));
    var v := PageVal(t.page(offset));
    match s.threads[i].phase
    case Looking =>
      if s.pages.Lookup(offset).Some? {
        ReceiveInv(t, s, touched, i, v);
      } else {
        GotoInv(t, s, touched, i, Missed);
      }
    case Missed => GotoInv(t, s, s, i, Computed(v));
    case Computed(_) =>
      if s.pages.Lookup(offset).Some? {
        ReceiveInv(t, s, touched, i, v);
      } else {
        GotoInv(t, s, touched, i, Rechecked(v));
      }
    case Rechecked(_) => ReceiveInv(t, s, s.(pages := s.pages.Put(offset, t.page(offset))), i, v);
  }

  lemma BlockActionInv(t: Truth, s: State, i: nat, key: BlockKey)
    requires Inv(t, s) && Active(s, i) && s.threads[i].program(s.threads[i].got) == Some(BlockOf(key))
    ensures Inv(t, BlockAction(t, s, i, key))
  {
    hide CachesTrue, Sharded.Lookup, Sharded.Touch, Sharded.Put, Receive, Goto, Slots, Spawned;
    assert ThreadOk(t, s.threads[i]);
    TouchTrue(t, s, 0, key);
    PutTrue(t, s, 0, key);
    var touched := s.(blocks := s.blocks.Touch(key));
    var v := BlockVal(t.block(key));
    match s.threads[i].phase
    case Looking =>
      if s.blocks.Lookup(key).Some? {
        ReceiveInv(t, s, touched, i, v);
      } else {
        GotoInv(t, s, touched, i, Missed);
      }
    case Missed => GotoInv(t, s, s, i, Computed(v));
    case Computed(_) =>
      if s.threads[i].Prefetching? { ReceiveInv(t, s, s.(blocks := s.blocks.Put(key, t.block(key))), i, v); }
      else { ReceiveInv(t, s, s, i, v); }
    case Rechecked(_) =>
  }

  lemma FinishInv(t: Truth, s: State, i: nat)
    requires Inv(t, s) && Active(s, i) && s.threads[i].program(s.threads[i].got) == None
    ensures Inv(t, Finish(s, i))
  {
    assert ThreadOk(t, s.threads[i]);
    if s.threads[i].Prefetching? { OwnerSeesSlot(s.threads, i); }
    hide Slots, Spawned;
    Replace(t, s, i, Finish(s, i).threads[i], Finish(s, i));
  }

  lemma StepInv(t: Truth, s: State, e: Event)
    requires Inv(t, s) && Enabled(s, e)
    ensures Inv(t, Step(t, s, e))
  {
    hide Sharded.Valid, Sharded.Lookup, Slots, Spawned, PageAction, BlockAction, Finish;
    match e
    case Arrive(p, wants) => SlotsAppend(s.threads, Reading(p, [], Looking, wants));
    case Spawn(i, task) =>
      var th := Done(s.threads[i].program, s.threads[i].got);
      assert ThreadOk(t, s.threads[i]);
      SlotsUpdate(s.threads, i, th);
      SlotsAppend(s.threads[i := th], Prefetching(task, [], Looking));
    case Move(i) =>
      var th := s.threads[i];
      assert ThreadOk(t, th);
      if th.Claimed? {
        Replace(t, s, i, th.(counted := true), Step(t, s, e));
      } else {
        match th.program(th.got)
        case None => FinishInv(t, s, i);
        case Some(PageAt(offset)) => PageActionInv(t, s, i, offset);
        case Some(BlockOf(key)) => BlockActionInv(t, s, i, key);
      }
  }

  // ---------------------------------------------------------------------------------------------
  // Whole runs

  ghost predicate Fresh(s: State) {
    && s.threads == [] && !s.inFlight && s.spawnCount == 0
    && s.blocks.Valid() && s.pages.Valid()
    && (forall k {:trigger s.blocks.Lookup(k)} :: s.blocks.Lookup(k) == None)
    && (forall k {:trigger s.pages.Lookup(k)} :: s.pages.Lookup(k) == None)
  }

  ghost predicate Follows(t: Truth, s: State, s': State) {
    exists e {:trigger Enabled(s, e)} :: Enabled(s, e) && s' == Step(t, s, e)
  }

  ghost predicate IsRun(t: Truth, states: seq<State>) {
    && states != [] && Fresh(states[0])
    && forall k {:trigger states[k]} :: 0 < k < |states| ==> Follows(t, states[k - 1], states[k])
  }

  lemma {:induction false} RunInv(t: Truth, states: seq<State>, k: nat)
    requires IsRun(t, states) && k < |states|
    ensures Inv(t, states[k])
  {
    if k == 0 {
      hide Sharded.Valid, Sharded.Lookup;
    } else {
      RunInv(t, states, k - 1);
      assert Follows(t, states[k - 1], states[k]);
      hide Inv, Step, Fresh;
      var e :| Enabled(states[k - 1], e) && states[k] == Step(t, states[k - 1], e);
      StepInv(t, states[k - 1], e);
    }
  }

  /** What a program reads alone is determined. */
  lemma {:induction false} SoloUnique(t: Truth, p: Program, a: seq<Val>, b: seq<Val>)
    requires Solo(t, p, a) && Solo(t, p, b) && |a| <= |b|
    ensures a == b[..|a|]
  {
    if a != [] {
      var n := |a| - 1;
      forall j: nat {:trigger AsAlone(t, p, a[..n], j)} | j < n
        ensures AsAlone(t, p, a[..n], j)
      {
        assert AsAlone(t, p, a, j);
        assert a[..n][..j] == a[..j] && a[..n][j] == a[j];
      }
      SoloUnique(t, p, a[..n], b);
      assert a[..n] == b[..n];
      assert AsAlone(t, p, a, n) && AsAlone(t, p, b, n);
    }
  }

  /** A complete run of a program without other threads and without a cache. */
  ghost predicate Alone(t: Truth, p: Program, got: seq<Val>) { Solo(t, p, got) && p(got) == None }

  lemma SoloAt(t: Truth, p: Program, got: seq<Val>, j: nat)
    requires Solo(t, p, got) && j < |got|
    ensures p(got[..j]).Some?
  {
    assert AsAlone(t, p, got, j);
  }

  lemma AloneUnique(t: Truth, p: Program, a: seq<Val>, b: seq<Val>)
    requires Alone(t, p, a) && Alone(t, p, b)
    ensures a == b
  {
    if |a| <= |b| {
      SoloUnique(t, p, a, b);
      if |a| < |b| { SoloAt(t, p, b, |a|); }
    } else {
      SoloUnique(t, p, b, a);
      SoloAt(t, p, a, |b|);
    }
  }

  /**
   Transparency. In every interleaving of readers, prefetch tasks and evictions: each cached entry is what the
   file holds; a reader that has finished has read exactly what it would have read alone, from the file; and at
   most one prefetch is outstanding, namely when the flag is set.
   */
  lemma CachesAreInvisible(t: Truth, states: seq<State>, k: nat, i: nat, alone: seq<Val>)
    requires IsRun(t, states) && k < |states|
    ensures CachesTrue(t, states[k])
    ensures Slots(states[k].threads) == (if states[k].inFlight then 1 else 0)
    ensures Spawned(states[k].threads) == states[k].spawnCount
    ensures i < |states[k].threads| && states[k].threads[i].Done? && Alone(t, states[k].threads[i].program, alone) ==>
      states[k].threads[i].got == alone
  {
    RunInv(t, states, k);
    var s := states[k];
    if i < |s.threads| && s.threads[i].Done? && Alone(t, s.threads[i].program, alone) {
      var th := s.threads[i];
      assert ThreadOk(t, th);
      hide Inv;
      AloneUnique(t, th.program, th.got, alone);
    }
  }

  /** The truth about an archive: its pages as stored, and the plaintext of each block under its global index. */
  ghost predicate TruthAbout(img: Image, t: Truth) {
    && (forall s, k, i {:trigger img.Has(s, k, i)} :: img.Has(s, k, i) ==>
      t.block((s, img.IndexAt(s, k, i))) == img.DataAt(s, k, i))
    && (forall s, k {:trigger img.Recs(s)[k]} :: 0 <= k < |img.Recs(s)| && k < |img.master.Pages(s)| ==>
      t.page(img.master.Pages(s)[k].offset) == img.Recs(s)[k].blocks)
  }

  /** Block indices and page places are unique in a readable archive, so that there is one such truth. */
  lemma TruthExists(img: Image) returns (t: Truth)
    requires Readable(img)
    ensures TruthAbout(img, t)
  {
    hide Readable, BlockOn, PageOn, Image.DataAt, Image.Has;
    t := Truth((o: nat) => PageOn(img, o), key => BlockOn(img, key));
    forall s, k, i {:trigger img.Has(s, k, i)} | img.Has(s, k, i)
      ensures t.block((s, img.IndexAt(s, k, i))) == img.DataAt(s, k, i)
    {
      BlockOnIs(img, s, k, i);
    }
    forall s, k {:trigger img.Recs(s)[k]} | 0 <= k < |img.Recs(s)| && k < |img.master.Pages(s)|
      ensures t.page(img.master.Pages(s)[k].offset) == img.Recs(s)[k].blocks
    {
      PageOnIs(img, s, k);
    }
  }

  lemma ReadableParts(img: Image, s: Stream)
    requires Readable(img)
    ensures Chain(img.Recs(s), |img.Content(s)|) && PagesApart(img)
  {
    assert StreamReads(img, s);
  }

  /** `d` is the plaintext of the block with this key. */
  ghost predicate IsBlock(img: Image, key: BlockKey, d: Bytes) {
    exists k: nat, i: nat {:trigger img.Has(key.0, k, i)} ::
      img.Has(key.0, k, i) && img.IndexAt(key.0, k, i) == key.1 && img.DataAt(key.0, k, i) == d
  }

  ghost function BlockOn(img: Image, key: BlockKey): Bytes {
    if d :| IsBlock(img, key, d) then d else []
  }

  /** `blocks` is the page stored at this place. */
  ghost predicate IsPage(img: Image, offset: nat, blocks: seq<BlockInfo>) {
    exists s, k: nat {:trigger img.Recs(s)[k]} ::
      k < |img.Recs(s)| && k < |img.master.Pages(s)| && img.master.Pages(s)[k].offset == offset &&
        img.Recs(s)[k].blocks == blocks
  }

  ghost function PageOn(img: Image, offset: nat): seq<BlockInfo> {
    if b :| IsPage(img, offset, b) then b else []
  }

  lemma OneBlock(img: Image, key: BlockKey, c: Bytes, d: Bytes)
    requires Readable(img) && IsBlock(img, key, c) && IsBlock(img, key, d)
    ensures c == d
  {
    hide Readable;
    ReadableParts(img, key.0);
    hide PagesApart, Chain, Image.DataAt;
    var k: nat, i: nat :| img.Has(key.0, k, i) && img.IndexAt(key.0, k, i) == key.1 && img.DataAt(key.0, k, i) == c;
    var l: nat, j: nat :| img.Has(key.0, l, j) && img.IndexAt(key.0, l, j) == key.1 && img.DataAt(key.0, l, j) == d;
    IndexIsUnique(img.Recs(key.0), |img.Content(key.0)|, k, i, l, j);
  }

  lemma OnePage(img: Image, offset: nat, a: seq<BlockInfo>, b: seq<BlockInfo>)
    requires Readable(img) && IsPage(img, offset, a) && IsPage(img, offset, b)
    ensures a == b
  {
    hide Readable;
    ReadableParts(img, Main);
    hide Chain;
    var s, k: nat :| k < |img.Recs(s)| && k < |img.master.Pages(s)| && img.master.Pages(s)[k].offset == offset &&
      img.Recs(s)[k].blocks == a;
    var u, l: nat :| l < |img.Recs(u)| && l < |img.master.Pages(u)| && img.master.Pages(u)[l].offset == offset &&
      img.Recs(u)[l].blocks == b;
    assert img.master.Pages(s)[k].offset == img.master.Pages(u)[l].offset;
  }

  lemma BlockOnIs(img: Image, s: Stream, k: nat, i: nat)
    requires Readable(img) && img.Has(s, k, i)
    ensures BlockOn(img, (s, img.IndexAt(s, k, i))) == img.DataAt(s, k, i)
  {
    hide Readable, Image.DataAt, Image.IndexAt;
    var key := (s, img.IndexAt(s, k, i));
    assert IsBlock(img, key, img.DataAt(s, k, i));
    hide IsBlock;
    OneBlock(img, key, BlockOn(img, key), img.DataAt(s, k, i));
  }

  lemma PageOnIs(img: Image, s: Stream, k: nat)
    requires Readable(img) && k < |img.Recs(s)| && k < |img.master.Pages(s)|
    ensures PageOn(img, img.master.Pages(s)[k].offset) == img.Recs(s)[k].blocks
  {
    hide Readable;
    var offset := img.master.Pages(s)[k].offset;
    assert IsPage(img, offset, img.Recs(s)[k].blocks);
    hide IsPage;
    OnePage(img, offset, PageOn(img, offset), img.Recs(s)[k].blocks);
  }

  // ---------------------------------------------------------------------------------------------
  // What is filled

  /** The thread's action gave it one more answer. */
  predicate Answered(s: State, u: State, i: nat) {
    && Active(s, i) && Active(u, i)
    && |u.threads[i].got| == |s.threads[i].got| + 1 && s.threads[i].got == u.threads[i].got[..|s.threads[i].got|]
  }

  /**
   Whoever is answered with a page leaves it in the page cache. A prefetch task that is answered with a block leaves
   it in the block cache; readers put nothing there.
   */
  lemma ActionsFill(t: Truth, s: State, i: nat, a: Access)
    requires Active(s, i) && s.threads[i].program(s.threads[i].got) == Some(a)
    requires s.blocks.Valid() && s.pages.Valid()
    ensures var u := Step(t, s, Move(i));
      && (a.PageAt? ==> u.blocks == s.blocks)
      && (a.BlockOf? ==> u.pages == s.pages)
      && (a.PageAt? && Answered(s, u, i) && u.pages.shards != [] ==>
          var v := u.threads[i].got[|s.threads[i].got|];
          v.PageVal? && u.pages.Lookup(a.offset) == Some(v.blocks))
      && (a.BlockOf? && s.threads[i].Reading? ==>
          forall k {:trigger u.blocks.Lookup(k)} :: u.blocks.Lookup(k) == s.blocks.Lookup(k))
      && (a.BlockOf? && s.threads[i].Prefetching? && Answered(s, u, i) && u.blocks.shards != [] ==>
          var v := u.threads[i].got[|s.threads[i].got|];
          v.BlockVal? ==> u.blocks.Lookup(a.key) == Some(v.data))
  {
    hide Sharded.Lookup, Sharded.Put, Sharded.Valid;
    match a
    case PageAt(offset) =>
      s.pages.TouchValid(offset);
      match s.threads[i].phase {
        case Rechecked(v) => if v.PageVal? { s.pages.PutValid(offset, v.blocks); }
        case _ =>
      }
    case BlockOf(key) =>
      s.blocks.TouchValid(key);
      match s.threads[i].phase {
        case Computed(v) => if v.BlockVal? { s.blocks.PutValid(key, v.data); }
        case _ =>
      }
  }
}
