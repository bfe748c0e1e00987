// The unordered variant of the pipeline (crates/ops/src/parallel_pack.rs): a feeder, workers, and a callback.
module Unordered {
  import opened Common
  import opened Pipeline

  /** How many chunks there are, which the compressor or the callback rejects, workers, and channel capacity. */
  datatype Job = Job(total: nat, bad: set<nat>, rejected: set<nat>, workers: nat, capacity: nat)

  datatype Hand = Free | Packing(n: nat) | Handing(n: nat) | Ended(ok: bool)

  datatype CallPhase = Delivering | Joining | Returned(ok: bool)

  datatype Stage = Stage(
    fed: nat, feeding: bool,
    raw: seq<nat>, hands: seq<Hand>, packed: seq<nat>,
    delivered: seq<nat>, caller: CallPhase,
    dropped: seq<nat>) // chunks that went missing; nothing reads this

  /** Who moves; on a channel without room for a chunk, sender and receiver move together. */
  datatype Who = Feeder | Worker(i: nat) | Caller | Meet(i: nat) | Yield(i: nat)

  predicate AllEnded(hs: seq<Hand>) { forall i {:trigger hs[i]} :: 0 <= i < |hs| ==> hs[i].Ended? }

  predicate SomeFailed(hs: seq<Hand>) { exists i {:trigger hs[i]} :: 0 <= i < |hs| && hs[i] == Ended(false) }

  function Start(j: Job): Stage { Stage(0, true, [], seq(j.workers, _ => Free), [], [], Delivering, []) }

  // ---------------------------------------------------------------------------------------------
  // Steps

  /**
   The caller keeps a receiver of the first channel until it returns, so the feeder's send cannot fail before
   that; and it waits for the feeder only after all workers have ended well.
   */
  predicate CanMove(j: Job, s: Stage, w: Who) {
    match w
    case Feeder => s.feeding && (s.fed == j.total || |s.raw| < j.capacity || (s.caller.Returned? && AllEnded(s.hands)))
    case Worker(i) =>
      i < |s.hands| &&
      (match s.hands[i]
       case Free => s.raw != [] || !s.feeding
       case Packing(_) => true
       case Handing(_) => !s.caller.Delivering? || |s.packed| < j.capacity
       case Ended(_) => false)
    case Meet(i) => j.capacity == 0 && s.feeding && s.fed < j.total && i < |s.hands| && s.hands[i].Free?
    case Yield(i) => j.capacity == 0 && s.caller.Delivering? && i < |s.hands| && s.hands[i].Handing?
    case Caller =>
      match s.caller
      case Delivering => s.packed != [] || AllEnded(s.hands)
      case Joining => SomeFailed(s.hands) || !s.feeding
      case Returned(_) => false
  }

  function Move(j: Job, s: Stage, w: Who): Stage
    requires CanMove(j, s, w)
  {
    match w
    case Feeder =>
      if s.fed >= j.total || (s.caller.Returned? && AllEnded(s.hands)) then s.(feeding := false)
      else s.(raw := s.raw + [s.fed], fed := s.fed + 1)
    case Worker(i) => WorkerMove(j, s, i)
    case Meet(i) => s.(fed := s.fed + 1, hands := s.hands[i := Packing(s.fed)])
    case Yield(i) => Receive(j, s.(hands := s.hands[i := Free]), s.hands[i].n)
    case Caller =>
      match s.caller
      case Delivering =>
        if s.packed == [] then s.(caller := Joining) else Receive(j, s.(packed := s.packed[1..]), s.packed[0])
      case Joining => s.(caller := Returned(!SomeFailed(s.hands)))
      case Returned(_) => s
  }

  /** The callback takes chunk `n`, or rejects it and with it the call. */
  function Receive(j: Job, s: Stage, n: nat): Stage {
    if n in j.rejected then s.(dropped := s.dropped + [n], caller := Returned(false))
    else s.(delivered := s.delivered + [n])
  }

  function WorkerMove(j: Job, s: Stage, i: nat): Stage
    requires i < |s.hands|
  {
    match s.hands[i]
    case Free =>
      if s.raw == [] then s.(hands := s.hands[i := Ended(true)])
      else s.(raw := s.raw[1..], hands := s.hands[i := Packing(s.raw[0])])
    case Packing(n) =>
      if n in j.bad then s.(hands := s.hands[i := Ended(false)], dropped := s.dropped + [n])
      else s.(hands := s.hands[i := Handing(n)])
    case Handing(n) =>
      if s.caller.Delivering? then s.(hands := s.hands[i := Free], packed := s.packed + [n])
      else s.(hands := s.hands[i := Ended(false)], dropped := s.dropped + [n])
    case Ended(_) => s
  }

  // ---------------------------------------------------------------------------------------------
  // Each chunk is in one place

  predicate Has(h: Hand, n: nat) { (h.Packing? || h.Handing?) && h.n == n }

  function HandCount(hs: seq<Hand>, n: nat): nat {
    if hs == [] then 0 else HandCount(hs[..|hs| - 1], n) + One(Has(hs[|hs| - 1], n))
  }

  function Spots(s: Stage, n: nat): nat {
    InQueue(s.raw, n) + HandCount(s.hands, n) + InQueue(s.packed, n) + InQueue(s.delivered, n) + InQueue(s.dropped, n)
  }

  lemma {:induction false} HandUpdate(hs: seq<Hand>, i: nat, h: Hand, n: nat)
    requires i < |hs|
    ensures HandCount(hs[i := h], n) + One(Has(hs[i], n)) == HandCount(hs, n) + One(Has(h, n))
  {
    var l := |hs| - 1;
    if i < l {
      assert hs[i := h][..l] == hs[..l][i := h];
      HandUpdate(hs[..l], i, h, n);
    } else {
      assert hs[i := h][..l] == hs[..l];
    }
  }

  lemma {:induction false} FreeHands(k: nat, n: nat)
    ensures HandCount(seq(k, _ => Free), n) == 0
  {
    if k > 0 {
      assert seq(k, _ => Free)[..k - 1] == seq(k - 1, _ => Free);
      FreeHands(k - 1, n);
    }
  }

  lemma {:induction false} EndedHands(hs: seq<Hand>, n: nat)
    requires AllEnded(hs)
    ensures HandCount(hs, n) == 0
  {
    if hs != [] { EndedHands(hs[..|hs| - 1], n); }
  }

  lemma MoveSpots(j: Job, s: Stage, w: Who, n: nat)
    requires CanMove(j, s, w)
    ensures Spots(Move(j, s, w), n) == Spots(s, n) + One(Move(j, s, w).fed != s.fed && n == s.fed)
  {
    hide InQueue, HandCount;
    match w
    case Feeder => QueueAppend(s.raw, s.fed, n);
    case Worker(i) => WorkerSpots(j, s, i, n);
    case Caller =>
      if s.packed != [] {
        QueueHead(s.packed, n);
        ReceiveSpots(j, s.(packed := s.packed[1..]), s.packed[0], n);
      }
    case Meet(i) => HandUpdate(s.hands, i, Packing(s.fed), n);
    case Yield(i) =>
      HandUpdate(s.hands, i, Free, n);
      ReceiveSpots(j, s.(hands := s.hands[i := Free]), s.hands[i].n, n);
  }

  lemma ReceiveSpots(j: Job, s: Stage, m: nat, n: nat)
    ensures Spots(Receive(j, s, m), n) == Spots(s, n) + One(m == n)
  {
    hide InQueue, HandCount;
    QueueAppend(s.dropped, m, n);
    QueueAppend(s.delivered, m, n);
  }

  lemma WorkerSpots(j: Job, s: Stage, i: nat, n: nat)
    requires i < |s.hands|
    ensures Spots(WorkerMove(j, s, i), n) == Spots(s, n)
  {
    hide InQueue, HandCount;
    if s.raw != [] { QueueHead(s.raw, n); }
    HandUpdate(s.hands, i, WorkerMove(j, s, i).hands[i], n);
    assert s.hands == s.hands[i := s.hands[i]];
    match s.hands[i]
    case Free =>
    case Packing(m) => QueueAppend(s.dropped, m, n);
    case Handing(m) =>
      QueueAppend(s.dropped, m, n);
      QueueAppend(s.packed, m, n);
    case Ended(_) =>
  }

  // ---------------------------------------------------------------------------------------------
  // Invariant

  ghost predicate Conserved(j: Job, s: Stage) {
    && s.fed <= j.total && |s.hands| == j.workers
    && forall n: nat {:trigger Spots(s, n)} :: Spots(s, n) == One(n < s.fed)
  }

  /** Only chunks that compress get past a worker, and only accepted ones count as delivered. */
  ghost predicate Filtered(j: Job, s: Stage) {
    && (forall i {:trigger s.hands[i]} :: 0 <= i < |s.hands| && s.hands[i].Handing? ==> s.hands[i].n !in j.bad)
    && (forall k {:trigger s.packed[k]} :: 0 <= k < |s.packed| ==> s.packed[k] !in j.bad)
    && (forall k {:trigger s.delivered[k]} :: 0 <= k < |s.delivered| ==>
      s.delivered[k] !in j.bad && s.delivered[k] !in j.rejected)
  }

  /** Why anything has stopped, and that whatever is dropped makes the call fail. */
  ghost predicate Accounted(j: Job, s: Stage) {
    && (s.caller == Returned(true) ==> !s.feeding && AllEnded(s.hands) && !SomeFailed(s.hands))
    && (s.caller.Joining? ==> AllEnded(s.hands))
    && (!s.caller.Delivering? && s.caller != Returned(false) ==> s.packed == [])
    && (s.dropped != [] ==> SomeFailed(s.hands) || s.caller == Returned(false))
    && (SomeDone(s.hands) ==> !s.feeding && s.raw == [])
    && (!s.feeding ==> s.fed == j.total || s.caller == Returned(false))
    && (SomeFailed(s.hands) || s.caller == Returned(false) ==> Culprit(j))
  }

  /** Some chunk cannot be packed or is not wanted. */
  ghost predicate Culprit(j: Job) { exists n: nat {:trigger Bad(j, n)} :: n < j.total && Bad(j, n) }

  predicate Bad(j: Job, n: nat) { n in j.bad || n in j.rejected }

  predicate SomeDone(hs: seq<Hand>) { exists i {:trigger hs[i]} :: 0 <= i < |hs| && hs[i] == Ended(true) }

  ghost predicate Sane(j: Job, s: Stage) {
    && |s.raw| <= j.capacity && |s.packed| <= j.capacity
    && Conserved(j, s) && Filtered(j, s) && Accounted(j, s)
  }

  lemma StartSane(j: Job)
    ensures Sane(j, Start(j))
  {
    forall n: nat ensures Spots(Start(j), n) == 0 { FreeHands(j.workers, n); }
  }

  lemma MoveConserved(j: Job, s: Stage, w: Who)
    requires Sane(j, s) && CanMove(j, s, w)
    ensures Conserved(j, Move(j, s, w))
  {
    hide Accounted, Filtered;
    var t := Move(j, s, w);
    forall n: nat {:trigger Spots(t, n)} ensures Spots(t, n) == One(n < t.fed) {
      assert Spots(s, n) == One(n < s.fed);
      MoveSpots(j, s, w, n);
      hide Spots;
    }
  }

  lemma MoveFiltered(j: Job, s: Stage, w: Who)
    requires Sane(j, s) && CanMove(j, s, w)
    ensures Filtered(j, Move(j, s, w)) && |Move(j, s, w).raw| <= j.capacity && |Move(j, s, w).packed| <= j.capacity
  {
    assert s.fed <= j.total;
    hide Conserved, Accounted;
    match w
    case Worker(i) => WorkerFiltered(j, s, i);
    case _ =>
  }

  lemma WorkerFiltered(j: Job, s: Stage, i: nat)
    requires Filtered(j, s) && CanMove(j, s, Who.Worker(i))
    ensures Filtered(j, WorkerMove(j, s, i))
  {
  }

  /** A chunk in someone's hand has been fed. */
  lemma {:induction false} HandHas(hs: seq<Hand>, i: nat)
    requires i < |hs| && (hs[i].Packing? || hs[i].Handing?)
    ensures HandCount(hs, hs[i].n) > 0
  {
    if i < |hs| - 1 { HandHas(hs[..|hs| - 1], i); }
  }

  lemma InHandIsFed(j: Job, s: Stage, i: nat)
    requires Conserved(j, s) && i < |s.hands| && (s.hands[i].Packing? || s.hands[i].Handing?)
    ensures s.hands[i].n < j.total
  {
    hide InQueue, HandCount;
    HandHas(s.hands, i);
    assert Spots(s, s.hands[i].n) == One(s.hands[i].n < s.fed);
  }

  lemma PackedIsFed(j: Job, s: Stage)
    requires Conserved(j, s) && s.packed != []
    ensures s.packed[0] < j.total
  {
    hide HandCount;
    assert Spots(s, s.packed[0]) == One(s.packed[0] < s.fed);
  }

  lemma MoveAccounted(j: Job, s: Stage, w: Who)
    requires Sane(j, s) && CanMove(j, s, w)
    ensures Accounted(j, Move(j, s, w))
  {
    assert s.fed <= j.total;
    match w {
      case Feeder => hide Conserved;
      case Worker(i) =>
        if s.hands[i].Packing? { InHandIsFed(j, s, i); }
        hide Conserved;
        WorkerAccounted(j, s, i);
      case Caller =>
        if s.packed != [] {
          PackedIsFed(j, s);
          assert s.packed[0] in j.rejected ==> Bad(j, s.packed[0]);
        }
        hide Conserved;
      case Meet(i) =>
        hide Conserved;
        SameEnded(s.hands, i, Packing(s.fed));
      case Yield(i) =>
        InHandIsFed(j, s, i);
        assert s.hands[i].n in j.rejected ==> Bad(j, s.hands[i].n);
        hide Conserved;
        SameEnded(s.hands, i, Free);
    }
  }

  /** A worker that goes on working leaves open who has ended, and how. */
  lemma SameEnded(hs: seq<Hand>, i: nat, h: Hand)
    requires i < |hs| && !hs[i].Ended? && !h.Ended?
    ensures !AllEnded(hs) && !AllEnded(hs[i := h])
    ensures SomeFailed(hs[i := h]) <==> SomeFailed(hs)
    ensures SomeDone(hs[i := h]) <==> SomeDone(hs)
  {
    var gs := hs[i := h];
    assert gs[i] == h;
    if SomeFailed(hs) {
      var k :| 0 <= k < |hs| && hs[k] == Ended(false);
      assert gs[k] == Ended(false);
    }
    if SomeDone(hs) {
      var k :| 0 <= k < |hs| && hs[k] == Ended(true);
      assert gs[k] == Ended(true);
    }
  }

  lemma WorkerAccounted(j: Job, s: Stage, i: nat)
    requires Accounted(j, s) && CanMove(j, s, Who.Worker(i))
    requires s.hands[i].Packing? ==> s.hands[i].n < j.total
    ensures Accounted(j, WorkerMove(j, s, i))
  {
    var t := WorkerMove(j, s, i);
    assert !AllEnded(s.hands);
    assert t.hands[i] == t.hands[i];
    if s.hands[i].Packing? && s.hands[i].n in j.bad { assert Bad(j, s.hands[i].n); }
    if SomeFailed(s.hands) {
      var k :| 0 <= k < |s.hands| && s.hands[k] == Ended(false);
      assert t.hands[k] == Ended(false);
    }
    if SomeDone(t.hands) {
      var k :| 0 <= k < |t.hands| && t.hands[k] == Ended(true);
      assert k != i ==> s.hands[k] == Ended(true);
    }
    if SomeFailed(t.hands) {
      var k :| 0 <= k < |t.hands| && t.hands[k] == Ended(false);
      assert k != i ==> s.hands[k] == Ended(false);
    }
  }

  lemma MoveSane(j: Job, s: Stage, w: Who)
    requires Sane(j, s) && CanMove(j, s, w)
    ensures Sane(j, Move(j, s, w))
  {
    MoveConserved(j, s, w);
    MoveFiltered(j, s, w);
    MoveAccounted(j, s, w);
    hide Conserved, Filtered, Accounted, Move, CanMove;
  }

  // ---------------------------------------------------------------------------------------------
  // Runs

  ghost predicate Next(j: Job, s: Stage, t: Stage) {
    exists w {:trigger CanMove(j, s, w)} :: CanMove(j, s, w) && t == Move(j, s, w)
  }

  ghost predicate IsHistory(j: Job, stages: seq<Stage>) {
    && stages != [] && stages[0] == Start(j)
    && forall k {:trigger stages[k]} :: 0 < k < |stages| ==> Next(j, stages[k - 1], stages[k])
  }

  lemma {:induction false} HistorySane(j: Job, stages: seq<Stage>, k: nat)
    requires IsHistory(j, stages) && k < |stages|
    ensures Sane(j, stages[k])
  {
    hide Sane, CanMove, Move;
    if k == 0 {
      StartSane(j);
    } else {
      HistorySane(j, stages, k - 1);
      assert Next(j, stages[k - 1], stages[k]);
      var w :| CanMove(j, stages[k - 1], w) && stages[k] == Move(j, stages[k - 1], w);
      MoveSane(j, stages[k - 1], w);
    }
  }

  /**
   Exactly once. In every interleaving, no chunk reaches the callback twice; and when the call returns success with
   at least one worker, every chunk has reached it, so none failed to compress or was rejected.
   */
  lemma DeliveredExactlyOnce(j: Job, stages: seq<Stage>, n: nat)
    requires IsHistory(j, stages)
    ensures var s := stages[|stages| - 1];
      && InQueue(s.delivered, n) <= 1
      && (s.caller == Returned(true) && j.workers > 0 ==>
          InQueue(s.delivered, n) == (if n < j.total then 1 else 0)
          && (n < j.total ==> n !in j.bad && n !in j.rejected))
  {
    var s := stages[|stages| - 1];
    HistorySane(j, stages, |stages| - 1);
    assert Spots(s, n) == One(n < s.fed);
    if s.caller == Returned(true) && j.workers > 0 {
      assert s.hands[0] == Ended(true);
      EndedHands(s.hands, n);
      QueueIn(s.delivered, n);
    }
  }

  // ---------------------------------------------------------------------------------------------
  // Every run ends

  function HandWeight(h: Hand): nat {
    match h case Free => 1 case Packing(_) => 6 case Handing(_) => 5 case Ended(_) => 0
  }

  function HandsWeight(hs: seq<Hand>): nat {
    if hs == [] then 0 else HandsWeight(hs[..|hs| - 1]) + HandWeight(hs[|hs| - 1])
  }

  function Phase(c: CallPhase): nat { match c case Delivering => 2 case Joining => 1 case Returned(_) => 0 }

  /** What is left to do: every move lowers it. */
  function Measure(j: Job, s: Stage): int {
    7 * (j.total - s.fed) + One(s.feeding) + 6 * |s.raw| + HandsWeight(s.hands) + 3 * |s.packed| + Phase(s.caller)
  }

  lemma {:induction false} WeightUpdate(hs: seq<Hand>, i: nat, h: Hand)
    requires i < |hs|
    ensures HandsWeight(hs[i := h]) + HandWeight(hs[i]) == HandsWeight(hs) + HandWeight(h)
  {
    var l := |hs| - 1;
    if i < l {
      assert hs[i := h][..l] == hs[..l][i := h];
      WeightUpdate(hs[..l], i, h);
    } else {
      assert hs[i := h][..l] == hs[..l];
    }
  }

  lemma {:induction false} FreeWeight(k: nat)
    ensures HandsWeight(seq(k, _ => Free)) == k
  {
    if k > 0 {
      assert seq(k, _ => Free)[..k - 1] == seq(k - 1, _ => Free);
      FreeWeight(k - 1);
    }
  }

  lemma MoveDescends(j: Job, s: Stage, w: Who)
    requires CanMove(j, s, w) && s.fed <= j.total
    ensures Measure(j, Move(j, s, w)) < Measure(j, s)
  {
    hide HandsWeight;
    match w
    case Feeder =>
    case Caller =>
    case Worker(i) => WeightUpdate(s.hands, i, WorkerMove(j, s, i).hands[i]);
    case Meet(i) => WeightUpdate(s.hands, i, Packing(s.fed));
    case Yield(i) => WeightUpdate(s.hands, i, Free);
  }

  lemma {:induction false} HistoryLength(j: Job, stages: seq<Stage>, k: nat)
    requires IsHistory(j, stages) && k < |stages|
    ensures k + Measure(j, stages[k]) <= 7 * j.total + j.workers + 3 && Measure(j, stages[k]) >= 0
  {
    hide CanMove, Move, HandsWeight;
    HistorySane(j, stages, k);
    assert stages[k].fed <= j.total by { hide Spots, Filtered, Accounted; }
    hide Sane;
    if k == 0 {
      FreeWeight(j.workers);
    } else {
      HistoryLength(j, stages, k - 1);
      HistorySane(j, stages, k - 1);
      assert Next(j, stages[k - 1], stages[k]);
      var w :| CanMove(j, stages[k - 1], w) && stages[k] == Move(j, stages[k - 1], w);
      SaneFed(j, stages[k - 1]);
      hide Measure;
      MoveDescends(j, stages[k - 1], w);
    }
  }

  lemma SaneFed(j: Job, s: Stage)
    requires Sane(j, s)
    ensures s.fed <= j.total && |s.hands| == j.workers
  {
    hide Filtered, Accounted, Spots;
  }

  predicate Over(s: Stage) { s.caller.Returned? && AllEnded(s.hands) && !s.feeding }

  ghost predicate Stuck(j: Job, s: Stage) { forall w {:trigger CanMove(j, s, w)} :: !CanMove(j, s, w) }

  /** A history that cannot go on. */
  ghost predicate IsMaximal(j: Job, stages: seq<Stage>) { IsHistory(j, stages) && Stuck(j, stages[|stages| - 1]) }

  /** With a worker, some thread can always move until all have ended; on a channel without room, two together. */
  lemma NeverStuck(j: Job, s: Stage) returns (w: Who)
    requires Sane(j, s) && j.workers > 0 && !Over(s)
    ensures CanMove(j, s, w)
  {
    SaneFed(j, s);
    hide Filtered, Conserved;
    if CanMove(j, s, Caller) {
      w := Caller;
    } else if CanMove(j, s, Feeder) {
      w := Feeder;
    } else {
      var i: nat :| i < |s.hands| && !s.hands[i].Ended?;
      w := if CanMove(j, s, Who.Worker(i)) then Who.Worker(i) else if s.hands[i].Free? then Meet(i) else Yield(i);
    }
  }

  /** Histories are bounded, and with a worker one that cannot go on has ended in every thread. */
  lemma EveryHistoryEnds(j: Job, stages: seq<Stage>)
    requires IsHistory(j, stages)
    ensures |stages| <= 7 * j.total + j.workers + 4
    ensures IsMaximal(j, stages) && j.workers > 0 ==> Over(stages[|stages| - 1])
  {
    HistoryLength(j, stages, |stages| - 1);
    HistorySane(j, stages, |stages| - 1);
    hide Sane;
    if j.workers > 0 && !Over(stages[|stages| - 1]) {
      var w := NeverStuck(j, stages[|stages| - 1]);
    }
  }

  /** So every history is the beginning of one that cannot go on. */
  lemma {:induction false} Completes(j: Job, stages: seq<Stage>) returns (all: seq<Stage>)
    requires IsHistory(j, stages)
    ensures IsMaximal(j, all)
    decreases 7 * j.total + j.workers + 4 - |stages|
  {
    EveryHistoryEnds(j, stages);
    var s := stages[|stages| - 1];
    if Stuck(j, s) {
      all := stages;
    } else {
      var w :| CanMove(j, s, w);
      hide CanMove, Move;
      var longer := stages + [Move(j, s, w)];
      forall k {:trigger longer[k]} | 0 < k < |longer| ensures Next(j, longer[k - 1], longer[k]) {
        if k < |stages| { assert longer[k - 1] == stages[k - 1] && longer[k] == stages[k]; }
      }
      EveryHistoryEnds(j, longer);
      all := Completes(j, longer);
    }
  }

  // ---------------------------------------------------------------------------------------------
  // What the call returns

  /**
   The outcome does not depend on the interleaving: with a worker, a complete run reports success if and only if every
   chunk can be packed and is accepted.
   */
  lemma OutcomeIff(j: Job, stages: seq<Stage>)
    requires IsMaximal(j, stages) && j.workers > 0
    ensures var s := stages[|stages| - 1]; s.caller.Returned? && (s.caller == Returned(true) <==> !Culprit(j))
  {
    var s := stages[|stages| - 1];
    EveryHistoryEnds(j, stages);
    HistorySane(j, stages, |stages| - 1);
    assert s.caller == Returned(false) ==> Culprit(j) by { hide Conserved, Filtered; }
    hide Sane, CanMove, IsHistory;
    if s.caller == Returned(true) && Culprit(j) {
      var n: nat :| n < j.total && Bad(j, n);
      DeliveredExactlyOnce(j, stages, n);
    }
  }

  /** Without workers, chunks stay where the feeder put them. */
  predicate Idle(j: Job, s: Stage) {
    && s.delivered == [] && s.packed == [] && s.hands == [] && s.fed <= j.total
    && |s.raw| == s.fed <= j.capacity
    && (!s.feeding ==> s.fed == j.total)
    && (s.caller.Returned? ==> s.caller == Returned(true) && !s.feeding)
  }

  lemma IdleMove(j: Job, s: Stage, w: Who)
    requires Idle(j, s) && CanMove(j, s, w)
    ensures Idle(j, Move(j, s, w))
  {
  }

  /** Without workers nothing is ever delivered, and the call can return only if the chunks fit in the channel. */
  lemma {:induction false} NoWorkers(j: Job, stages: seq<Stage>, k: nat)
    requires IsHistory(j, stages) && k < |stages| && j.workers == 0
    ensures Idle(j, stages[k])
    ensures stages[k].delivered == []
    ensures stages[k].caller.Returned? ==> stages[k].caller == Returned(true) && j.total <= j.capacity
  {
    if k > 0 {
      NoWorkers(j, stages, k - 1);
      assert Next(j, stages[k - 1], stages[k]);
      var w :| CanMove(j, stages[k - 1], w) && stages[k] == Move(j, stages[k - 1], w);
      IdleMove(j, stages[k - 1], w);
      hide CanMove, Move;
    }
  }

  lemma IdleGoesOn(j: Job, s: Stage) returns (w: Who)
    requires Idle(j, s) && j.total <= j.capacity && !s.caller.Returned?
    ensures CanMove(j, s, w)
  {
    w := if s.feeding then Feeder else Caller;
  }

  /** Without workers, a run that cannot go on has returned success exactly when the chunks fit in the channel. */
  lemma NoWorkersIff(j: Job, stages: seq<Stage>)
    requires IsMaximal(j, stages) && j.workers == 0
    ensures stages[|stages| - 1].caller.Returned? <==> j.total <= j.capacity
    ensures stages[|stages| - 1].caller.Returned? ==> stages[|stages| - 1].caller == Returned(true)
  {
    var s := stages[|stages| - 1];
    NoWorkers(j, stages, |stages| - 1);
    hide Idle, CanMove;
    if j.total <= j.capacity && !s.caller.Returned? {
      var w := IdleGoesOn(j, s);
    }
  }

  /** A run from the start that cannot go on. */
  lemma SomeMaximal(j: Job) returns (stages: seq<Stage>)
    ensures IsMaximal(j, stages)
  {
    stages := Completes(j, [Start(j)]);
  }

  /** Exactly when every call returns: otherwise the feeder waits for room, and the caller for the feeder. */
  lemma ReturnsIff(j: Job)
    ensures (forall stages: seq<Stage> {:trigger IsMaximal(j, stages)} :: IsMaximal(j, stages) ==>
        stages[|stages| - 1].caller.Returned?) <==>
      j.workers > 0 || j.total <= j.capacity
  {
    hide IsMaximal;
    forall stages: seq<Stage> | IsMaximal(j, stages)
      ensures stages != [] && (stages[|stages| - 1].caller.Returned? <==> j.workers > 0 || j.total <= j.capacity)
    {
      MaximalIsHistory(j, stages);
      if j.workers > 0 { OutcomeIff(j, stages); } else { NoWorkersIff(j, stages); }
    }
    var one := SomeMaximal(j);
  }

  lemma MaximalIsHistory(j: Job, stages: seq<Stage>)
    requires IsMaximal(j, stages)
    ensures IsHistory(j, stages) && stages != []
  {
  }

  ghost predicate AllDelivered(j: Job, s: Stage) {
    forall n: nat {:trigger InQueue(s.delivered, n)} :: n < j.total ==> InQueue(s.delivered, n) == 1
  }

  /**
   Exactly when success means that every chunk was delivered. Without workers, chunks that fit in the channel stay
   there and the call reports success all the same.
   */
  lemma SuccessMeansDeliveredIff(j: Job)
    ensures (forall stages: seq<Stage> {:trigger IsMaximal(j, stages)} ::
        IsMaximal(j, stages) && stages[|stages| - 1].caller == Returned(true) ==>
          AllDelivered(j, stages[|stages| - 1])) <==>
      j.workers > 0 || j.total == 0 || j.total > j.capacity
  {
    hide IsMaximal;
    forall stages: seq<Stage> | IsMaximal(j, stages)
      ensures stages != [] && (stages[|stages| - 1].caller == Returned(true) ==>
        (AllDelivered(j, stages[|stages| - 1]) <==> j.workers > 0 || j.total == 0 || j.total > j.capacity))
      ensures j.workers == 0 && j.total <= j.capacity ==> stages[|stages| - 1].caller == Returned(true)
    {
      MaximalIsHistory(j, stages);
      SuccessOf(j, stages);
    }
    var one := SomeMaximal(j);
  }

  lemma SuccessOf(j: Job, stages: seq<Stage>)
    requires IsMaximal(j, stages)
    ensures stages[|stages| - 1].caller == Returned(true) ==>
      (AllDelivered(j, stages[|stages| - 1]) <==> j.workers > 0 || j.total == 0 || j.total > j.capacity)
    ensures j.workers == 0 && j.total <= j.capacity ==> stages[|stages| - 1].caller == Returned(true)
  {
    hide Stuck, Next;
    var s := stages[|stages| - 1];
    if j.workers > 0 {
      forall n: nat | s.caller == Returned(true) && n < j.total ensures InQueue(s.delivered, n) == 1 {
        DeliveredExactlyOnce(j, stages, n);
      }
    } else {
      NoWorkersIff(j, stages);
      NoWorkers(j, stages, |stages| - 1);
      assert InQueue(s.delivered, 0) == 0;
    }
  }

  /** One chunk, no worker, room for one: the call reports success and has delivered nothing. */
  lemma SilentSuccess() returns (stages: seq<Stage>)
    ensures IsMaximal(Job(1, {}, {}, 0, 1), stages)
    ensures stages[|stages| - 1].caller == Returned(true) && stages[|stages| - 1].delivered == []
  {
    var j := Job(1, {}, {}, 0, 1);
    var s0 := Stage(0, true, [], [], [], [], Delivering, []);
    var s1 := s0.(fed := 1, raw := [0]);
    var s2 := s1.(feeding := false);
    var s3 := s2.(caller := Joining);
    var s4 := s3.(caller := Returned(true));
    stages := [s0, s1, s2, s3, s4];
    assert s0 == Start(j);
    assert CanMove(j, s0, Feeder) && Move(j, s0, Feeder) == s1;
    assert CanMove(j, s1, Feeder) && Move(j, s1, Feeder) == s2;
    assert CanMove(j, s2, Caller) && Move(j, s2, Caller) == s3;
    assert CanMove(j, s3, Caller) && Move(j, s3, Caller) == s4;
  }
}
