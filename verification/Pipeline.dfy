// The parallel packing pipeline (process_stream_parallel) as a state machine: one reader, N workers, two bounded
// channels, and a main thread that reorders and writes.
module Pipeline {
  import opened Common
  import opened WriterModel
  import opened WriterRuns

  /**
   What a run is given: the writer it starts from, the chunks the reader will get out of the input, the error that
   follows them if any, which chunks the compressor rejects, which the writer fails on and how, and the number of
   workers.
   */
  datatype Setup = Setup(
    cfg: Config, start: WriterState, chunks: seq<Bytes>, readError: Option<Error>, bad: set<nat>,
    failing: map<nat, Error>, workers: nat)
  {
    function Capacity(): nat { 4 * workers }

    function Chunk(n: nat): Bytes { if n < |chunks| then chunks[n] else [] }
  }

  datatype Worker = Waiting | Compressing(n: nat) | Sending(n: nat) | Exited

  datatype MainThread = Receiving | Draining | Stopped

  datatype State = State(
    sent: nat,              // chunks handed to the first channel so far; the next one's number
    reading: bool,
    raw: seq<nat>,          // first channel
    workers: seq<Worker>,
    done: seq<nat>,         // second channel
    reorder: set<nat>,
    nextSeq: nat,
    main: MainThread,
    writeError: Option<Error>,
    writer: WriterState,
    lost: seq<nat>)         // chunks dropped on the way; nothing reads this

  datatype Actor = Reader | Worker(i: nat) | Main

  // ---------------------------------------------------------------------------------------------
  // Steps

  predicate AllExited(ws: seq<Worker>) { forall i {:trigger ws[i]} :: 0 <= i < |ws| ==> ws[i].Exited? }

  function Initial(c: Setup): State {
    State(0, true, [], seq(c.workers, _ => Waiting), [], {}, 0, Receiving, None, c.start, [])
  }

  /** A thread that is not blocked and has not finished. */
  predicate Enabled(c: Setup, s: State, a: Actor) {
    match a
    case Reader => s.reading && (s.sent == |c.chunks| || AllExited(s.workers) || |s.raw| < c.Capacity())
    case Worker(i) =>
      i < |s.workers| &&
      (match s.workers[i]
       case Waiting => s.raw != [] || !s.reading
       case Compressing(_) => true
       case Sending(_) => s.main.Stopped? || |s.done| < c.Capacity()
       case Exited => false)
    case Main =>
      match s.main
      case Receiving => s.done != [] || AllExited(s.workers)
      case Draining => true
      case Stopped => false
  }

  function Step(c: Setup, s: State, a: Actor): State
    requires Enabled(c, s, a)
  {
    match a
    case Reader => ReaderStep(c, s)
    case Worker(i) => WorkerStep(c, s, i)
    case Main => MainStep(c, s)
  }

  /** Sends the next chunk; ends at the end of the input, at a read error, or when every receiver is gone. */
  function ReaderStep(c: Setup, s: State): State {
    if s.sent >= |c.chunks| || AllExited(s.workers) then s.(reading := false)
    else s.(raw := s.raw + [s.sent], sent := s.sent + 1)
  }

  function WorkerStep(c: Setup, s: State, i: nat): State
    requires i < |s.workers|
  {
    match s.workers[i]
    case Waiting =>
      if s.raw == [] then s.(workers := s.workers[i := Exited])
      else s.(raw := s.raw[1..], workers := s.workers[i := Compressing(s.raw[0])])
    case Compressing(n) =>
      if n in c.bad then s.(workers := s.workers[i := Exited], lost := s.lost + [n])
      else s.(workers := s.workers[i := Sending(n)])
    case Sending(n) =>
      if s.main.Stopped? then s.(workers := s.workers[i := Exited], lost := s.lost + [n])
      else s.(workers := s.workers[i := Waiting], done := s.done + [n])
    case Exited => s
  }

  /** Receives one chunk, then writes out whatever has become consecutive; a failed write ends the loop. */
  function MainStep(c: Setup, s: State): State {
    match s.main
    case Receiving =>
      if s.done == [] then s.(main := Stopped)
      else s.(done := s.done[1..], reorder := s.reorder + {s.done[0]}, main := Draining)
    case Draining =>
      if s.nextSeq !in s.reorder then s.(main := Receiving)
      else if s.nextSeq in c.failing then
        s.(reorder := s.reorder - {s.nextSeq}, lost := s.lost + [s.nextSeq],
           writeError := Some(c.failing[s.nextSeq]), main := Stopped)
      else
        s.(reorder := s.reorder - {s.nextSeq}, nextSeq := s.nextSeq + 1,
           writer := Apply(c.cfg, s.writer, Precompressed(c.Chunk(s.nextSeq))))
    case Stopped => s
  }

  /** All threads have finished, so that the joins return. */
  predicate Finished(s: State) { !s.reading && AllExited(s.workers) && s.main.Stopped? }

  /** What is returned after the joins: a write error first, then the reader's; the workers' are dropped. */
  function Outcome(c: Setup, s: State): Result<()> {
    if s.writeError.Some? then Err(s.writeError.value)
    else if c.readError.Some? && s.sent == |c.chunks| then Err(c.readError.value)
    else Ok(())
  }

  // ---------------------------------------------------------------------------------------------
  // Invariant

  /** How often chunk `n` stands in a queue. */
  function InQueue(q: seq<nat>, n: nat): nat {
    if q == [] then 0 else One(q[0] == n) + InQueue(q[1..], n)
  }

  predicate Holds(w: Worker, n: nat) { (w.Compressing? || w.Sending?) && w.n == n }

  /** How many workers have chunk `n` in hand. */
  function InHands(ws: seq<Worker>, n: nat): nat {
    if ws == [] then 0 else InHands(ws[..|ws| - 1], n) + One(Holds(ws[|ws| - 1], n))
  }

  /** In how many places chunk `n` is: queued, in hand, waiting for its turn, written, or lost. */
  function Places(s: State, n: nat): nat {
    InQueue(s.raw, n) + InHands(s.workers, n) + InQueue(s.done, n) + One(n in s.reorder) + One(n < s.nextSeq) +
      InQueue(s.lost, n)
  }

  function WrittenOps(chunks: seq<Bytes>): (ops: seq<Op>)
    ensures |ops| == |chunks| && forall i :: 0 <= i < |ops| ==> ops[i] == Precompressed(chunks[i])
  {
    seq(|chunks|, i requires 0 <= i < |chunks| => Precompressed(chunks[i]))
  }

  /** Exactly the first `nextSeq` chunks, in order, have reached the writer. */
  ghost predicate InOrder(c: Setup, s: State) {
    && s.nextSeq <= |c.chunks|
    && s.writer == Run(c.cfg, c.start, WrittenOps(c.chunks[..s.nextSeq]))
  }

  /** Each chunk sent is in exactly one place, and the first channel is first in, first out. */
  ghost predicate Placed(c: Setup, s: State) {
    && (forall n: nat {:trigger Places(s, n)} :: Places(s, n) == One(n < s.sent))
    && s.sent <= |c.chunks|
    && |s.raw| <= s.sent
    && forall j {:trigger s.raw[j]} :: 0 <= j < |s.raw| ==> s.raw[j] == s.sent - |s.raw| + j
  }

  /** Only chunks that compress get past a worker. */
  ghost predicate Clean(c: Setup, s: State) {
    && (forall i {:trigger s.workers[i]} :: 0 <= i < |s.workers| && s.workers[i].Sending? ==> s.workers[i].n !in c.bad)
    && (forall j {:trigger s.done[j]} :: 0 <= j < |s.done| ==> s.done[j] !in c.bad)
    && (forall n {:trigger n in s.reorder} :: n in s.reorder ==> n !in c.bad)
    && (forall n: nat {:trigger n in c.bad} {:trigger n in c.failing} :: n < s.nextSeq ==>
      n !in c.bad && n !in c.failing)
  }

  /** Why a thread has stopped. */
  ghost predicate Explained(c: Setup, s: State) {
    && |s.workers| == c.workers
    && |s.raw| <= 4 * c.workers && |s.done| <= 4 * c.workers
    && (s.main.Receiving? ==> s.nextSeq !in s.reorder)
    && (s.writeError.Some? ==>
        s.main.Stopped? && s.nextSeq in c.failing && s.writeError.value == c.failing[s.nextSeq] &&
        s.nextSeq !in c.bad && s.nextSeq < s.sent)
    && (s.main.Stopped? && s.writeError.None? ==> AllExited(s.workers) && s.done == [] && s.nextSeq !in s.reorder)
    && (s.writeError.None? ==> forall j {:trigger s.lost[j]} :: 0 <= j < |s.lost| ==> s.lost[j] in c.bad)
    && (s.writeError.None? && (exists i {:trigger s.workers[i]} :: 0 <= i < |s.workers| && s.workers[i].Exited?) ==>
      (!s.reading && s.raw == []) || s.lost != [])
    && (!s.reading ==> s.sent == |c.chunks| || AllExited(s.workers))
    && (!s.reading && s.writeError.None? ==> s.sent == |c.chunks| || s.lost != [])
  }

  ghost predicate Inv(c: Setup, s: State) {
    c.workers > 0 && InOrder(c, s) && Placed(c, s) && Clean(c, s) && Explained(c, s)
  }

  lemma {:induction false} HandsUpdate(ws: seq<Worker>, i: nat, w: Worker, n: nat)
    requires i < |ws|
    ensures InHands(ws[i := w], n) + One(Holds(ws[i], n)) == InHands(ws, n) + One(Holds(w, n))
  {
    var l := |ws| - 1;
    if i < l {
      assert ws[i := w][..l] == ws[..l][i := w];
      HandsUpdate(ws[..l], i, w, n);
    } else {
      assert ws[i := w][..l] == ws[..l];
    }
  }

  lemma {:induction false} QueueAppend(q: seq<nat>, x: nat, n: nat)
    ensures InQueue(q + [x], n) == InQueue(q, n) + One(x == n)
  {
    if q == [] {
      assert [x][1..] == [];
    } else {
      assert (q + [x])[1..] == q[1..] + [x];
      QueueAppend(q[1..], x, n);
    }
  }

  lemma QueueHead(q: seq<nat>, n: nat)
    requires q != []
    ensures InQueue(q, n) == One(q[0] == n) + InQueue(q[1..], n)
  {
  }

  lemma {:induction false} QueueHas(q: seq<nat>, j: nat)
    requires j < |q|
    ensures InQueue(q, q[j]) > 0
  {
    if j > 0 { QueueHas(q[1..], j - 1); }
  }

  lemma {:induction false} NoHands(k: nat, n: nat)
    ensures InHands(seq(k, _ => Waiting), n) == 0
  {
    if k > 0 {
      assert seq(k, _ => Waiting)[..k - 1] == seq(k - 1, _ => Waiting);
      NoHands(k - 1, n);
    }
  }

  lemma {:induction false} HandHas(ws: seq<Worker>, i: nat, n: nat)
    requires i < |ws| && Holds(ws[i], n)
    ensures InHands(ws, n) > 0
  {
    if i < |ws| - 1 { HandHas(ws[..|ws| - 1], i, n); }
  }

  lemma InitialInv(c: Setup)
    requires c.workers > 0
    ensures Inv(c, Initial(c))
  {
    forall n: nat ensures Places(Initial(c), n) == 0 { NoHands(c.workers, n); }
    assert c.chunks[..0] == [];
  }

  // ---------------------------------------------------------------------------------------------
  // What a step does to the places of a chunk: nothing, except that the reader adds the next chunk

  lemma ReaderPlaces(c: Setup, s: State, n: nat)
    ensures var t := ReaderStep(c, s); Places(t, n) == Places(s, n) + One(t.sent != s.sent && n == s.sent)
  {
    QueueAppend(s.raw, s.sent, n);
  }

  lemma WorkerPlaces(c: Setup, s: State, i: nat, n: nat)
    requires i < |s.workers|
    ensures Places(WorkerStep(c, s, i), n) == Places(s, n)
  {
    hide InQueue, InHands, Places;
    match s.workers[i]
    case Waiting => WaitingPlaces(c, s, i, n);
    case Compressing(m) => CompressingPlaces(c, s, i, n, m);
    case Sending(m) => SendingPlaces(c, s, i, n, m);
    case Exited =>
  }

  lemma WaitingPlaces(c: Setup, s: State, i: nat, n: nat)
    requires i < |s.workers| && s.workers[i].Waiting?
    ensures Places(WorkerStep(c, s, i), n) == Places(s, n)
  {
    hide InQueue, InHands;
    if s.raw == [] {
      HandsUpdate(s.workers, i, Exited, n);
    } else {
      QueueHead(s.raw, n);
      HandsUpdate(s.workers, i, Compressing(s.raw[0]), n);
    }
  }

  lemma CompressingPlaces(c: Setup, s: State, i: nat, n: nat, m: nat)
    requires i < |s.workers| && s.workers[i] == Compressing(m)
    ensures Places(WorkerStep(c, s, i), n) == Places(s, n)
  {
    hide InQueue, InHands;
    HandsUpdate(s.workers, i, if m in c.bad then Exited else Sending(m), n);
    QueueAppend(s.lost, m, n);
  }

  lemma SendingPlaces(c: Setup, s: State, i: nat, n: nat, m: nat)
    requires i < |s.workers| && s.workers[i] == Sending(m)
    ensures Places(WorkerStep(c, s, i), n) == Places(s, n)
  {
    hide InQueue, InHands;
    HandsUpdate(s.workers, i, if s.main.Stopped? then Exited else Waiting, n);
    QueueAppend(s.lost, m, n);
    QueueAppend(s.done, m, n);
  }

  lemma MainPlaces(c: Setup, s: State, n: nat)
    requires s.main.Receiving? && s.done != [] ==> s.done[0] !in s.reorder
    ensures Places(MainStep(c, s), n) == Places(s, n)
  {
    hide InQueue, InHands, Apply;
    QueueAppend(s.lost, s.nextSeq, n);
    if s.done != [] { QueueHead(s.done, n); }
  }

  // ---------------------------------------------------------------------------------------------
  // Every step keeps the invariant

  lemma NotTwice(c: Setup, s: State, n: nat)
    requires Placed(c, s)
    ensures Places(s, n) == One(n < s.sent)
  {
  }

  /** A chunk in some place has been sent, and is in no other place. */
  lemma PlaceFacts(c: Setup, s: State)
    requires Placed(c, s)
    ensures s.done != [] ==> s.done[0] !in s.reorder && s.done[0] >= s.nextSeq
    ensures s.nextSeq in s.reorder ==> s.nextSeq < s.sent
  {
    hide Placed, InHands;
    if s.done != [] {
      NotTwice(c, s, s.done[0]);
      QueueHas(s.done, 0);
    }
    NotTwice(c, s, s.nextSeq);
  }

  lemma StepPlaced(c: Setup, s: State, a: Actor)
    requires Inv(c, s) && Enabled(c, s, a)
    ensures Placed(c, Step(c, s, a))
  {
    hide InOrder, Clean, Explained, Places, Apply, Run;
    PlaceFacts(c, s);
    var t := Step(c, s, a);
    forall n: nat {:trigger Places(t, n)}
      ensures Places(t, n) == One(n < t.sent)
    {
      NotTwice(c, s, n);
      match a
      case Reader => ReaderPlaces(c, s, n);
      case Worker(i) => WorkerPlaces(c, s, i, n);
      case Main => MainPlaces(c, s, n);
    }
  }

  lemma StepClean(c: Setup, s: State, a: Actor)
    requires Inv(c, s) && Enabled(c, s, a)
    ensures Clean(c, Step(c, s, a))
  {
    assert Clean(c, s);
    hide Inv, Clean;
    match a
    case Reader => ReaderClean(c, s);
    case Worker(i) => WorkerClean(c, s, i);
    case Main => MainClean(c, s);
  }

  lemma ReaderClean(c: Setup, s: State)
    requires Clean(c, s)
    ensures Clean(c, ReaderStep(c, s))
  {
  }

  lemma WorkerClean(c: Setup, s: State, i: nat)
    requires Clean(c, s) && i < |s.workers|
    ensures Clean(c, WorkerStep(c, s, i))
  {
    var t := WorkerStep(c, s, i);
    forall k {:trigger t.workers[k]} | 0 <= k < |t.workers| && t.workers[k].Sending? ensures t.workers[k].n !in c.bad {
      assert k != i ==> t.workers[k] == s.workers[k];
    }
    assert s.workers[i] == s.workers[i];
  }

  lemma MainClean(c: Setup, s: State)
    requires Clean(c, s)
    ensures Clean(c, MainStep(c, s))
  {
    hide Apply;
  }

  lemma StepExplained(c: Setup, s: State, a: Actor)
    requires Inv(c, s) && Enabled(c, s, a)
    ensures Explained(c, Step(c, s, a))
  {
    assert s.sent <= |c.chunks|;
    PlaceFacts(c, s);
    hide InOrder, Placed, Clean, Apply, Run;
    var t := Step(c, s, a);
    match a
    case Reader => assert s.workers[0] == t.workers[0];
    case Worker(i) => WorkerExplained(c, s, i);
    case Main => MainExplained(c, s);
  }

  lemma MainExplained(c: Setup, s: State)
    requires Inv(c, s) && Enabled(c, s, Main)
    ensures Explained(c, MainStep(c, s))
  {
    assert s.nextSeq in s.reorder ==> s.nextSeq !in c.bad;
    PlaceFacts(c, s);
    hide InOrder, Placed, Clean, Apply, Run;
  }

  lemma WorkerExplained(c: Setup, s: State, i: nat)
    requires Inv(c, s) && Enabled(c, s, Worker(i))
    ensures Explained(c, WorkerStep(c, s, i))
  {
    hide InOrder, Placed, Clean;
    var t := WorkerStep(c, s, i);
    assert t.workers[i] == t.workers[i];
    assert !AllExited(s.workers);
    if t.writeError.None? {
      if j :| 0 <= j < |t.workers| && t.workers[j].Exited? {
        if j != i { assert s.workers[j].Exited?; }
      }
    }
  }

  lemma StepInOrder(c: Setup, s: State, a: Actor)
    requires Inv(c, s) && Enabled(c, s, a)
    ensures InOrder(c, Step(c, s, a))
  {
    PlaceFacts(c, s);
    WriterMoves(c, s, a);
    hide Clean, Explained, Placed, Apply, Run, Step, Enabled;
    if a.Main? && s.main.Draining? && s.nextSeq in s.reorder && s.nextSeq !in c.failing {
      OneMore(c, s.nextSeq);
    }
  }

  /** Only the main thread, when the next chunk is there and the write succeeds, touches the writer. */
  lemma WriterMoves(c: Setup, s: State, a: Actor)
    requires Enabled(c, s, a)
    ensures var t := Step(c, s, a);
      if a.Main? && s.main.Draining? && s.nextSeq in s.reorder && s.nextSeq !in c.failing then
        t.nextSeq == s.nextSeq + 1 && t.writer == Apply(c.cfg, s.writer, Precompressed(c.Chunk(s.nextSeq)))
      else t.nextSeq == s.nextSeq && t.writer == s.writer
  {
    hide Apply;
  }

  /** Writing chunk `k` after the first `k` chunks. */
  lemma OneMore(c: Setup, k: nat)
    requires k < |c.chunks|
    ensures Run(c.cfg, c.start, WrittenOps(c.chunks[..k + 1])) ==
      Apply(c.cfg, Run(c.cfg, c.start, WrittenOps(c.chunks[..k])), Precompressed(c.Chunk(k)))
  {
    hide Apply, Run;
    RunAppend(c.cfg, c.start, WrittenOps(c.chunks[..k]), Precompressed(c.chunks[k]));
    assert WrittenOps(c.chunks[..k + 1]) == WrittenOps(c.chunks[..k]) + [Precompressed(c.chunks[k])];
  }

  lemma {:induction false} RunAppend(cfg: Config, st: WriterState, ops: seq<Op>, op: Op)
    ensures Run(cfg, st, ops + [op]) == Apply(cfg, Run(cfg, st, ops), op)
    decreases |ops|
  {
    hide Apply;
    if ops == [] {
      assert [op][1..] == [];
    } else {
      assert (ops + [op])[1..] == ops[1..] + [op];
      RunAppend(cfg, Apply(cfg, st, ops[0]), ops[1..], op);
    }
  }

  lemma StepInv(c: Setup, s: State, a: Actor)
    requires Inv(c, s) && Enabled(c, s, a)
    ensures Inv(c, Step(c, s, a))
  {
    StepPlaced(c, s, a);
    StepClean(c, s, a);
    StepExplained(c, s, a);
    StepInOrder(c, s, a);
  }

  // ---------------------------------------------------------------------------------------------
  // Runs

  /** The states of a run: each follows from the one before by a step of some thread. */
  ghost predicate IsRun(c: Setup, states: seq<State>) {
    && states != [] && states[0] == Initial(c)
    && forall k {:trigger states[k]} :: 0 < k < |states| ==> Follows(c, states[k - 1], states[k])
  }

  ghost predicate Follows(c: Setup, s: State, t: State) {
    exists a {:trigger Enabled(c, s, a)} :: Enabled(c, s, a) && t == Step(c, s, a)
  }

  lemma {:induction false} RunInv(c: Setup, states: seq<State>, k: nat)
    requires c.workers > 0 && IsRun(c, states) && k < |states|
    ensures Inv(c, states[k])
  {
    hide Inv, Enabled, Step;
    if k == 0 {
      InitialInv(c);
    } else {
      RunInv(c, states, k - 1);
      assert Follows(c, states[k - 1], states[k]);
      var a :| Enabled(c, states[k - 1], a) && states[k] == Step(c, states[k - 1], a);
      StepInv(c, states[k - 1], a);
    }
  }

  // ---------------------------------------------------------------------------------------------
  // Progress

  function WorkerWeight(w: Worker): nat {
    match w
    case Waiting => 1
    case Compressing(_) => 6
    case Sending(_) => 5
    case Exited => 0
  }

  function HandsWeight(ws: seq<Worker>): nat {
    if ws == [] then 0 else HandsWeight(ws[..|ws| - 1]) + WorkerWeight(ws[|ws| - 1])
  }

  /** What is left to do; each step leaves less. */
  function Remaining(c: Setup, s: State): nat
    requires s.sent <= |c.chunks|
  {
    7 * (|c.chunks| - s.sent) + One(s.reading) + 6 * |s.raw| + HandsWeight(s.workers) + 3 * |s.done| + |s.reorder| +
    (match s.main case Receiving => 1 case Draining => 2 case Stopped => 0)
  }

  lemma {:induction false} WeightUpdate(ws: seq<Worker>, i: nat, w: Worker)
    requires i < |ws|
    ensures HandsWeight(ws[i := w]) + WorkerWeight(ws[i]) == HandsWeight(ws) + WorkerWeight(w)
  {
    var l := |ws| - 1;
    if i < l {
      assert ws[i := w][..l] == ws[..l][i := w];
      WeightUpdate(ws[..l], i, w);
    } else {
      assert ws[i := w][..l] == ws[..l];
    }
  }

  lemma StepDecreases(c: Setup, s: State, a: Actor)
    requires Inv(c, s) && Enabled(c, s, a)
    ensures s.sent <= |c.chunks| && Step(c, s, a).sent <= |c.chunks|
    ensures Remaining(c, Step(c, s, a)) < Remaining(c, s)
  {
    StepPlaced(c, s, a);
    PlaceFacts(c, s);
    assert s.sent <= |c.chunks| && Step(c, s, a).sent <= |c.chunks|;
    hide Inv, Placed, Apply, HandsWeight, Remaining, MainStep, WorkerStep;
    match a
    case Reader => ReaderDecreases(c, s);
    case Worker(i) => WorkerDecreases(c, s, i);
    case Main => MainDecreases(c, s);
  }

  lemma ReaderDecreases(c: Setup, s: State)
    requires s.sent <= |c.chunks| && s.reading
    ensures ReaderStep(c, s).sent <= |c.chunks| && Remaining(c, ReaderStep(c, s)) < Remaining(c, s)
  {
    hide HandsWeight;
  }

  lemma WorkerDecreases(c: Setup, s: State, i: nat)
    requires s.sent <= |c.chunks| && Enabled(c, s, Worker(i))
    ensures WorkerStep(c, s, i).sent <= |c.chunks| && Remaining(c, WorkerStep(c, s, i)) < Remaining(c, s)
  {
    hide HandsWeight;
    WeightUpdate(s.workers, i, WorkerStep(c, s, i).workers[i]);
  }

  lemma MainDecreases(c: Setup, s: State)
    requires s.sent <= |c.chunks| && Enabled(c, s, Main)
    requires s.done != [] ==> s.done[0] !in s.reorder
    ensures MainStep(c, s).sent <= |c.chunks| && Remaining(c, MainStep(c, s)) < Remaining(c, s)
  {
    hide Apply, HandsWeight;
  }

  /** No reachable state is stuck: unless all threads have finished, some thread can move. */
  lemma NeverStuck(c: Setup, s: State) returns (a: Actor)
    requires Inv(c, s) && !Finished(s)
    ensures Enabled(c, s, a)
  {
    hide InOrder, Clean, Places;
    assert s.sent <= |c.chunks|;
    if Enabled(c, s, Main) {
      a := Main;
    } else if Enabled(c, s, Reader) {
      a := Reader;
    } else {
      var i: nat :| i < |s.workers| && !s.workers[i].Exited?;
      a := Worker(i);
    }
  }

  lemma {:induction false} RunLength(c: Setup, states: seq<State>, k: nat)
    requires c.workers > 0 && IsRun(c, states) && k < |states|
    ensures states[k].sent <= |c.chunks| && Remaining(c, states[k]) + k <= Remaining(c, Initial(c))
  {
    hide Inv, Enabled, Step, Remaining;
    if k > 0 {
      RunLength(c, states, k - 1);
      RunInv(c, states, k - 1);
      assert Follows(c, states[k - 1], states[k]);
      var a :| Enabled(c, states[k - 1], a) && states[k] == Step(c, states[k - 1], a);
      StepDecreases(c, states[k - 1], a);
    }
  }

  lemma {:induction false} InitialWeight(n: nat)
    ensures HandsWeight(seq(n, _ => Waiting)) == n
  {
    if n > 0 {
      assert seq(n, _ => Waiting)[..n - 1] == seq(n - 1, _ => Waiting);
      InitialWeight(n - 1);
    }
  }

  /**
   Progress. No run is longer than the work there is, and a run that cannot be continued has finished: also after
   a write error, when the dropped receiver makes every worker and the reader end.
   */
  lemma EveryRunEnds(c: Setup, states: seq<State>)
    requires c.workers > 0 && IsRun(c, states)
    ensures |states| <= 7 * |c.chunks| + c.workers + 3
    ensures (forall a {:trigger Enabled(c, states[|states| - 1], a)} :: !Enabled(c, states[|states| - 1], a)) ==>
      Finished(states[|states| - 1])
  {
    RunLength(c, states, |states| - 1);
    InitialWeight(c.workers);
    RunInv(c, states, |states| - 1);
    if !Finished(states[|states| - 1]) {
      var a := NeverStuck(c, states[|states| - 1]);
    }
  }

  // ---------------------------------------------------------------------------------------------
  // What a finished run has written

  /** How many chunks come before the first one with a number in `stops`. */
  ghost predicate FirstIn(stops: set<nat>, limit: nat, k: nat) {
    && k <= limit
    && (forall n: nat {:trigger n in stops} :: n < k ==> n !in stops)
    && (k < limit ==> k in stops)
  }

  /** Chunk `k` compresses and its write fails, and every chunk before it compresses and is written. */
  ghost predicate FirstWriteFails(c: Setup, k: nat) {
    k < |c.chunks| && k !in c.bad && FirstIn(c.bad + c.failing.Keys, |c.chunks|, k)
  }

  /**
   A finished run has written, in order, exactly the chunks before the first one that fails to compress or to be
   written: all of them if and only if none fails. It returns that write's error if it is a write that failed first,
   the reader's error if no write failed and the reader got past all chunks, and an error in no other case.
   */
  lemma FinishedRun(c: Setup, states: seq<State>)
    requires c.workers > 0 && IsRun(c, states) && Finished(states[|states| - 1])
    ensures var s := states[|states| - 1];
      && FirstIn(c.bad + c.failing.Keys, |c.chunks|, s.nextSeq)
      && s.writer == Run(c.cfg, c.start, WrittenOps(c.chunks[..s.nextSeq]))
      && (s.nextSeq == |c.chunks| <==>
          forall n: nat {:trigger n in c.bad} {:trigger n in c.failing} :: n < |c.chunks| ==>
            n !in c.bad && n !in c.failing)
      && s.nextSeq <= s.sent <= |c.chunks|
      && (forall k: nat {:trigger FirstWriteFails(c, k)} :: FirstWriteFails(c, k) ==>
          Outcome(c, s) == Err(c.failing[k]))
      && (Outcome(c, s).Err? <==>
          (exists k: nat {:trigger FirstWriteFails(c, k)} :: FirstWriteFails(c, k)) ||
          (c.readError.Some? && s.sent == |c.chunks|))
      && (Outcome(c, s).Err? && (forall k: nat {:trigger FirstWriteFails(c, k)} :: !FirstWriteFails(c, k)) ==>
          Outcome(c, s) == Err(c.readError.value))
  {
    var s := states[|states| - 1];
    RunInv(c, states, |states| - 1);
    FinishedState(c, s);
    hide IsRun, Run, Inv;
    forall k: nat {:trigger FirstWriteFails(c, k)} | FirstWriteFails(c, k)
      ensures k == s.nextSeq && s.writeError == Some(c.failing[k])
    {
      FirstIsUnique(c.bad + c.failing.Keys, |c.chunks|, s.nextSeq, k);
    }
  }

  /**
   If every chunk compresses, the result is right: success exactly if no write fails and reading ends without error,
   and then every chunk has been written.
   */
  lemma SuccessMeansWritten(c: Setup, states: seq<State>)
    requires c.workers > 0 && IsRun(c, states) && Finished(states[|states| - 1])
    requires forall n: nat {:trigger n in c.bad} :: n < |c.chunks| ==> n !in c.bad
    ensures var s := states[|states| - 1];
      && (Outcome(c, s).Ok? <==>
          c.readError.None? && forall n: nat {:trigger n in c.failing} :: n < |c.chunks| ==> n !in c.failing)
      && (Outcome(c, s).Ok? ==> s.writer == Run(c.cfg, c.start, WrittenOps(c.chunks)))
  {
    RunInv(c, states, |states| - 1);
    FinishedState(c, states[|states| - 1]);
    assert c.chunks[..|c.chunks|] == c.chunks;
    hide IsRun, Run, Inv;
  }

  lemma FirstIsUnique(stops: set<nat>, limit: nat, j: nat, k: nat)
    requires FirstIn(stops, limit, j) && FirstIn(stops, limit, k)
    ensures j == k
  {
  }

  lemma FinishedState(c: Setup, s: State)
    requires Inv(c, s) && Finished(s)
    ensures s.writer == Run(c.cfg, c.start, WrittenOps(c.chunks[..s.nextSeq]))
    ensures FirstIn(c.bad + c.failing.Keys, |c.chunks|, s.nextSeq) && s.nextSeq <= s.sent <= |c.chunks|
    ensures match s.writeError
      case Some(e) => FirstWriteFails(c, s.nextSeq) && e == c.failing[s.nextSeq]
      case None => FirstIn(c.bad, |c.chunks|, s.nextSeq)
  {
    NotTwice(c, s, s.sent);
    if s.writeError.None? && s.nextSeq < |c.chunks| { StoppedCleanly(c, s); }
    hide Placed, Run;
  }

  lemma {:induction false} QueueIn(q: seq<nat>, n: nat)
    ensures InQueue(q, n) > 0 <==> n in q
  {
    if q != [] { QueueIn(q[1..], n); }
  }

  lemma {:induction false} ExitedHoldNothing(ws: seq<Worker>, n: nat)
    requires AllExited(ws)
    ensures InHands(ws, n) == 0
  {
    if ws != [] { ExitedHoldNothing(ws[..|ws| - 1], n); }
  }

  /** Without a write error, the first chunk not written is one that did not compress. */
  lemma StoppedCleanly(c: Setup, s: State)
    requires Inv(c, s) && Finished(s) && s.writeError.None? && s.nextSeq < |c.chunks|
    ensures s.nextSeq in c.bad
  {
    assert s.workers[0].Exited?;
    NotTwice(c, s, s.nextSeq);
    ExitedHoldNothing(s.workers, s.nextSeq);
    QueueIn(s.raw, s.nextSeq);
    QueueIn(s.lost, s.nextSeq);
    if s.nextSeq !in s.lost && s.lost != [] {
      var n := s.lost[0];
      QueueHas(s.lost, 0);
      NotTwice(c, s, n);
      QueueIn(s.raw, n);
      if n >= s.sent - |s.raw| { RawHolds(s.raw, s.sent, n); }
    }
  }

  /** The first channel holds every sent chunk from its head on. */
  lemma RawHolds(raw: seq<nat>, sent: nat, n: nat)
    requires |raw| <= sent && sent - |raw| <= n < sent
    requires forall j {:trigger raw[j]} :: 0 <= j < |raw| ==> raw[j] == sent - |raw| + j
    ensures n in raw
  {
    assert raw[n - (sent - |raw|)] == n;
  }

  lemma ExtendRun(c: Setup, states: seq<State>, a: Actor)
    requires IsRun(c, states) && Enabled(c, states[|states| - 1], a)
    ensures IsRun(c, states + [Step(c, states[|states| - 1], a)])
  {
    var last := states[|states| - 1];
    assert Follows(c, last, Step(c, last, a));
    hide Follows, Step, Enabled;
    var more := states + [Step(c, last, a)];
    forall k {:trigger more[k]} | 0 < k < |more| ensures Follows(c, more[k - 1], more[k]) {
      if k < |states| { assert more[k] == states[k] && more[k - 1] == states[k - 1]; }
    }
  }

  /** The loss is silent: with one chunk that does not compress, a run ends with success and nothing written. */
  lemma SilentLoss(c: Setup) returns (states: seq<State>)
    requires c.workers == 1 && |c.chunks| == 1 && c.bad == {0} && c.readError.None?
    ensures IsRun(c, states) && Finished(states[|states| - 1])
    ensures Outcome(c, states[|states| - 1]) == Ok(()) && states[|states| - 1].writer == c.start
  {
    hide Apply, InQueue, InHands;
    var s0 := Initial(c);
    var s1 := s0.(raw := [0], sent := 1);
    var s2 := s1.(raw := [], workers := [Compressing(0)]);
    var s3 := s2.(workers := [Exited], lost := [0]);
    var s4 := s3.(reading := false);
    assert s0.workers == [Waiting] && s0.workers[0] == Waiting && s0.raw + [0] == [0];
    assert ReaderStep(c, s0) == s1;
    assert WorkerStep(c, s1, 0) == s2;
    assert WorkerStep(c, s2, 0) == s3;
    hide IsRun;
    states := [s0];
    StartRun(c);
    ExtendRun(c, states, Reader);
    states := states + [s1];
    ExtendRun(c, states, Worker(0));
    states := states + [s2];
    ExtendRun(c, states, Worker(0));
    states := states + [s3];
    ExtendRun(c, states, Reader);
    states := states + [s4];
    ExtendRun(c, states, Main);
    states := states + [s4.(main := Stopped)];
  }

  lemma StartRun(c: Setup)
    ensures IsRun(c, [Initial(c)])
  {
  }
}
