// The read-ahead ring's completion protocol: tokens, the job queue, quit, stop and restart, and the
// table sets, as interleaved atomic steps of the decoding goroutine, the workers and whoever calls stop
// (decoder50_parallel.go:155-256, 314-504). Pipeline.dfy proves what the jobs compute; here is
// why a slot's token is always the one its own job sent.

module WorkerProtocol {
  import opened Basics
  import R = Ring

  // Where the job in a slot stands.
  datatype Job = Free | Queued | Taken(w: nat) | Decoding(w: nat) | Sent | Lost

  // tokens is what the slot's done channel, of capacity one, holds.
  datatype Slot = Slot(job: Job, tokens: nat, waited: bool, tables: nat)

  datatype Worker = Idle | Took(i: nat) | Decodes(i: nat) | Exited

  datatype State = State(
    slots: seq<Slot>,
    head: nat,
    count: nat,
    inUse: seq<nat>,
    cur: nat,
    queue: seq<nat>,        // p.jobs
    workers: seq<Worker>,   // the current generation
    running: bool,
    fired: bool,            // quit is closed
    armed: bool             // start has been tried since quit was last renewed
  )

  datatype Action =
    | Engage(workers: nat)
    | Load(next: nat)
    | SubmitInline          // an oversize block: ready at once
    | SubmitQueue
    | SubmitClosed          // quit won the select
    | WaitToken
    | Pop
    | DrainQuit
    | Restart
    | Stop
    | Take(w: nat)
    | Check(w: nat)
    | Finish(w: nat)
    | Quit(w: nat)

  predicate AllExited(s: State) {
    forall w :: 0 <= w < |s.workers| ==> s.workers[w].Exited?
  }

  function Head(s: State): Slot
    requires s.head < |s.slots|
  {
    s.slots[s.head]
  }

  function Tail(s: State): nat {
    R.At(s.head, s.count, |s.slots|)
  }

  predicate Enabled(s: State, a: Action) {
    s.head < |s.slots| && s.cur < |s.inUse| && Tail(s) < |s.slots| &&
    match a
    case Engage(n) => s.count == 0 && n > 0
    case Load(next) => s.armed && s.count < |s.slots| && next < |s.inUse| && s.inUse[next] == 0
    case SubmitInline => s.armed && s.count < |s.slots|
    case SubmitQueue => s.armed && s.count < |s.slots| && |s.queue| < |s.slots|
    case SubmitClosed => s.armed && s.count < |s.slots| && s.fired
    case WaitToken => s.count > 0 && !Head(s).waited && Head(s).tokens > 0
    case Pop => s.count > 0 && Head(s).waited && Head(s).tables < |s.inUse| && s.inUse[Head(s).tables] > 0
    case DrainQuit =>
      s.count > 0 && !Head(s).waited && s.fired && AllExited(s) && Head(s).tables < |s.inUse| && s.inUse[Head(s).tables] > 0
    case Restart => !s.running && s.count == 0 && AllExited(s)
    case Stop => true
    case Take(w) => w < |s.workers| && s.workers[w].Idle? && s.queue != [] && s.queue[0] < |s.slots|
    case Check(w) => w < |s.workers| && s.workers[w].Took? && s.workers[w].i < |s.slots|
    case Finish(w) => w < |s.workers| && s.workers[w].Decodes? && s.workers[w].i < |s.slots|
    case Quit(w) => w < |s.workers| && s.workers[w].Idle? && s.fired
  }

  // readAhead's bookkeeping, and the job as submit leaves it.
  function Submitted(s: State, job: Job, tokens: nat): State
    requires s.head < |s.slots| && Tail(s) < |s.slots| && s.cur < |s.inUse|
  {
    s.(slots := s.slots[Tail(s) := Slot(job, s.slots[Tail(s)].tokens + tokens, s.slots[Tail(s)].waited, s.cur)],
       inUse := s.inUse[s.cur := s.inUse[s.cur] + 1], count := s.count + 1)
  }

  // pop, with the token count the slot is left with.
  function Popped(s: State, tokens: nat): State
    requires s.head < |s.slots| && s.count > 0 && Head(s).tables < |s.inUse| && s.inUse[Head(s).tables] > 0
  {
    var i := Head(s).tables;
    s.(slots := s.slots[s.head := Slot(Free, tokens, false, i)], inUse := s.inUse[i := s.inUse[i] - 1],
       head := R.At(s.head, 1, |s.slots|), count := s.count - 1)
  }

  function Put(s: State, i: nat, slot: Slot, w: nat, worker: Worker): State
    requires i < |s.slots| && w < |s.workers|
  {
    s.(slots := s.slots[i := slot], workers := s.workers[w := worker])
  }

  function Idlers(n: nat): (ws: seq<Worker>)
    ensures |ws| == n && forall w :: 0 <= w < n ==> ws[w].Idle?
  {
    seq(n, _ => Idle)
  }

  function Apply(s: State, a: Action): State
    requires Enabled(s, a)
  {
    match a
    case Engage(n) =>
      var s' := s.(head := 0, armed := true);
      if s.running || s.fired then s' else s'.(queue := [], workers := Idlers(n), running := true)
    case Load(next) => s.(cur := next)
    case SubmitInline => Submitted(s, Sent, 1)
    case SubmitQueue => Submitted(s, Queued, 0).(queue := s.queue + [Tail(s)])
    case SubmitClosed => Submitted(s, Sent, 1)
    case WaitToken => s.(slots := s.slots[s.head := Head(s).(tokens := Head(s).tokens - 1, waited := true)])
    case Pop => Popped(s, Head(s).tokens)
    case DrainQuit => Popped(s, if Head(s).tokens > 0 then Head(s).tokens - 1 else 0)
    case Restart => s.(queue := [], fired := false, armed := false)
    case Stop => s.(fired := true, running := false)
    case Take(w) =>
      var i := s.queue[0];
      Put(s, i, s.slots[i].(job := Taken(w)), w, Took(i)).(queue := s.queue[1..])
    case Check(w) =>
      var i := s.workers[w].i;
      if s.fired then Put(s, i, s.slots[i].(job := Lost), w, Exited)
      else Put(s, i, s.slots[i].(job := Decoding(w)), w, Decodes(i))
    case Finish(w) =>
      var i := s.workers[w].i;
      Put(s, i, s.slots[i].(job := Sent, tokens := s.slots[i].tokens + 1), w, Idle)
    case Quit(w) => s.(workers := s.workers[w := Exited])
  }

  // ---- The invariant.

  // How far behind the head slot i is.
  function Pos(head: nat, i: nat, r: nat): int {
    if i >= head then i - head else i - head + r
  }

  predicate SlotOk(slot: Slot) {
    match slot.job
    case Sent => slot.tokens == if slot.waited then 0 else 1
    case _ => slot.tokens == 0 && !slot.waited
  }

  // How many jobs in flight reference table set i.
  function Refs(slots: seq<Slot>, i: nat): nat {
    if slots == [] then 0
    else Refs(slots[..|slots| - 1], i) + Ref(slots[|slots| - 1], i)
  }

  function Ref(slot: Slot, i: nat): nat {
    if slot.job.Free? || slot.tables != i then 0 else 1
  }

  lemma {:induction false} RefsChanged(slots: seq<Slot>, k: nat, slot: Slot, i: nat)
    requires k < |slots|
    ensures Refs(slots[k := slot], i) == Refs(slots, i) - Ref(slots[k], i) + Ref(slot, i)
  {
    var n := |slots| - 1;
    if k < n {
      RefsChanged(slots[..n], k, slot, i);
      assert slots[k := slot][..n] == slots[..n][k := slot];
    } else {
      assert slots[k := slot][..n] == slots[..n];
    }
  }

  lemma {:induction false} RefsCount(slots: seq<Slot>, k: nat)
    requires k < |slots| && !slots[k].job.Free?
    ensures Refs(slots, slots[k].tables) > 0
  {
    var n := |slots| - 1;
    if k < n {
      RefsCount(slots[..n], k);
    }
  }

  ghost predicate RingOk(s: State) {
    && |s.slots| > 0 && s.head < |s.slots| && s.count <= |s.slots|
    && (forall i :: 0 <= i < |s.slots| ==> SlotOk(s.slots[i]) && (s.slots[i].job.Free? <==> Pos(s.head, i, |s.slots|) >= s.count))
  }

  ghost predicate SetsOk(s: State) {
    && |s.inUse| == |s.slots| + 1 && s.cur < |s.inUse|
    && (forall i :: 0 <= i < |s.slots| && !s.slots[i].job.Free? ==> s.slots[i].tables < |s.inUse|)
    && (forall i :: 0 <= i < |s.inUse| ==> s.inUse[i] == Refs(s.slots, i))
  }

  predicate WorkerOk(slots: seq<Slot>, worker: Worker, w: nat) {
    match worker
    case Took(i) => i < |slots| && slots[i].job == Taken(w)
    case Decodes(i) => i < |slots| && slots[i].job == Decoding(w)
    case _ => true
  }

  predicate JobOk(workers: seq<Worker>, job: Job, i: nat) {
    match job
    case Taken(w) => w < |workers| && workers[w] == Took(i)
    case Decoding(w) => w < |workers| && workers[w] == Decodes(i)
    case _ => true
  }

  ghost predicate WorkersOk(s: State) {
    && (forall w :: 0 <= w < |s.workers| ==> WorkerOk(s.slots, s.workers[w], w))
    && (forall i :: 0 <= i < |s.slots| ==> JobOk(s.workers, s.slots[i].job, i))
  }

  // While a worker is left to read it, the queue holds the queued jobs' slots, each once.
  ghost predicate QueueOk(s: State) {
    !AllExited(s) ==>
      && (forall x :: 0 <= x < |s.queue| ==> s.queue[x] < |s.slots| && s.slots[s.queue[x]].job.Queued?)
      && (forall x, y :: 0 <= x < y < |s.queue| ==> s.queue[x] != s.queue[y])
  }

  ghost predicate RunningOk(s: State) {
    && (s.running ==> !s.fired && s.workers != [])
    && (s.running ==> forall w :: 0 <= w < |s.workers| ==> !s.workers[w].Exited?)
    && (s.running ==> forall i :: 0 <= i < |s.slots| ==> !s.slots[i].job.Lost? && (s.slots[i].job.Queued? ==> i in s.queue))
    && (!s.running && !s.fired ==> AllExited(s) && s.count == 0 && !s.armed)
  }

  ghost predicate Inv(s: State) {
    RingOk(s) && SetsOk(s) && WorkersOk(s) && QueueOk(s) && RunningOk(s)
  }

  // newBlockPipeline.
  function Start(workers: nat): (s: State)
    requires workers > 0
  {
    State(seq(2 * workers, _ => Slot(Free, 0, false, 0)), 0, 0, seq(2 * workers + 1, _ => 0), 0, [], [], false, false, false)
  }

  // Starting, stopping and choosing a set; putting a job in the ring; waiting for one and taking it out;
  // and what a worker does.
  datatype Kind = Governs | Submits | Empties | Works

  function KindOf(a: Action): Kind {
    match a
    case SubmitInline => Submits case SubmitQueue => Submits case SubmitClosed => Submits
    case WaitToken => Empties case Pop => Empties case DrainQuit => Empties
    case Take(_) => Works case Check(_) => Works case Finish(_) => Works case Quit(_) => Works
    case _ => Governs
  }

  lemma {:induction false} GoverningKeepsRing(s: State, a: Action)
    requires RingOk(s) && WorkersOk(s) && QueueOk(s) && Enabled(s, a) && KindOf(a) == Governs
    ensures RingOk(Apply(s, a))
  {
  }

  lemma {:induction false} GoverningKeepsSets(s: State, a: Action)
    requires RingOk(s) && SetsOk(s) && WorkersOk(s) && QueueOk(s) && Enabled(s, a) && KindOf(a) == Governs
    ensures SetsOk(Apply(s, a))
  {
  }

  lemma {:induction false} GoverningKeepsWorkers(s: State, a: Action)
    requires RingOk(s) && WorkersOk(s) && QueueOk(s) && RunningOk(s) && Enabled(s, a) && KindOf(a) == Governs
    ensures WorkersOk(Apply(s, a))
  {
  }

  lemma {:induction false} GoverningKeepsQueue(s: State, a: Action)
    requires RingOk(s) && WorkersOk(s) && QueueOk(s) && RunningOk(s) && Enabled(s, a) && KindOf(a) == Governs
    ensures QueueOk(Apply(s, a))
  {
  }

  lemma {:induction false} GoverningKeepsRunning(s: State, a: Action)
    requires RingOk(s) && WorkersOk(s) && QueueOk(s) && RunningOk(s) && Enabled(s, a) && KindOf(a) == Governs
    ensures RunningOk(Apply(s, a))
  {
  }

  lemma {:induction false} SubmittingKeepsRing(s: State, a: Action)
    requires RingOk(s) && WorkersOk(s) && QueueOk(s) && Enabled(s, a) && KindOf(a) == Submits
    ensures RingOk(Apply(s, a))
  {
  }

  lemma {:induction false} SubmittingKeepsSets(s: State, a: Action)
    requires RingOk(s) && SetsOk(s) && WorkersOk(s) && QueueOk(s) && Enabled(s, a) && KindOf(a) == Submits
    ensures SetsOk(Apply(s, a))
  {
    var s' := Apply(s, a);
    forall i | 0 <= i < |s'.inUse| ensures s'.inUse[i] == Refs(s'.slots, i) {
      RefsChanged(s.slots, Tail(s), s'.slots[Tail(s)], i);
    }
  }

  lemma {:induction false} SubmittingKeepsWorkers(s: State, a: Action)
    requires RingOk(s) && WorkersOk(s) && QueueOk(s) && RunningOk(s) && Enabled(s, a) && KindOf(a) == Submits
    ensures WorkersOk(Apply(s, a))
  {
  }

  lemma {:induction false} SubmittingKeepsQueue(s: State, a: Action)
    requires RingOk(s) && WorkersOk(s) && QueueOk(s) && RunningOk(s) && Enabled(s, a) && KindOf(a) == Submits
    ensures QueueOk(Apply(s, a))
  {
  }

  lemma {:induction false} SubmittingKeepsRunning(s: State, a: Action)
    requires RingOk(s) && WorkersOk(s) && QueueOk(s) && RunningOk(s) && Enabled(s, a) && KindOf(a) == Submits
    ensures RunningOk(Apply(s, a))
  {
  }

  lemma {:induction false} EmptyingKeepsRing(s: State, a: Action)
    requires RingOk(s) && WorkersOk(s) && QueueOk(s) && Enabled(s, a) && KindOf(a) == Empties
    ensures RingOk(Apply(s, a))
  {
  }

  lemma {:induction false} EmptyingKeepsSets(s: State, a: Action)
    requires RingOk(s) && SetsOk(s) && WorkersOk(s) && QueueOk(s) && Enabled(s, a) && KindOf(a) == Empties
    ensures SetsOk(Apply(s, a))
  {
    var s' := Apply(s, a);
    forall i | 0 <= i < |s'.inUse| ensures s'.inUse[i] == Refs(s'.slots, i) {
      RefsChanged(s.slots, s.head, s'.slots[s.head], i);
    }
  }

  lemma {:induction false} EmptyingKeepsWorkers(s: State, a: Action)
    requires RingOk(s) && WorkersOk(s) && QueueOk(s) && RunningOk(s) && Enabled(s, a) && KindOf(a) == Empties
    ensures WorkersOk(Apply(s, a))
  {
  }

  lemma {:induction false} EmptyingKeepsQueue(s: State, a: Action)
    requires RingOk(s) && WorkersOk(s) && QueueOk(s) && RunningOk(s) && Enabled(s, a) && KindOf(a) == Empties
    ensures QueueOk(Apply(s, a))
  {
  }

  lemma {:induction false} EmptyingKeepsRunning(s: State, a: Action)
    requires RingOk(s) && WorkersOk(s) && QueueOk(s) && RunningOk(s) && Enabled(s, a) && KindOf(a) == Empties
    ensures RunningOk(Apply(s, a))
  {
  }

  lemma {:induction false} WorkingKeepsRing(s: State, a: Action)
    requires RingOk(s) && WorkersOk(s) && QueueOk(s) && Enabled(s, a) && KindOf(a) == Works
    ensures RingOk(Apply(s, a))
  {
  }

  lemma {:induction false} WorkingKeepsSets(s: State, a: Action)
    requires RingOk(s) && SetsOk(s) && WorkersOk(s) && QueueOk(s) && Enabled(s, a) && KindOf(a) == Works
    ensures SetsOk(Apply(s, a))
  {
    var s' := Apply(s, a);
    if !a.Quit? {
      var k := if a.Take? then s.queue[0] else s.workers[a.w].i;
      forall i | 0 <= i < |s'.inUse| ensures s'.inUse[i] == Refs(s'.slots, i) {
        RefsChanged(s.slots, k, s'.slots[k], i);
      }
    }
  }

  lemma {:induction false} WorkingKeepsWorkers(s: State, a: Action)
    requires RingOk(s) && WorkersOk(s) && QueueOk(s) && RunningOk(s) && Enabled(s, a) && KindOf(a) == Works
    ensures WorkersOk(Apply(s, a))
  {
  }

  lemma {:induction false} WorkingKeepsQueue(s: State, a: Action)
    requires WorkersOk(s) && QueueOk(s) && Enabled(s, a) && KindOf(a) == Works
    ensures QueueOk(Apply(s, a))
  {
    assert !s.workers[a.w].Exited?;
  }

  lemma {:induction false} WorkingKeepsRunning(s: State, a: Action)
    requires RingOk(s) && WorkersOk(s) && QueueOk(s) && RunningOk(s) && Enabled(s, a) && KindOf(a) == Works
    ensures RunningOk(Apply(s, a))
  {
  }

  lemma {:induction false} StepKeeps(s: State, a: Action)
    requires Inv(s) && Enabled(s, a)
    ensures Inv(Apply(s, a))
  {
    match KindOf(a)
    case Governs =>
      GoverningKeepsRing(s, a);
      GoverningKeepsSets(s, a);
      GoverningKeepsWorkers(s, a);
      GoverningKeepsQueue(s, a);
      GoverningKeepsRunning(s, a);
    case Submits =>
      SubmittingKeepsRing(s, a);
      SubmittingKeepsSets(s, a);
      SubmittingKeepsWorkers(s, a);
      SubmittingKeepsQueue(s, a);
      SubmittingKeepsRunning(s, a);
    case Empties =>
      EmptyingKeepsRing(s, a);
      EmptyingKeepsSets(s, a);
      EmptyingKeepsWorkers(s, a);
      EmptyingKeepsQueue(s, a);
      EmptyingKeepsRunning(s, a);
    case Works =>
      WorkingKeepsRing(s, a);
      WorkingKeepsSets(s, a);
      WorkingKeepsWorkers(s, a);
      WorkingKeepsQueue(s, a);
      WorkingKeepsRunning(s, a);
  }

  lemma {:induction false} NoRefs(slots: seq<Slot>, i: nat)
    requires forall k :: 0 <= k < |slots| ==> slots[k].job.Free?
    ensures Refs(slots, i) == 0
  {
    if slots != [] {
      NoRefs(slots[..|slots| - 1], i);
    }
  }

  lemma {:induction false} StartInv(workers: nat)
    requires workers > 0
    ensures Inv(Start(workers))
  {
    var s := Start(workers);
    forall i | 0 <= i < |s.inUse| ensures s.inUse[i] == Refs(s.slots, i) {
      NoRefs(s.slots, i);
    }
  }

  // ---- Runs: any interleaving of enabled steps.

  predicate Legal(s: State, run: seq<Action>)
    decreases |run|
  {
    run == [] || (Enabled(s, run[0]) && Legal(Apply(s, run[0]), run[1..]))
  }

  function End(s: State, run: seq<Action>): State
    requires Legal(s, run)
    decreases |run|
  {
    if run == [] then s else End(Apply(s, run[0]), run[1..])
  }

  lemma {:induction false} RunKeeps(s: State, run: seq<Action>)
    requires Inv(s) && Legal(s, run)
    ensures Inv(End(s, run))
    decreases |run|
  {
    if run != [] {
      StepKeeps(s, run[0]);
      RunKeeps(Apply(s, run[0]), run[1..]);
    }
  }

  function Referenced(slots: seq<Slot>): (r: set<nat>)
    ensures |r| <= |slots|
    ensures forall i :: i !in r ==> Refs(slots, i) == 0
  {
    if slots == [] then {} else Referenced(slots[..|slots| - 1]) + {slots[|slots| - 1].tables}
  }

  // Throughout every run: a slot's done channel holds at most one token, and none, with nothing waited
  // for, when the slot is next to be used; inUse counts the jobs in flight on each table set; some set
  // is free; and a set that may be loaded is one no job in flight references.
  lemma {:induction false} Throughout(workers: nat, run: seq<Action>) returns (free: nat)
    requires workers > 0 && Legal(Start(workers), run)
    ensures var s := End(Start(workers), run);
      && Inv(s)
      && (forall i :: 0 <= i < |s.slots| ==> s.slots[i].tokens <= 1)
      && (s.count < |s.slots| ==> Tail(s) < |s.slots| && s.slots[Tail(s)].job.Free? && s.slots[Tail(s)].tokens == 0 && !s.slots[Tail(s)].waited)
      && (forall i :: 0 <= i < |s.inUse| ==> s.inUse[i] == Refs(s.slots, i))
      && free < |s.inUse| && s.inUse[free] == 0
  {
    StartInv(workers);
    RunKeeps(Start(workers), run);
    var s := End(Start(workers), run);
    assert forall i :: 0 <= i < |s.slots| ==> SlotOk(s.slots[i]);
    free := FreeBelow(Referenced(s.slots), |s.inUse|);
  }

  lemma {:induction false} LoadsFreeSet(s: State, next: nat, i: nat)
    requires Inv(s) && Enabled(s, Load(next)) && i < |s.slots| && !s.slots[i].job.Free?
    ensures s.slots[i].tables != next
  {
    RefsCount(s.slots, i);
  }

  // A worker's send never blocks, and the decoding goroutine's own sends never do either: the channel
  // has room.
  lemma {:induction false} SendsNeverBlock(s: State, a: Action)
    requires Inv(s) && Enabled(s, a) && (a.Finish? || a.SubmitInline? || a.SubmitClosed?)
    ensures s.slots[if a.Finish? then s.workers[a.w].i else Tail(s)].tokens == 0
  {
    if a.Finish? {
      assert WorkerOk(s.slots, s.workers[a.w], a.w);
      assert SlotOk(s.slots[s.workers[a.w].i]);
    } else {
      assert SlotOk(s.slots[Tail(s)]);
    }
  }

  // The oldest job is never waited for in vain: its token is there, or quit has fired, or a worker has
  // a step to take.
  lemma {:induction false} WaitEnds(s: State) returns (a: Action)
    requires Inv(s) && s.armed && s.count > 0 && !Head(s).waited
    ensures s.fired || (Enabled(s, a) && (a == WaitToken || a.Take? || a.Check? || a.Finish?))
  {
    a := WaitToken;
    var i, job := s.head, Head(s).job;
    assert SlotOk(s.slots[i]) && JobOk(s.workers, job, i);
    if !s.fired {
      assert s.running;
      match job {
        case Taken(w) => a := Check(w);
        case Decoding(w) => a := Finish(w);
        case Queued =>
          assert !s.workers[0].Exited?;
          assert WorkerOk(s.slots, s.workers[0], 0);
          a := match s.workers[0] case Idle => Take(0) case Took(_) => Check(0) case Decodes(_) => Finish(0) case Exited => Stop;
        case _ =>
      }
    }
  }

  // After a stop every job in flight can be drained once the workers have exited, whether or not one
  // picked it up, and the table set it holds is released.
  lemma {:induction false} DrainEnds(s: State)
    requires Inv(s) && s.count > 0 && s.fired && AllExited(s)
    ensures Enabled(s, if Head(s).waited then Pop else DrainQuit)
    ensures Apply(s, if Head(s).waited then Pop else DrainQuit).count == s.count - 1
  {
    assert SlotOk(s.slots[s.head]);
    RefsCount(s.slots, s.head);
  }
}
