/**
 The multi-producer multi-consumer ring with two try-locks, one memory access at a time.

 Producers hold one lock and consumers the other, so each side reads the other side's
 counter while it may move. Any number of threads call Enqueue and Dequeue; every access to
 a lock, a counter or a slot is a step of its own.
 */
module MpmcRing {
  import opened Words

  /**
   Where a thread is. Counters are as read, wrapped to 32 bits. `seen` records, for the
   record only, how many items the ring held when the other side's counter was read.
   */
  datatype Pc =
    | Idle
    | EnqLocked(data: int)
    | EnqRead(data: int, enq: nat)
    | EnqCheck(data: int, enq: nat, deq: nat, seen: nat)
    | EnqWrite(data: int, enq: nat)
    | EnqLoad(data: int, id: nat)
    | EnqStore(data: int, id: nat, value: nat)
    | EnqUnlock(answer: Answer)
    | DeqLocked
    | DeqRead(enq: nat, seen: nat)
    | DeqCheck(enq: nat, deq: nat, seen: nat)
    | DeqCopy(deq: nat)
    | DeqLoad(data: int)
    | DeqStore(data: int, value: nat)
    | DeqUnlock(answer: Answer)
  {
    predicate Enqueuing() {
      EnqLocked? || EnqRead? || EnqCheck? || EnqWrite? || EnqLoad? || EnqStore? || EnqUnlock?
    }

    predicate Dequeuing() {
      !Idle? && !Enqueuing()
    }
  }

  datatype Call = Enqueue(data: int) | Dequeue

  /** Busy, Full and Empty return false; Added sets the request id, Took the data, and both return true. */
  datatype Answer = Busy | Full | Added(id: nat) | Empty | Took(data: int)

  datatype Return = Return(thread: nat, call: Call, answer: Answer)

  /**
   The shared memory, the threads, and the history: the items put in and taken out, the call
   that each thread last began, and the calls that have returned.
   */
  datatype State = State(
    enqueued: nat, dequeued: nat, eLock: bool, dLock: bool, queue: seq<int>,
    threads: seq<Pc>, sent: seq<int>, got: seq<int>, called: seq<Call>, returned: seq<Return>)
  {
    predicate WellFormed() {
      0 < |queue| < WRAP && enqueued < WRAP && dequeued < WRAP && |got| <= |sent| && |called| == |threads|
      && forall t :: 0 <= t < |threads| ==> ReadsOk(threads[t])
    }

    function At(t: nat, pc: Pc): (s: State)
      requires t < |threads|
    {
      this.(threads := threads[t := pc])
    }

    /** Thread t begins a call, holding its lock. */
    function Begin(t: nat, call: Call, pc: Pc): (s: State)
      requires t < |threads| == |called|
    {
      At(t, pc).(called := called[t := call])
    }

    /** Thread t returns from a call. */
    function End(t: nat, call: Call, answer: Answer): (s: State)
      requires t < |threads|
    {
      At(t, Idle).(returned := returned + [Return(t, call, answer)])
    }
  }

  predicate ReadsOk(pc: Pc) {
    && (pc.EnqCheck? ==> pc.enq < WRAP && pc.deq < WRAP)
    && (pc.EnqRead? ==> pc.enq < WRAP)
    && (pc.DeqRead? ==> pc.enq < WRAP)
    && (pc.DeqCheck? ==> pc.enq < WRAP && pc.deq < WRAP)
  }

  /** Thread t makes its next memory access; an idle thread starts `call`. */
  function Step(s: State, t: nat, call: Call): (s': State)
    requires s.WellFormed() && t < |s.threads|
  {
    if s.threads[t].Idle? then Start(s, t, call)
    else if s.threads[t].Enqueuing() then Produce(s, t)
    else Consume(s, t)
  }

  /** The try-lock of a call. */
  function Start(s: State, t: nat, call: Call): (s': State)
    requires s.WellFormed() && t < |s.threads|
  {
    match call
    case Enqueue(data) =>
      if s.eLock then s.End(t, call, Busy) else s.Begin(t, call, EnqLocked(data)).(eLock := true)
    case Dequeue =>
      if s.dLock then s.End(t, call, Busy) else s.Begin(t, call, DeqLocked).(dLock := true)
  }

  /** The next access of an Enqueue that holds the lock. */
  function Produce(s: State, t: nat): (s': State)
    requires s.WellFormed() && t < |s.threads| && s.threads[t].Enqueuing()
  {
    var m := |s.queue|;
    match s.threads[t]
    case EnqLocked(data) => s.At(t, EnqRead(data, s.enqueued))
    case EnqRead(data, enq) => s.At(t, EnqCheck(data, enq, s.dequeued, |s.sent| - |s.got|))
    case EnqCheck(data, enq, deq, seen) =>
      s.At(t, if Minus(enq, deq) >= m then EnqUnlock(Full) else EnqWrite(data, enq))
    case EnqWrite(data, enq) => s.At(t, EnqLoad(data, enq)).(queue := s.queue[enq % m := data])
    case EnqLoad(data, id) => s.At(t, EnqStore(data, id, s.enqueued))
    case EnqStore(data, id, value) =>
      s.At(t, EnqUnlock(Added(id))).(enqueued := (value + 1) % WRAP, sent := s.sent + [data])
    case EnqUnlock(answer) => s.End(t, s.called[t], answer).(eLock := false)
  }

  /** The next access of a Dequeue that holds the lock. */
  function Consume(s: State, t: nat): (s': State)
    requires s.WellFormed() && t < |s.threads| && s.threads[t].Dequeuing()
  {
    match s.threads[t]
    case DeqLocked => s.At(t, DeqRead(s.enqueued, |s.sent| - |s.got|))
    case DeqRead(enq, seen) => s.At(t, DeqCheck(enq, s.dequeued, seen))
    case DeqCheck(enq, deq, seen) => s.At(t, if Minus(enq, deq) == 0 then DeqUnlock(Empty) else DeqCopy(deq))
    case DeqCopy(deq) => s.At(t, DeqLoad(s.queue[deq % |s.queue|]))
    case DeqLoad(data) => s.At(t, DeqStore(data, s.dequeued))
    case DeqStore(data, value) =>
      s.At(t, DeqUnlock(Took(data))).(dequeued := (value + 1) % WRAP, got := s.got + [data])
    case DeqUnlock(answer) => s.End(t, s.called[t], answer).(dLock := false)
  }

  ghost predicate Init(s: State) {
    && 0 < |s.queue| < WRAP && s.enqueued == 0 && s.dequeued == 0 && !s.eLock && !s.dLock
    && s.sent == [] && s.got == [] && s.returned == [] && |s.called| == |s.threads|
    && forall t :: 0 <= t < |s.threads| ==> s.threads[t] == Idle
  }

  ghost predicate IsStep(s: State, s': State, t: nat, call: Call)
    requires s.WellFormed()
  {
    t < |s.threads| && s' == Step(s, t, call)
  }

  ghost predicate Next(s: State, s': State)
    requires s.WellFormed()
  {
    exists t: nat, call :: IsStep(s, s', t, call)
  }

  /** An initial state followed by accesses of arbitrary threads. */
  ghost predicate IsRun(run: seq<State>) {
    && 0 < |run|
    && if |run| == 1 then Init(run[0])
       else var n := |run| - 1;
            && IsRun(run[..n]) && run[n - 1].WellFormed()
            && Next(run[n - 1], run[n])
  }

  // --- The invariant -------------------------------------------------------------------

  /** What a producer inside its critical section knows. */
  ghost predicate ProducerOk(s: State, pc: Pc)
    requires s.WellFormed() && ReadsOk(pc)
  {
    var m, n := |s.queue|, |s.sent|;
    && (pc.EnqRead? || pc.EnqCheck? || pc.EnqWrite? ==> pc.enq == s.enqueued)
    && (pc.EnqCheck? ==> Minus(pc.enq, pc.deq) == pc.seen && n - |s.got| <= pc.seen <= m)
    && (pc.EnqWrite? ==> n - |s.got| < m)
    && (pc.EnqLoad? || pc.EnqStore? ==> n - |s.got| < m && s.queue[Slot(n, m)] == pc.data)
    && (pc.EnqLoad? || pc.EnqStore? ==> pc.id == s.enqueued)
    && (pc.EnqStore? ==> pc.value == s.enqueued)
  }

  /** What a consumer inside its critical section knows. */
  ghost predicate ConsumerOk(s: State, pc: Pc)
    requires s.WellFormed() && ReadsOk(pc)
  {
    var d := |s.got|;
    && (pc.DeqRead? ==> Minus(pc.enq, s.dequeued) == pc.seen && pc.seen <= |s.sent| - d)
    && (pc.DeqCheck? ==> pc.deq == s.dequeued && Minus(pc.enq, pc.deq) == pc.seen && pc.seen <= |s.sent| - d)
    && (pc.DeqCopy? ==> pc.deq == s.dequeued && d < |s.sent|)
    && (pc.DeqLoad? || pc.DeqStore? ==> d < |s.sent| && pc.data == s.sent[d])
    && (pc.DeqStore? ==> pc.value == s.dequeued)
  }

  /** A lock is set exactly while one thread is inside its critical section. */
  ghost predicate LocksOk(s: State) {
    && (s.eLock <==> exists t :: 0 <= t < |s.threads| && s.threads[t].Enqueuing())
    && (s.dLock <==> exists t :: 0 <= t < |s.threads| && s.threads[t].Dequeuing())
    && (forall t, u :: 0 <= t < u < |s.threads| ==> !(s.threads[t].Enqueuing() && s.threads[u].Enqueuing()))
    && (forall t, u :: 0 <= t < u < |s.threads| ==> !(s.threads[t].Dequeuing() && s.threads[u].Dequeuing()))
  }

  ghost predicate RingOk(s: State)
    requires s.WellFormed()
  {
    && |s.sent| - |s.got| <= |s.queue|
    && s.enqueued == |s.sent| % WRAP && s.dequeued == |s.got| % WRAP
    && s.got <= s.sent
    && forall i :: |s.got| <= i < |s.sent| ==> s.queue[Slot(i, |s.queue|)] == s.sent[i]
  }

  ghost predicate Inv(s: State) {
    && s.WellFormed() && LocksOk(s) && RingOk(s)
    && forall t :: 0 <= t < |s.threads| ==> ProducerOk(s, s.threads[t]) && ConsumerOk(s, s.threads[t])
  }

  /** The counter has not wrapped, or the wrap is invisible. */
  ghost predicate Legible(s: State)
    requires 0 < |s.queue|
  {
    Cyclic(|s.queue|, |s.sent| + 1)
  }

  /** A thread enters a critical section only through its lock and leaves it last. */
  lemma MoverLocks(s: State, t: nat, call: Call)
    requires s.WellFormed() && LocksOk(s) && t < |s.threads|
    ensures var s' := Step(s, t, call);
            && s'.threads == s.threads[t := s'.threads[t]]
            && (s'.threads[t].Enqueuing() && !s.threads[t].Enqueuing() ==> !s.eLock)
            && (s'.threads[t].Dequeuing() && !s.threads[t].Dequeuing() ==> !s.dLock)
            && s'.eLock == (if s.threads[t].Idle? then s.eLock || s'.threads[t].Enqueuing()
                            else s.eLock && !s.threads[t].EnqUnlock?)
            && s'.dLock == (if s.threads[t].Idle? then s.dLock || s'.threads[t].Dequeuing()
                            else s.dLock && !s.threads[t].DeqUnlock?)
            && (s.threads[t].EnqUnlock? || s.threads[t].DeqUnlock? ==> s'.threads[t].Idle?)
            && (!s.threads[t].Idle? ==>
                  && (s'.threads[t].Enqueuing() <==> s.threads[t].Enqueuing() && !s.threads[t].EnqUnlock?)
                  && (s'.threads[t].Dequeuing() <==> s.threads[t].Dequeuing() && !s.threads[t].DeqUnlock?))
  {
  }

  lemma Exclusive(s: State, t: nat, u: nat)
    requires LocksOk(s) && t < |s.threads| && u < |s.threads| && t != u
    ensures !(s.threads[t].Enqueuing() && s.threads[u].Enqueuing())
    ensures !(s.threads[t].Dequeuing() && s.threads[u].Dequeuing())
  {
    var a, b := if t < u then t else u, if t < u then u else t;
    assert !(s.threads[a].Enqueuing() && s.threads[b].Enqueuing());
    assert !(s.threads[a].Dequeuing() && s.threads[b].Dequeuing());
  }

  lemma LocksStep(s: State, t: nat, call: Call)
    requires s.WellFormed() && LocksOk(s) && t < |s.threads|
    ensures LocksOk(Step(s, t, call))
  {
    var s' := Step(s, t, call);
    MoverLocks(s, t, call);
    forall u | 0 <= u < |s'.threads|
      ensures s'.threads[u].Enqueuing() ==> s'.eLock
      ensures s'.threads[u].Dequeuing() ==> s'.dLock
    {
      if u != t {
        Exclusive(s, t, u);
      }
    }
    if s'.eLock && !s'.threads[t].Enqueuing() {
      var u :| 0 <= u < |s.threads| && s.threads[u].Enqueuing();
      assert s'.threads[u] == s.threads[u];
    }
    if s'.dLock && !s'.threads[t].Dequeuing() {
      var u :| 0 <= u < |s.threads| && s.threads[u].Dequeuing();
      assert s'.threads[u] == s.threads[u];
    }
    forall u, v | 0 <= u < v < |s'.threads|
      ensures !(s'.threads[u].Enqueuing() && s'.threads[v].Enqueuing())
      ensures !(s'.threads[u].Dequeuing() && s'.threads[v].Dequeuing())
    {
      Exclusive(s, u, v);
    }
  }

  lemma OnlyMover(s: State, t: nat, call: Call)
    requires s.WellFormed() && t < |s.threads|
    ensures var s' := Step(s, t, call);
            s'.threads == s.threads[t := s'.threads[t]]
  {
  }

  lemma OnlyMoverCalls(s: State, t: nat, call: Call)
    requires s.WellFormed() && t < |s.threads|
    ensures var s' := Step(s, t, call);
            s'.called == if s.threads[t].Idle? && !s'.threads[t].Idle? then s.called[t := call] else s.called
  {
  }

  lemma MoverReadsOk(s: State, t: nat, call: Call)
    requires s.WellFormed() && t < |s.threads|
    ensures ReadsOk(Step(s, t, call).threads[t])
  {
    assert ReadsOk(s.threads[t]);
  }

  lemma CountersStep(s: State, t: nat, call: Call)
    requires s.WellFormed() && t < |s.threads| && (s.threads[t].DeqStore? ==> |s.got| < |s.sent|)
    ensures var s' := Step(s, t, call); s'.enqueued < WRAP && s'.dequeued < WRAP && |s'.got| <= |s'.sent|
  {
  }

  lemma WellFormedStep(s: State, t: nat, call: Call)
    requires Inv(s) && t < |s.threads|
    ensures var s' := Step(s, t, call);
            s'.WellFormed() && |s'.queue| == |s.queue| && s'.threads == s.threads[t := s'.threads[t]]
  {
    assert ConsumerOk(s, s.threads[t]);
    OnlyMover(s, t, call);
    OnlyMoverCalls(s, t, call);
    MoverReadsOk(s, t, call);
    CountersStep(s, t, call);
    StepGrows(s, t, call);
  }

  /** Writing the next free slot disturbs no pending item. */
  lemma WriteKeepsItems(s: State, t: nat, call: Call)
    requires Inv(s) && t < |s.threads| && s.threads[t].EnqWrite? && Legible(s)
    ensures var s' := Step(s, t, call); s'.WellFormed() && RingOk(s')
    ensures Step(s, t, call).queue[Slot(|s.sent|, |s.queue|)] == s.threads[t].data
  {
    var m, n := |s.queue|, |s.sent|;
    WellFormedStep(s, t, call);
    assert ProducerOk(s, s.threads[t]);
    forall i | |s.got| <= i < n ensures Slot(i, m) != Slot(n, m) {
      SlotsDistinct(i, n, m);
    }
  }

  lemma StoreAddsItem(s: State, t: nat, call: Call)
    requires Inv(s) && t < |s.threads| && s.threads[t].EnqStore?
    ensures var s' := Step(s, t, call); s'.WellFormed() && RingOk(s')
  {
    WellFormedStep(s, t, call);
    assert ProducerOk(s, s.threads[t]);
    CountStep(|s.sent|);
  }

  lemma StoreTakesItem(s: State, t: nat, call: Call)
    requires Inv(s) && t < |s.threads| && s.threads[t].DeqStore?
    ensures var s' := Step(s, t, call); s'.WellFormed() && RingOk(s')
  {
    WellFormedStep(s, t, call);
    assert ConsumerOk(s, s.threads[t]);
    CountStep(|s.got|);
  }

  lemma RingStep(s: State, t: nat, call: Call)
    requires Inv(s) && t < |s.threads| && Legible(s)
    ensures var s' := Step(s, t, call); s'.WellFormed() && RingOk(s')
  {
    WellFormedStep(s, t, call);
    if s.threads[t].EnqWrite? {
      WriteKeepsItems(s, t, call);
    } else if s.threads[t].EnqStore? {
      StoreAddsItem(s, t, call);
    } else if s.threads[t].DeqStore? {
      StoreTakesItem(s, t, call);
    }
  }

  /** A producer that moves learns what its next program point claims. */
  lemma ProducerMoves(s: State, t: nat, call: Call)
    requires Inv(s) && t < |s.threads| && Legible(s) && (s.threads[t].Enqueuing() || s.threads[t].Idle?)
    ensures var s' := Step(s, t, call); s'.WellFormed() && ProducerOk(s', s'.threads[t]) && ConsumerOk(s', s'.threads[t])
  {
    WellFormedStep(s, t, call);
    assert ProducerOk(s, s.threads[t]);
    MinusIsDistance(|s.sent|, |s.got|);
    if s.threads[t].EnqWrite? {
      WriteKeepsItems(s, t, call);
    }
  }

  /** A consumer that moves learns what its next program point claims. */
  lemma ConsumerMoves(s: State, t: nat, call: Call)
    requires Inv(s) && t < |s.threads| && s.threads[t].Dequeuing()
    ensures var s' := Step(s, t, call); s'.WellFormed() && ProducerOk(s', s'.threads[t]) && ConsumerOk(s', s'.threads[t])
  {
    WellFormedStep(s, t, call);
    assert ConsumerOk(s, s.threads[t]);
    MinusIsDistance(|s.sent|, |s.got|);
  }

  /** The others keep what they know, because the locks keep the counters they rely on. */
  lemma OthersOk(s: State, t: nat, call: Call, u: nat)
    requires Inv(s) && t < |s.threads| && u < |s.threads| && u != t
    ensures var s' := Step(s, t, call);
            s'.WellFormed() && s'.threads[u] == s.threads[u]
            && ProducerOk(s', s.threads[u]) && ConsumerOk(s', s.threads[u])
  {
    WellFormedStep(s, t, call);
    assert ProducerOk(s, s.threads[u]) && ConsumerOk(s, s.threads[u]);
    assert ProducerOk(s, s.threads[t]) && ConsumerOk(s, s.threads[t]);
    Exclusive(s, t, u);
  }

  lemma InvStep(s: State, t: nat, call: Call)
    requires Inv(s) && t < |s.threads| && Legible(s)
    ensures Inv(Step(s, t, call))
  {
    var s' := Step(s, t, call);
    WellFormedStep(s, t, call);
    LocksStep(s, t, call);
    RingStep(s, t, call);
    forall u | 0 <= u < |s'.threads| ensures ProducerOk(s', s'.threads[u]) && ConsumerOk(s', s'.threads[u]) {
      if u == t {
        if s.threads[t].Dequeuing() {
          ConsumerMoves(s, t, call);
        } else {
          ProducerMoves(s, t, call);
        }
      } else {
        OthersOk(s, t, call, u);
      }
    }
  }

  lemma {:induction false} InvHolds(run: seq<State>)
    requires IsRun(run) && 0 < |run[|run| - 1].queue| && Legible(run[|run| - 1])
    ensures Inv(run[|run| - 1])
    decreases |run|
  {
    var n := |run| - 1;
    if n > 0 {
      var t: nat, call :| IsStep(run[n - 1], run[n], t, call);
      StepGrows(run[n - 1], t, call);
      InvHolds(run[..n]);
      InvStep(run[n - 1], t, call);
    }
  }

  lemma StepGrows(s: State, t: nat, call: Call)
    requires s.WellFormed() && t < |s.threads|
    ensures |s.sent| <= |Step(s, t, call).sent| && |s.queue| == |Step(s, t, call).queue|
  {
  }

  // --- What it means -----------------------------------------------------------------------

  /** Two threads are at the same slot, one writing and one reading or writing it. */
  ghost predicate SlotRace(s: State, t: nat, u: nat)
    requires 0 < |s.queue|
  {
    && t < |s.threads| && u < |s.threads| && t != u && s.threads[t].EnqWrite?
    && ((s.threads[u].DeqCopy? && s.threads[t].enq % |s.queue| == s.threads[u].deq % |s.queue|)
        || (s.threads[u].EnqWrite? && s.threads[t].enq % |s.queue| == s.threads[u].enq % |s.queue|))
  }

  lemma NoSlotRace(s: State, t: nat, u: nat)
    requires Inv(s) && Legible(s)
    ensures !SlotRace(s, t, u)
  {
    if t < |s.threads| && u < |s.threads| && t != u && s.threads[t].EnqWrite? {
      Exclusive(s, t, u);
      assert ProducerOk(s, s.threads[t]) && ConsumerOk(s, s.threads[u]);
      if s.threads[u].DeqCopy? {
        SlotsDistinct(|s.got|, |s.sent|, |s.queue|);
      }
    }
  }

  /**
   Under every interleaving of any number of threads: items come out in the order they went
   in, none lost or repeated; the ring never holds more than its depth although each side
   decides on a stale counter; a refusal was true when the counter was read; and no slot is
   written while another thread accesses it.
   */
  lemma SafeUnderInterleaving(run: seq<State>, s: State)
    requires IsRun(run) && s == run[|run| - 1] && 0 < |s.queue| && Legible(s)
    ensures s.got <= s.sent && |s.sent| - |s.got| <= |s.queue|
    ensures forall t :: 0 <= t < |s.threads| && ReadsOk(s.threads[t]) && s.threads[t].EnqCheck? ==>
              (Minus(s.threads[t].enq, s.threads[t].deq) >= |s.queue| <==> s.threads[t].seen == |s.queue|)
    ensures forall t :: 0 <= t < |s.threads| && ReadsOk(s.threads[t]) && s.threads[t].DeqCheck? ==>
              (Minus(s.threads[t].enq, s.threads[t].deq) == 0 <==> s.threads[t].seen == 0)
    ensures LocksOk(s) && forall t: nat, u: nat :: !SlotRace(s, t, u)
  {
    InvHolds(run);
    forall t | 0 <= t < |s.threads| ensures ProducerOk(s, s.threads[t]) && ConsumerOk(s, s.threads[t]) {
    }
    forall t: nat, u: nat ensures !SlotRace(s, t, u) {
      NoSlotRace(s, t, u);
    }
  }
}
