/**
 Calls of the two-lock ring that nobody disturbs, and what becomes of the ring when its counters
 wrap: items come out in order in all runs exactly when the depth divides 2^32.
 */
module MpmcAlone {
  import opened Words
  import opened MpmcRing

  /** P holds in every state that a step leads to from a state with P. */
  ghost predicate Closed(P: State -> bool) {
    forall s, t: nat, call :: P(s) && s.WellFormed() && t < |s.threads| ==> P(Step(s, t, call))
  }

  lemma Do(P: State -> bool, s: State, t: nat, call: Call, pc: Pc) returns (s': State)
    requires Closed(P) && P(s) && s.WellFormed() && t < |s.threads|
    requires Step(s, t, call) == s.At(t, pc) && ReadsOk(pc)
    ensures P(s') && s'.WellFormed() && s' == s.At(t, pc)
  {
    s' := Step(s, t, call);
  }

  /** The counters count the items, of which the ring holds no more than its depth. */
  ghost predicate Level(s: State) {
    && s.WellFormed() && |s.sent| - |s.got| <= |s.queue|
    && s.enqueued == |s.sent| % WRAP && s.dequeued == |s.got| % WRAP
  }

  /** What a call leaves as it is, but for its own lock. */
  predicate Others(s: State, s': State) {
    s'.threads == s.threads && s'.eLock == s.eLock && s'.dLock == s.dLock && |s'.queue| == |s.queue|
  }

  // --- Enqueue ---------------------------------------------------------------------------------

  /** With nobody else at work, Enqueue adds its item unless the ring is full. */
  lemma EnqueueAlone(P: State -> bool, s: State, t: nat, data: int) returns (s': State)
    requires Closed(P) && P(s) && Level(s) && t < |s.threads| && s.threads[t].Idle? && !s.eLock
    ensures P(s') && Level(s') && Others(s, s') && s'.got == s.got
    ensures s'.sent == if |s.sent| - |s.got| < |s.queue| then s.sent + [data] else s.sent
    ensures s'.queue == if |s.sent| - |s.got| < |s.queue| then s.queue[Slot(|s.sent|, |s.queue|) := data] else s.queue
    ensures s'.returned == s.returned + [Return(t, Enqueue(data), if |s.sent| - |s.got| < |s.queue| then Added(|s.sent| % WRAP) else Full)]
  {
    var full := |s.sent| - |s.got| >= |s.queue|;
    var s4 := EnqueueChecks(P, s, t, data);
    if full {
      s' := Step(s4, t, Enqueue(data));
    } else {
      s' := WriteAlone(P, s4, t, data);
      CountStep(|s.sent|);
    }
    assert s'.threads == s.threads;
  }

  lemma EnqueueChecks(P: State -> bool, s: State, t: nat, data: int) returns (s': State)
    requires Closed(P) && P(s) && Level(s) && t < |s.threads| && s.threads[t].Idle? && !s.eLock
    ensures P(s') && s'.WellFormed()
    ensures var pc := if |s.sent| - |s.got| >= |s.queue| then EnqUnlock(Full) else EnqWrite(data, s.enqueued);
            s' == s.Begin(t, Enqueue(data), pc).(eLock := true)
  {
    var call, enq, deq, n := Enqueue(data), s.enqueued, s.dequeued, |s.sent| - |s.got|;
    MinusIsDistance(|s.sent|, |s.got|);
    var s1 := Step(s, t, call);
    assert s1 == s.Begin(t, call, EnqLocked(data)).(eLock := true) && s1.WellFormed();
    var s2 := Do(P, s1, t, call, EnqRead(data, enq));
    var s3 := Do(P, s2, t, call, EnqCheck(data, enq, deq, n));
    s' := Do(P, s3, t, call, if n >= |s.queue| then EnqUnlock(Full) else EnqWrite(data, enq));
  }

  lemma WriteAlone(P: State -> bool, s: State, t: nat, data: int) returns (s': State)
    requires Closed(P) && P(s) && s.WellFormed() && t < |s.threads| && s.threads[t] == EnqWrite(data, s.enqueued)
    ensures P(s') && s'.WellFormed() && s'.enqueued == (s.enqueued + 1) % WRAP && s'.dequeued == s.dequeued
    ensures s'.threads == s.threads[t := Idle] && !s'.eLock && s'.dLock == s.dLock && s'.got == s.got
    ensures s'.queue == s.queue[s.enqueued % |s.queue| := data]
    ensures s'.sent == s.sent + [data] && s'.returned == s.returned + [Return(t, s.called[t], Added(s.enqueued))]
  {
    var call, enq := Enqueue(data), s.enqueued;
    var s1 := Step(s, t, call);
    assert s1 == s.At(t, EnqLoad(data, enq)).(queue := s.queue[enq % |s.queue| := data]) && s1.WellFormed();
    var s2 := Do(P, s1, t, call, EnqStore(data, enq, enq));
    s' := StoreAlone(P, s2, t, data);
  }

  lemma StoreAlone(P: State -> bool, s: State, t: nat, data: int) returns (s': State)
    requires Closed(P) && P(s) && s.WellFormed() && t < |s.threads| && s.threads[t] == EnqStore(data, s.enqueued, s.enqueued)
    ensures P(s') && s'.WellFormed() && s'.enqueued == (s.enqueued + 1) % WRAP && s'.dequeued == s.dequeued
    ensures s'.threads == s.threads[t := Idle] && !s'.eLock && s'.dLock == s.dLock && s'.got == s.got && s'.queue == s.queue
    ensures s'.sent == s.sent + [data] && s'.returned == s.returned + [Return(t, s.called[t], Added(s.enqueued))]
  {
    var enq := s.enqueued;
    var s1 := Step(s, t, Enqueue(data));
    assert s1 == s.At(t, EnqUnlock(Added(enq))).(enqueued := (enq + 1) % WRAP, sent := s.sent + [data]) && s1.WellFormed();
    s' := Step(s1, t, Enqueue(data));
  }

  // --- Dequeue ---------------------------------------------------------------------------------

  /** With nobody else at work, Dequeue takes what the slot of its count holds, unless the ring is empty. */
  lemma DequeueAlone(P: State -> bool, s: State, t: nat) returns (s': State)
    requires Closed(P) && P(s) && Level(s) && t < |s.threads| && s.threads[t].Idle? && !s.dLock
    ensures P(s') && Level(s') && Others(s, s') && s'.sent == s.sent && s'.queue == s.queue
    ensures var item := s.queue[Slot(|s.got|, |s.queue|)];
            && s'.got == (if |s.got| < |s.sent| then s.got + [item] else s.got)
            && s'.returned == s.returned + [Return(t, Dequeue, if |s.got| < |s.sent| then Took(item) else Empty)]
  {
    MinusIsDistance(|s.sent|, |s.got|);
    var empty := |s.sent| == |s.got|;
    var s4 := CheckAlone(P, s, t, empty);
    if empty {
      s' := Step(s4, t, Dequeue);
    } else {
      s' := CopyAlone(P, s4, t, s.queue[Slot(|s.got|, |s.queue|)]);
      CountStep(|s.got|);
    }
    assert s'.threads == s.threads;
  }

  /** While the wrap is invisible that is the oldest item. */
  lemma TakesTheOldest(s: State)
    requires Inv(s) && |s.got| < |s.sent|
    ensures Level(s) && s.queue[Slot(|s.got|, |s.queue|)] == s.sent[|s.got|]
  {
  }

  lemma CheckAlone(P: State -> bool, s: State, t: nat, empty: bool) returns (s': State)
    requires Closed(P) && P(s) && s.WellFormed() && t < |s.threads| && s.threads[t].Idle? && !s.dLock
    requires empty <==> Minus(s.enqueued, s.dequeued) == 0
    ensures P(s') && s'.WellFormed()
    ensures s' == s.Begin(t, Dequeue, if empty then DeqUnlock(Empty) else DeqCopy(s.dequeued)).(dLock := true)
  {
    var enq, deq, n := s.enqueued, s.dequeued, |s.sent| - |s.got|;
    var s1 := Step(s, t, Dequeue);
    assert s1 == s.Begin(t, Dequeue, DeqLocked).(dLock := true) && s1.WellFormed();
    var s2 := Do(P, s1, t, Dequeue, DeqRead(enq, n));
    var s3 := Do(P, s2, t, Dequeue, DeqCheck(enq, deq, n));
    s' := Do(P, s3, t, Dequeue, if empty then DeqUnlock(Empty) else DeqCopy(deq));
  }

  lemma CopyAlone(P: State -> bool, s: State, t: nat, data: int) returns (s': State)
    requires Closed(P) && P(s) && s.WellFormed() && t < |s.threads| && s.threads[t] == DeqCopy(s.dequeued)
    requires |s.got| < |s.sent| && s.queue[s.dequeued % |s.queue|] == data
    ensures P(s') && s'.WellFormed() && s'.dequeued == (s.dequeued + 1) % WRAP && s'.enqueued == s.enqueued
    ensures s'.threads == s.threads[t := Idle] && !s'.dLock && s'.eLock == s.eLock && s'.sent == s.sent && s'.queue == s.queue
    ensures s'.got == s.got + [data] && s'.returned == s.returned + [Return(t, s.called[t], Took(data))]
  {
    var s1 := Do(P, s, t, Dequeue, DeqLoad(data));
    var s2 := Do(P, s1, t, Dequeue, DeqStore(data, s.dequeued));
    var s3 := Step(s2, t, Dequeue);
    assert s3.WellFormed() && s3.threads[t] == DeqUnlock(Took(data));
    s' := Step(s3, t, Dequeue);
  }

  // --- Across the wrap -----------------------------------------------------------------------------

  /** One idle thread has sent the numbers from 0 on, n of them, and taken d items. */
  ghost predicate Counting(s: State, depth: nat, n: nat, d: nat) {
    && Level(s) && |s.queue| == depth && s.threads == [Idle] && !s.eLock && !s.dLock
    && |s.sent| == n && |s.got| == d && forall i :: 0 <= i < n ==> s.sent[i] == i
  }

  function OneThread(depth: nat): (s: State)
    requires 0 < depth < WRAP
  {
    State(0, 0, false, false, seq(depth, _ => 0), [Idle], [], [], [Dequeue], [])
  }

  lemma SendNext(P: State -> bool, s: State, depth: nat, n: nat, d: nat) returns (s': State)
    requires Closed(P) && P(s) && Counting(s, depth, n, d) && n - d < depth
    ensures P(s') && Counting(s', depth, n + 1, d) && s'.queue == s.queue[Slot(n, depth) := n]
  {
    s' := EnqueueAlone(P, s, 0, n);
  }

  /** n numbers have come and gone. */
  lemma {:induction false} SendAndTake(P: State -> bool, depth: nat, n: nat) returns (s: State)
    requires Closed(P) && 0 < depth < WRAP && P(OneThread(depth))
    ensures P(s) && Counting(s, depth, n, n)
    decreases n
  {
    if n == 0 {
      s := OneThread(depth);
    } else {
      s := SendAndTake(P, depth, n - 1);
      s := SendNext(P, s, depth, n - 1, n - 1);
      s := DequeueAlone(P, s, 0);
    }
  }

  /** Send up to the y-th number. */
  lemma {:induction false} SendUpTo(P: State -> bool, s: State, depth: nat, n: nat, d: nat, y: nat) returns (s': State)
    requires Closed(P) && P(s) && Counting(s, depth, n, d) && n <= y < d + depth
    ensures P(s') && Counting(s', depth, y + 1, d) && s'.queue[Slot(y, depth)] == y
    decreases y - n
  {
    s' := SendNext(P, s, depth, n, d);
    if n < y {
      s' := SendUpTo(P, s', depth, n + 1, d, y);
    }
  }

  /** Two numbers that are pending together share a slot, so the younger comes out first. */
  lemma ComesOutWrong(P: State -> bool, depth: nat, x: nat, y: nat) returns (s: State)
    requires Closed(P) && 0 < depth < WRAP && P(OneThread(depth)) && x < y < x + depth && Slot(x, depth) == Slot(y, depth)
    ensures P(s) && |s.queue| == depth && !(s.got <= s.sent)
  {
    s := SendAndTake(P, depth, x);
    s := SendUpTo(P, s, depth, x, x, y);
    s := DequeueAlone(P, s, 0);
    assert s.got[x] == y && s.sent[x] == x;
  }

  ghost predicate Reachable(s: State) {
    exists run :: IsRun(run) && run[|run| - 1] == s
  }

  lemma ReachableClosed(depth: nat) returns (P: State -> bool)
    requires 0 < depth < WRAP
    ensures Closed(P) && P(OneThread(depth)) && forall s :: P(s) <==> Reachable(s)
  {
    P := s => Reachable(s);
    assert IsRun([OneThread(depth)]);
    forall s, t: nat, call | P(s) && s.WellFormed() && t < |s.threads| ensures P(Step(s, t, call)) {
      var run :| IsRun(run) && run[|run| - 1] == s;
      assert (run + [Step(s, t, call)])[..|run|] == run;
      assert IsStep(s, Step(s, t, call), t, call);
      assert IsRun(run + [Step(s, t, call)]);
    }
  }

  /** In all runs of any number of threads items come out in order, none lost or repeated, iff the depth divides 2^32. */
  lemma InOrderIffDepthDivides(depth: nat)
    requires 0 < depth < WRAP
    ensures (forall s :: Reachable(s) && |s.queue| == depth ==> s.got <= s.sent) <==> WRAP % depth == 0
  {
    if WRAP % depth == 0 {
      forall s | Reachable(s) && |s.queue| == depth ensures s.got <= s.sent {
        var run :| IsRun(run) && run[|run| - 1] == s;
        SafeUnderInterleaving(run, s);
      }
    } else {
      var P := ReachableClosed(depth);
      WindowIsTight(depth, 0);
      var s := ComesOutWrong(P, depth, WRAP - Window(depth), WRAP);
    }
  }
}
