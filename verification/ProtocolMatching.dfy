/**
 The invariants that make bucket lookups find the right completion, and the bound on
 the ids issued while one is outstanding.
 */
module ProtocolMatching {
  import opened Words
  import opened RequestMap
  import opened Protocol
  import opened ProtocolInvariant

  /** Everything the protocol keeps while completions are matched correctly. */
  ghost predicate CoreInv(c: Config, s: State) {
    QueueInv(c, s) && RingInv(c, s) && MapInv(c, s) && PageInv(c, s) && OrderInv(c, s)
  }

  /** Among n ids those of different queues can be told apart: there are enough buckets, also across the wrap. */
  predicate Apart(c: Config, n: nat)
    requires c.Valid()
  {
    c.queues <= Window(c.buckets) || (c.queues <= c.buckets && n <= WRAP)
  }

  lemma SlotsApart(c: Config, x: nat, y: nat, n: nat)
    requires c.Valid() && Apart(c, n) && x < y < n && y < x + c.queues
    ensures Slot(x, c.buckets) != Slot(y, c.buckets)
  {
    if c.queues <= Window(c.buckets) {
      SlotsDistinctInWindow(x, y, c.buckets);
    } else {
      SlotsDistinct(x, y, c.buckets);
    }
  }

  // --- Counting --------------------------------------------------------------------

  /** Distinct numbers below n are at most n. */
  lemma {:induction false} DistinctBelow(xs: seq<nat>, n: nat)
    requires forall i :: 0 <= i < |xs| ==> xs[i] < n
    requires forall i, j :: 0 <= i < j < |xs| ==> xs[i] != xs[j]
    ensures |xs| <= n
    decreases n
  {
    if |xs| > 0 {
      var m := |xs| - 1;
      var last := xs[m];
      // Swap the value n - 1 out of the prefix, then drop the last place.
      var ys: seq<nat> := seq(m, i requires 0 <= i < m => if xs[i] == n - 1 then last else xs[i]);
      DistinctBelow(ys, n - 1);
    }
  }

  /** Ids the kernel has not completed are waited for by different queues. */
  lemma PendingAtMostQueues(c: Config, s: State, x: nat)
    requires IdInv(c, s) && Completed(s) <= x <= |s.sent|
    ensures |s.sent| - x <= c.queues
  {
    DistinctBelow(s.issuer[x..], c.queues);
  }

  lemma DistSame(c: Config, s: State, s': State, q: nat)
    requires Shape(c, s) && Shape(c, s') && s'.server.q == s.server.q && q < c.queues
    ensures Dist(c, s', q) == Dist(c, s, q)
  {
  }

  lemma DistAdvances(c: Config, s: State, s': State, q: nat)
    requires Shape(c, s) && Shape(c, s') && s'.server.q == c.After(s.server.q) && q < c.queues
    ensures Dist(c, s', q) == if q == s.server.q then c.queues - 1 else Dist(c, s, q) - 1
  {
  }

  /** The server stays at its queue or moves to the next one. */
  lemma ServerMoves(c: Config, s: State, s': State, step: Step)
    requires Shape(c, s) && IsNext(c, s, s', step)
    ensures s'.server.q == s.server.q || s'.server.q == c.After(s.server.q)
    ensures step.ServerSend? ==> s'.server.q == c.After(s.server.q)
    ensures |s'.sent| == |s.sent| + (if step.ServerSend? then 1 else 0)
  {
  }

  // --- Matching --------------------------------------------------------------------

  /**
   With at least as many buckets as queues, whatever the server finds under its token
   is the page it enqueued under that token.
   */
  lemma OwnCompletion(c: Config, s: State)
    requires CoreInv(c, s) && Apart(c, |s.sent|)
    requires Waiting(s, s.server.q) && Hits(s)
    ensures var y := Tok(s, s.server.q); y < Completed(s) && Lookup(s.cq, y) == s.sent[y]
  {
    var q := s.server.q;
    var y := Tok(s, q);
    var b := Slot(y, c.buckets);
    assert BucketOk(c, s, b) && CompletionOk(c, s, q);
    var x := s.mem[s.cq[b]].reqId;
    var p := s.issuer[x];
    if x < y {
      assert Waiting(s, p) && Tok(s, p) == x && Dist(c, s, q) == 0;
      assert y - x < c.queues;
      SlotsApart(c, x, y, |s.sent|);
    }
  }

  /** A check that finds nothing means the kernel has not completed the id. */
  lemma MissMeansPending(c: Config, s: State)
    requires MapInv(c, s) && Waiting(s, s.server.q) && !Hits(s)
    ensures Completed(s) <= Tok(s, s.server.q)
  {
    assert CompletionOk(c, s, s.server.q);
  }

  // --- Ids -------------------------------------------------------------------------

  lemma CompletedStep(c: Config, s: State, s': State, step: Step)
    requires Shape(c, s) && IsNext(c, s, s', step)
    ensures Completed(s') == Completed(s) + (if step.KernelPost? then 1 else 0)
    ensures step.KernelPost? ==> Completed(s) == s.taken - 1
    ensures step.ServerSend? || (s'.sent == s.sent && s'.issuer == s.issuer)
  {
  }

  lemma IdInvStep(c: Config, s: State, s': State, step: Step)
    requires CoreInv(c, s) && IsNext(c, s, s', step)
    requires Apart(c, |s.sent|)
    ensures IdInv(c, s')
  {
    ShapeStep(c, s, s', step);
    CompletedStep(c, s, s', step);
    if step.ServerSend? {
      WaitAfterSend(c, s, s');
    }
    if IsHit(c, s, step) {
      OwnCompletion(c, s);
      WaitAfterHit(c, s, s');
    }
    forall q: nat | q < c.queues && Waiting(s', q) ensures Tok(s', q) < |s'.sent| && s'.issuer[Tok(s', q)] == q {
      if q != s.server.q || !(step.ServerSend? || IsHit(c, s, step)) {
        WaitKept(c, s, s', step, q);
      }
    }
    forall x | Completed(s') <= x < |s'.sent|
      ensures s'.issuer[x] < c.queues && Waiting(s', s'.issuer[x]) && Tok(s', s'.issuer[x]) == x
    {
      if x < |s.sent| {
        var q := s.issuer[x];
        WaitKept(c, s, s', step, q);
      }
    }
  }

  // --- The kernel ring ---------------------------------------------------------------

  /** While the server holds a request, fewer than Q ids can be in the ring. */
  lemma RingHasRoom(c: Config, s: State)
    requires QueueInv(c, s) && IdInv(c, s) && s.server.Send?
    ensures |s.sent| - s.taken < c.queues
  {
    var ids := s.issuer[s.taken..];
    forall i | 0 <= i < |ids| ensures ids[i] < c.queues && ids[i] != s.server.q {
      assert Completed(s) <= s.taken + i && Waiting(s, s.issuer[s.taken + i]);
    }
    forall i, j | 0 <= i < j < |ids| ensures ids[i] != ids[j] {
      assert Tok(s, s.issuer[s.taken + i]) == s.taken + i && Tok(s, s.issuer[s.taken + j]) == s.taken + j;
    }
    DistinctBelow(ids + [s.server.q], c.queues);
  }

  /** A submission overwrites no request that the kernel worker has not taken. */
  lemma RingAfterSend(c: Config, s: State, s': State)
    requires CoreInv(c, s) && IsNext(c, s, s', ServerSend) && Apart(c, |s'.sent|)
    ensures RingInv(c, s')
  {
    ShapeStep(c, s, s', ServerSend);
    RingHasRoom(c, s);
    forall x: nat | s'.taken <= x < |s'.sent| ensures Lies(c, s', x) {
      if x < |s.sent| {
        assert Lies(c, s, x);
        SlotsApart(c, x, |s.sent|, |s'.sent|);
      }
    }
  }

  lemma RingInvStep(c: Config, s: State, s': State, step: Step)
    requires CoreInv(c, s) && IsNext(c, s, s', step) && Apart(c, |s'.sent|)
    ensures RingInv(c, s')
  {
    if step.ServerSend? {
      RingAfterSend(c, s, s');
    } else {
      ShapeStep(c, s, s', step);
      if step.KernelTake? {
        assert Lies(c, s, s.taken);
      }
      forall x: nat | s'.taken <= x < |s'.sent| ensures Lies(c, s', x) {
        assert Lies(c, s, x);
      }
    }
  }

  // --- Order and window ------------------------------------------------------------

  lemma OrderInvStep(c: Config, s: State, s': State, step: Step)
    requires CoreInv(c, s) && IsNext(c, s, s', step) && IdInv(c, s')
    ensures OrderInv(c, s')
  {
    ServerMoves(c, s, s', step);
    forall q: nat, p: nat | q < c.queues && p < c.queues && Waiting(s', q) && Waiting(s', p) && Tok(s', q) < Tok(s', p)
      ensures Tok(s', p) - Tok(s', q) < c.queues || Dist(c, s', q) < Dist(c, s', p)
    {
      OrderPairStep(c, s, s', step, q, p);
    }
  }

  lemma OrderPairStep(c: Config, s: State, s': State, step: Step, q: nat, p: nat)
    requires CoreInv(c, s) && IsNext(c, s, s', step) && IdInv(c, s')
    requires q < c.queues && p < c.queues && Waiting(s', q) && Waiting(s', p) && Tok(s', q) < Tok(s', p)
    ensures Tok(s', p) - Tok(s', q) < c.queues || Dist(c, s', q) < Dist(c, s', p)
  {
    ServerMoves(c, s, s', step);
    var cur := s.server.q;
    if s'.server.q == c.After(cur) {
      DistAdvances(c, s, s', q);
      DistAdvances(c, s, s', p);
    } else {
      DistSame(c, s, s', q);
      DistSame(c, s, s', p);
    }
    if step.ServerSend? {
      WaitAfterSend(c, s, s');
    }
    if IsHit(c, s, step) {
      WaitAfterHit(c, s, s');
    }
    if !(step.ServerSend? && cur == p) {
      WaitKept(c, s, s', step, q);
      WaitKept(c, s, s', step, p);
      if q == cur && s'.server.q != cur {
        StillWaiting(c, s, s', step);
        PendingAtMostQueues(c, s, Tok(s, q));
      }
    }
  }

  /** The server leaves a waiting queue only after a check that found nothing. */
  lemma StillWaiting(c: Config, s: State, s': State, step: Step)
    requires QueueInv(c, s) && MapInv(c, s) && IsNext(c, s, s', step) && !step.ServerSend?
    requires s'.server.q != s.server.q && Waiting(s, s.server.q)
    ensures Completed(s) <= Tok(s, s.server.q)
  {
    if step.ServerCheck? {
      MissMeansPending(c, s);
    }
  }

  lemma WindowInvStep(c: Config, s: State, s': State, step: Step)
    requires CoreInv(c, s) && WindowInv(c, s) && IsNext(c, s, s', step) && IdInv(c, s')
    ensures WindowInv(c, s')
  {
    forall q: nat | q < c.queues && Waiting(s', q) && Tok(s', q) < Completed(s')
      ensures |s'.sent| + Dist(c, s', q) < Tok(s', q) + 2 * c.queues
    {
      WindowQueueStep(c, s, s', step, q);
    }
  }

  lemma WindowQueueStep(c: Config, s: State, s': State, step: Step, q: nat)
    requires CoreInv(c, s) && WindowInv(c, s) && IsNext(c, s, s', step) && IdInv(c, s')
    requires q < c.queues && Waiting(s', q) && Tok(s', q) < Completed(s')
    ensures |s'.sent| + Dist(c, s', q) < Tok(s', q) + 2 * c.queues
  {
    ServerMoves(c, s, s', step);
    CompletedStep(c, s, s', step);
    if s'.server.q == c.After(s.server.q) {
      DistAdvances(c, s, s', q);
    } else {
      DistSame(c, s, s', q);
    }
    if IsHit(c, s, step) {
      WaitAfterHit(c, s, s');
    }
    if step.ServerSend? {
      WaitAfterSend(c, s, s');
    }
    WaitKept(c, s, s', step, q);
    if Tok(s, q) < Completed(s) {
      if q == s.server.q && s'.server.q != q {
        StillWaiting(c, s, s', step);
      }
    } else {
      PendingAtMostQueues(c, s, Tok(s, q));
    }
  }

  // --- The completion map ----------------------------------------------------------

  /** A waiting queue's page is its own: no other queue's page and not the server's. */
  lemma PagesApart(c: Config, s: State, q: nat, p: nat, page: nat)
    requires PageInv(c, s) && q < c.queues && p < c.queues && Owns(s, q, page) && Owns(s, p, page)
    ensures q == p
  {
  }

  lemma NotTheSame(c: Config, s: State, q: nat, p: nat, page: nat, other: nat)
    requires PageInv(c, s) && q < c.queues && p < c.queues && q != p && Owns(s, q, page) && Owns(s, p, other)
    ensures page != other
  {
  }

  /** Only a submission renumbers a page, and only the page in the server's hands. */
  lemma MemStep(c: Config, s: State, s': State, step: Step, page: nat)
    requires Shape(c, s) && IsNext(c, s, s', step) && page < |s.mem|
    requires step.ServerSend? ==> page != s.server.page
    ensures |s'.mem| == |s.mem| && s'.mem[page].reqId == s.mem[page].reqId
  {
  }

  lemma CompletionOkStep(c: Config, s: State, s': State, step: Step, q: nat)
    requires CoreInv(c, s) && IsNext(c, s, s', step) && IdInv(c, s')
    requires Apart(c, |s.sent|)
    requires q < c.queues && Waiting(s', q)
    ensures CompletionOk(c, s', q)
  {
    CompletedStep(c, s, s', step);
    if step.ServerSend? {
      WaitAfterSend(c, s, s');
      assert Owns(s, s.server.q, s.server.page);
    }
    if IsHit(c, s, step) {
      WaitAfterHit(c, s, s');
    }
    if !(step.ServerSend? && q == s.server.q) {
      WaitKept(c, s, s', step, q);
      assert CompletionOk(c, s, q);
      var x := Tok(s, q);
      assert Owns(s, q, s.sent[x]);
      if step.ServerSend? {
        NotTheSame(c, s, q, s.server.q, s.sent[x], s.server.page);
      }
      MemStep(c, s, s', step, s.sent[x]);
      if x < Completed(s') {
        CompletionKept(c, s, s', step, q);
      }
    }
  }

  /** A posted completion stays in its bucket until its own queue removes it. */
  lemma CompletionKept(c: Config, s: State, s': State, step: Step, q: nat)
    requires CoreInv(c, s) && IsNext(c, s, s', step) && Shape(c, s')
    requires Apart(c, |s.sent|)
    requires q < c.queues && Waiting(s, q) && (IsHit(c, s, step) ==> q != s.server.q)
    requires Tok(s, q) < Completed(s')
    ensures Lookup(s'.cq, Tok(s, q)) == s.sent[Tok(s, q)]
  {
    var x := Tok(s, q);
    assert CompletionOk(c, s, q);
    CompletedStep(c, s, s', step);
    if IsHit(c, s, step) {
      OwnCompletion(c, s);
      assert CompletionOk(c, s, s.server.q);
    } else if step.KernelPost? && x == Completed(s) {
      assert s.kernel.page == s.sent[x];
    }
  }

  lemma BucketOkStep(c: Config, s: State, s': State, step: Step, b: nat)
    requires CoreInv(c, s) && IsNext(c, s, s', step) && IdInv(c, s')
    requires Apart(c, |s.sent|)
    requires b < c.buckets
    ensures BucketOk(c, s', b)
  {
    CompletedStep(c, s, s', step);
    if step.KernelPost? {
      BucketAfterPost(c, s, s', b);
    } else if s'.cq[b] != INVALID {
      assert s'.cq[b] == s.cq[b];
      assert BucketOk(c, s, b);
      var page := s.cq[b];
      var x := s.mem[page].reqId;
      var q := s.issuer[x];
      assert Owns(s, q, page);
      if step.ServerSend? {
        assert Owns(s, s.server.q, s.server.page);
        WaitAfterSend(c, s, s');
      }
      MemStep(c, s, s', step, page);
      WaitKept(c, s, s', step, q);
    }
  }

  lemma BucketAfterPost(c: Config, s: State, s': State, b: nat)
    requires CoreInv(c, s) && IsNext(c, s, s', KernelPost) && IdInv(c, s') && b < c.buckets
    ensures BucketOk(c, s', b)
  {
    CompletedStep(c, s, s', KernelPost);
    var x := s.taken - 1;
    var q := s.issuer[x];
    assert Waiting(s, q) && Tok(s, q) == x && CompletionOk(c, s, q);
    WaitKept(c, s, s', KernelPost, q);
    if s'.cq[b] == s.cq[b] && s.cq[b] != INVALID {
      assert BucketOk(c, s, b);
      WaitKept(c, s, s', KernelPost, s.issuer[s.mem[s.cq[b]].reqId]);
    }
  }

  lemma MapInvStep(c: Config, s: State, s': State, step: Step)
    requires CoreInv(c, s) && IsNext(c, s, s', step) && IdInv(c, s')
    requires Apart(c, |s.sent|)
    ensures MapInv(c, s')
  {
    forall b | 0 <= b < c.buckets ensures BucketOk(c, s', b) {
      BucketOkStep(c, s, s', step, b);
    }
    forall q: nat | q < c.queues && Waiting(s', q) ensures CompletionOk(c, s', q) {
      CompletionOkStep(c, s, s', step, q);
    }
  }

  // --- Pages -----------------------------------------------------------------------

  /** A queue the server does not touch keeps its page. */
  lemma OwnsKept(c: Config, s: State, s': State, step: Step, q: nat, p: nat)
    requires QueueInv(c, s) && IdInv(c, s) && IsNext(c, s, s', step) && q < c.queues && q != s.server.q
    ensures Owns(s', q, p) <==> Owns(s, q, p)
    ensures Owns(s, q, p) ==> s'.queues[q].dequeued == s.queues[q].dequeued
  {
    assert QueueOk(s, q);
    WaitKept(c, s, s', step, q);
    CompletedStep(c, s, s', step);
    if !(step.ClientEnqueue? && step.q == q) {
      OtherQueues(c, s, s', step, q);
    }
  }

  /** Who owns page p after the step, for the queue the server is at. */
  ghost predicate OwnsAfter(s: State, s': State, step: Step, p: nat)
    requires s.server.q < |s.queues| == |s'.queues|
  {
    var q := s.server.q;
    && (Owns(s', q, p) <==>
          if step.ServerStart? then p == step.page else Owns(s, q, p) && !step.ServerFree?)
    && (Owns(s', q, p) ==> s'.queues[q].dequeued == s.queues[q].dequeued)
  }

  lemma OwnsElsewhere(c: Config, s: State, s': State, step: Step, p: nat)
    requires CoreInv(c, s) && IsNext(c, s, s', step) && s'.server == s.server
    ensures OwnsAfter(s, s', step, p)
  {
    assert QueueOk(s, s.server.q);
  }

  lemma OwnsLooking(c: Config, s: State, s': State, step: Step, p: nat)
    requires CoreInv(c, s) && IsNext(c, s, s', step)
    requires step.ServerVisit? || step.ServerPeek? || step.ServerParked? || step.ServerIgnore?
             || (step.ServerCheck? && !Hits(s))
    ensures OwnsAfter(s, s', step, p)
  {
    assert QueueOk(s, s.server.q);
  }

  lemma OwnsStarting(c: Config, s: State, s': State, step: Step, p: nat)
    requires CoreInv(c, s) && IsNext(c, s, s', step)
    requires step.ServerStart? || step.ServerComplete? || step.ServerFree? || step.ServerDequeue?
    ensures OwnsAfter(s, s', step, p)
  {
    assert QueueOk(s, s.server.q);
  }

  lemma OwnsTalking(c: Config, s: State, s': State, step: Step, p: nat)
    requires CoreInv(c, s) && IsNext(c, s, s', step)
    requires Apart(c, |s.sent|)
    requires step.ServerGot? || step.ServerSend? || IsHit(c, s, step)
    ensures OwnsAfter(s, s', step, p)
  {
    assert QueueOk(s, s.server.q);
    if IsHit(c, s, step) {
      OwnCompletion(c, s);
    }
  }

  lemma OwnsStep(c: Config, s: State, s': State, step: Step, q: nat, p: nat)
    requires CoreInv(c, s) && IsNext(c, s, s', step) && q < c.queues
    requires Apart(c, |s.sent|)
    ensures Owns(s', q, p) <==>
              if step.ServerStart? && q == s.server.q then p == step.page
              else Owns(s, q, p) && !(step.ServerFree? && q == s.server.q)
    ensures Owns(s', q, p) ==> s'.queues[q].dequeued == s.queues[q].dequeued
  {
    ShapeStep(c, s, s', step);
    if q != s.server.q {
      OwnsKept(c, s, s', step, q, p);
    } else if step.ServerGot? || step.ServerSend? || IsHit(c, s, step) {
      OwnsTalking(c, s, s', step, p);
    } else if step.ServerStart? || step.ServerComplete? || step.ServerFree? || step.ServerDequeue? {
      OwnsStarting(c, s, s', step, p);
    } else if s'.server == s.server {
      OwnsElsewhere(c, s, s', step, p);
    } else {
      OwnsLooking(c, s, s', step, p);
    }
  }

  lemma FreeStep(c: Config, s: State, s': State, step: Step)
    requires Shape(c, s) && IsNext(c, s, s', step)
    ensures s'.free == if step.ServerStart? then s.free - {step.page}
                       else if step.ServerFree? then s.free + {s.server.page} else s.free
    ensures s'.owner == if step.ServerStart? then s.owner[step.page := (s.server.q, s.queues[s.server.q].dequeued)]
                        else s.owner
    ensures step.ServerStart? ==> step.page in s.free
    ensures step.ServerFree? ==> Owns(s, s.server.q, s.server.page)
  {
  }

  lemma PageInvStep(c: Config, s: State, s': State, step: Step)
    requires CoreInv(c, s) && IsNext(c, s, s', step)
    requires Apart(c, |s.sent|)
    ensures PageInv(c, s')
  {
    ShapeStep(c, s, s', step);
    FreeStep(c, s, s', step);
    forall q: nat, p: nat | q < c.queues && Owns(s', q, p)
      ensures p < c.pages && p !in s'.free && s'.owner[p] == (q, s'.queues[q].dequeued)
    {
      OwnsStep(c, s, s', step, q, p);
    }
    forall p: nat | p < c.pages && p !in s'.free
      ensures s'.owner[p].0 < c.queues && Owns(s', s'.owner[p].0, p)
    {
      OwnsStep(c, s, s', step, s'.owner[p].0, p);
    }
  }
}
