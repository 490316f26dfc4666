/**
 What the request protocol guarantees over whole runs.
 */
module ProtocolSafety {
  import opened Words
  import opened RequestMap
  import opened Protocol
  import opened ProtocolInvariant
  import opened ProtocolMatching
  import opened ProtocolDevice
  import opened ProtocolSteps
  import opened ProtocolWitness

  /** States in which the ids of different queues can be told apart: always, with enough buckets. */
  ghost predicate Legible(c: Config, s: State)
    requires c.Valid()
  {
    Reachable(c, s) && Apart(c, |s.sent|)
  }

  lemma ReachableClosed(c: Config) returns (P: State -> bool)
    requires c.Valid()
    ensures Closed(c, P) && P(Initial(c)) && forall s :: P(s) <==> Reachable(c, s)
  {
    P := s => Reachable(c, s);
    forall s, s' | P(s) && Next(c, s, s') ensures P(s') {
      ReachableStep(c, s, s');
    }
    assert IsRun(c, [Initial(c)]);
  }

  lemma NoMixup(c: Config, s: State)
    requires c.Valid() && Legible(c, s)
    ensures !Mixup(s)
  {
    ReachableInv(c, s);
    if s.server.Run? && s.HasHead(s.server.q) && ChecksKernel(s.Head(s.server.q)) && Hits(s) {
      var q := s.server.q;
      OwnCompletion(c, s);
      assert Owns(s, q, s.sent[Tok(s, q)]);
    }
  }

  /**
   A resumed request picks up its own kernel completion in every run if and only if there are no
   more client queues than consecutive ids with different buckets. Up to the wrap of the ids it is
   enough to have as many buckets as queues.
   */
  lemma MatchingIffEnoughBuckets(c: Config)
    requires c.Valid() && c.queues <= c.pages
    ensures (forall s :: Reachable(c, s) ==> !Mixup(s)) <==> c.queues <= Window(c.buckets)
    ensures (forall s :: Reachable(c, s) && |s.sent| <= WRAP ==> !Mixup(s)) <==> c.queues <= c.buckets
  {
    forall s | Legible(c, s) ensures !Mixup(s) {
      NoMixup(c, s);
    }
    var P := ReachableClosed(c);
    if Window(c.buckets) < c.queues {
      GroundAtWrap(c);
      var s := MixupRun(c, P, GroundOf(c));
    }
    if c.buckets < c.queues {
      GroundAtStart(c);
      var s := MixupRun(c, P, Ground(0, c.buckets));
    }
  }

  /** At most 2(Q - 1) kernel ids are issued after one that is still outstanding. */
  lemma IdsAfterOutstanding(c: Config, s: State, q: nat)
    requires c.Valid() && Legible(c, s) && q < c.queues && Waiting(s, q)
    ensures Tok(s, q) < |s.sent|
    ensures |s.sent| - 1 - Tok(s, q) <= 2 * (c.queues - 1)
  {
    ReachableInv(c, s);
    if Completed(s) <= Tok(s, q) {
      PendingAtMostQueues(c, s, Tok(s, q));
    }
  }

  lemma NeverSpins(c: Config, s: State)
    requires c.Valid() && Reachable(c, s)
    requires 2 * c.queues - 1 <= Window(c.buckets) || (2 * c.queues - 1 <= c.buckets && |s.sent| <= WRAP)
    ensures !Spins(s)
  {
    ReachableInv(c, s);
    if s.kernel.Post? {
      var y := s.taken - 1;
      var q := s.issuer[y];
      assert Completed(s) == y;
      assert Waiting(s, q) && Tok(s, q) == y && CompletionOk(c, s, q);
      var b := Slot(y, c.buckets);
      assert BucketOk(c, s, b);
      if s.cq[b] != INVALID {
        var x := s.mem[s.cq[b]].reqId;
        IdsAfterOutstanding(c, s, s.issuer[x]);
        FarApart(c, x, y, |s.sent|);
      }
    }
  }

  lemma FarApart(c: Config, x: nat, y: nat, n: nat)
    requires c.Valid() && x < y < n && y - x < 2 * c.queues - 1
    requires 2 * c.queues - 1 <= Window(c.buckets) || (2 * c.queues - 1 <= c.buckets && n <= WRAP)
    ensures Slot(x, c.buckets) != Slot(y, c.buckets)
  {
    if 2 * c.queues - 1 <= Window(c.buckets) {
      SlotsDistinctInWindow(x, y, c.buckets);
    } else {
      SlotsDistinct(x, y, c.buckets);
    }
  }

  /**
   The kernel worker never has to wait for a bucket, in every run, if and only if 2Q - 1
   consecutive ids always have different buckets, for Q client queues. Up to the wrap of the ids it
   is enough to have 2Q - 1 buckets.
   */
  lemma NeverSpinsIffEnoughBuckets(c: Config)
    requires c.Valid() && c.queues <= c.pages
    ensures (forall s :: Reachable(c, s) ==> !Spins(s)) <==> 2 * c.queues - 1 <= Window(c.buckets)
    ensures (forall s :: Reachable(c, s) && |s.sent| <= WRAP ==> !Spins(s)) <==> 2 * c.queues - 1 <= c.buckets
  {
    forall s | Reachable(c, s)
              && (2 * c.queues - 1 <= Window(c.buckets) || (2 * c.queues - 1 <= c.buckets && |s.sent| <= WRAP))
      ensures !Spins(s)
    {
      NeverSpins(c, s);
    }
    var P := ReachableClosed(c);
    if Window(c.buckets) < 2 * c.queues - 1 {
      GroundAtWrap(c);
      var s := SpinRun(c, P, GroundOf(c));
    }
    if c.buckets < 2 * c.queues - 1 {
      GroundAtStart(c);
      var s := SpinRun(c, P, Ground(0, c.buckets));
    }
  }

  /** So, with that many buckets, the kernel worker always has its next step, unless its ring is empty. */
  lemma KernelWorkerMoves(c: Config, s: State, polled: bool, submitted: bool)
    requires c.Valid() && Reachable(c, s)
    requires 2 * c.queues - 1 <= Window(c.buckets) || (2 * c.queues - 1 <= c.buckets && |s.sent| <= WRAP)
    ensures Enabled(c, s, KernelTake) <==> s.kernel.Idle? && s.taken < |s.sent|
    ensures Enabled(c, s, KernelRun(polled, submitted)) <==> s.kernel.Busy?
    ensures Enabled(c, s, KernelPost) <==> s.kernel.Post?
  {
    NeverSpins(c, s);
    KernelHoldsAPage(c, s);
    MovesUnlessItSpins(c, s, polled, submitted);
  }

  lemma MovesUnlessItSpins(c: Config, s: State, polled: bool, submitted: bool)
    requires Shape(c, s) && (!s.kernel.Idle? ==> s.kernel.page < |s.mem|)
    ensures Enabled(c, s, KernelTake) <==> s.kernel.Idle? && s.taken < |s.sent|
    ensures Enabled(c, s, KernelRun(polled, submitted)) <==> s.kernel.Busy?
    ensures Enabled(c, s, KernelPost) <==> s.kernel.Post? && !Spins(s)
  {
  }

  lemma KernelHoldsAPage(c: Config, s: State)
    requires c.Valid() && Legible(c, s)
    ensures Shape(c, s) && (!s.kernel.Idle? ==> s.kernel.page < |s.mem|)
  {
    ReachableInv(c, s);
    if !s.kernel.Idle? {
      var x := s.taken - 1;
      assert Completed(s) <= x;
      assert CompletionOk(c, s, s.issuer[x]);
    }
  }

  // --- Completions ---------------------------------------------------------------------

  lemma QueueInvHolds(c: Config, run: seq<State>)
    requires c.Valid() && IsRun(c, run)
    ensures QueueInv(c, run[|run| - 1])
  {
    forall s | Init(c, s) ensures QueueInv(c, s) {
      QueueInvInit(c, s);
    }
    forall s, s' | QueueInv(c, s) && Next(c, s, s') ensures QueueInv(c, s') {
      var step :| IsNext(c, s, s', step);
      QueueInvStep(c, s, s', step);
    }
    RunKeeps(c, s => QueueInv(c, s), run);
  }

  /**
   Whatever the modules, the kernel and the device do, the server completes the requests
   of a queue in the order in which the queue hands them out, each exactly once: all that were
   dequeued, and at most the one it is about to dequeue.
   */
  lemma CompletedOnceInOrder(c: Config, s: State, q: nat)
    requires c.Valid() && Reachable(c, s) && q < c.queues
    ensures |s.queues| == c.queues && InOrder(s.queues[q])
  {
    var run :| IsRun(c, run) && run[|run| - 1] == s;
    QueueInvHolds(c, run);
    assert QueueOk(s, q);
  }

  /** No request reaches its module with a code that the module does not know. */
  lemma NothingIgnored(c: Config, s: State)
    requires c.Valid() && Reachable(c, s)
    ensures !Enabled(c, s, ServerIgnore)
  {
    var run :| IsRun(c, run) && run[|run| - 1] == s;
    QueueInvHolds(c, run);
    assert QueueOk(s, s.server.q);
  }

  /** Such a request would be dequeued next, without a completion. */
  lemma IgnoredAreLost(c: Config, s: State, s': State)
    requires c.Valid() && IsNext(c, s, s', ServerIgnore)
    ensures Enabled(c, s', ServerDequeue)
    ensures var s'', q := Apply(c, s', ServerDequeue), s.server.q;
            && s''.queues == s.queues[q := s.queues[q].(dequeued := s.queues[q].dequeued + 1)]
            && s''.free == s.free && s''.sent == s.sent && s''.server.Peek? && s''.server.q == q
  {
  }

  /** A client I/O is completed only after the device has finished its kernel request. */
  lemma CompletedAfterDevice(c: Config, s: State, q: nat, k: nat)
    requires c.Valid() && Legible(c, s) && q < |s.queues|
    requires k in s.queues[q].done && k < |s.queues[q].rqs| && s.queues[q].rqs[k].kind == MqIo
    ensures (q, k) in s.ioDone
  {
    ReachableInv(c, s);
    CompletedOnceInOrder(c, s, q);
    assert DoneOk(s, q);
  }

  // --- Where a kernel request is ---------------------------------------------------------

  datatype Place = Free | Ring(id: nat) | Worker | Bucket(b: nat) | Server

  /** The server holds the page, or a client request keeps it until the interrupt. */
  ghost predicate HeldByServer(s: State, p: nat) {
    || ((s.server.Send? || s.server.Got? || s.server.Finish? || s.server.Release?) && s.server.page == p)
    || exists q: nat :: Parked(s, q) && s.Head(q).kernRq == p
  }

  ghost predicate At(s: State, p: nat, place: Place) {
    match place
    case Free => p in s.free
    case Ring(id) => s.taken <= id < |s.sent| && s.sent[id] == p
    case Worker => !s.kernel.Idle? && s.kernel.page == p
    case Bucket(b) => b < |s.cq| && s.cq[b] == p
    case Server => HeldByServer(s, p)
  }

  /** The queue that accounts for a page found anywhere but in the free pool. */
  lemma OwnerOf(c: Config, s: State, p: nat, place: Place) returns (q: nat)
    requires Inv(c, s) && At(s, p, place) && !place.Free?
    ensures q < c.queues && Owns(s, q, p)
    ensures place.Ring? ==> Waiting(s, q) && Tok(s, q) == place.id
    ensures place.Worker? ==> Waiting(s, q) && Tok(s, q) == s.taken - 1 >= Completed(s)
    ensures place.Bucket? ==> Waiting(s, q) && Tok(s, q) < Completed(s) && Slot(Tok(s, q), c.buckets) == place.b
    ensures place.Server? ==> !Waiting(s, q)
  {
    match place {
      case Ring(id) =>
        q := s.issuer[id];
      case Worker =>
        q := s.issuer[s.taken - 1];
      case Bucket(b) =>
        assert BucketOk(c, s, b);
        q := s.issuer[s.mem[p].reqId];
      case Server =>
        if (s.server.Send? || s.server.Got? || s.server.Finish? || s.server.Release?) && s.server.page == p {
          q := s.server.q;
        } else {
          q :| Parked(s, q) && s.Head(q).kernRq == p;
        }
    }
  }

  lemma SomePlace(c: Config, s: State, p: nat) returns (place: Place)
    requires Inv(c, s) && p < c.pages
    ensures At(s, p, place)
  {
    if p in s.free {
      return Free;
    }
    var q := s.owner[p].0;
    assert Owns(s, q, p);
    if Waiting(s, q) && s.sent[Tok(s, q)] == p {
      var x := Tok(s, q);
      assert CompletionOk(c, s, q);
      place := if x < Completed(s) then Bucket(Slot(x, c.buckets)) else if s.taken <= x then Ring(x) else Worker;
    } else {
      place := Server;
    }
  }

  /**
   In every run each kernel request page is in exactly one place: free, at one position of
   the kernel ring, with the kernel worker, in one bucket of the completion map, or with the
   server.
   */
  lemma ExactlyOnePlace(c: Config, s: State, p: nat)
    requires c.Valid() && Legible(c, s) && p < c.pages
    ensures exists place :: At(s, p, place)
    ensures forall a, b :: At(s, p, a) && At(s, p, b) ==> a == b
  {
    ReachableInv(c, s);
    var place := SomePlace(c, s, p);
    forall a, b | At(s, p, a) && At(s, p, b) ensures a == b {
      if !a.Free? && !b.Free? {
        var q := OwnerOf(c, s, p, a);
        var r := OwnerOf(c, s, p, b);
        PagesApart(c, s, q, r, p);
      } else if !a.Free? {
        var q := OwnerOf(c, s, p, a);
      } else if !b.Free? {
        var q := OwnerOf(c, s, p, b);
      }
    }
  }

  /** The page the server frees is nowhere else, so it is freed once and not under the device. */
  lemma FreedOnce(c: Config, s: State)
    requires c.Valid() && Legible(c, s) && s.server.Release?
    ensures s.server.page < c.pages && s.server.page !in s.inflight
    ensures forall place :: At(s, s.server.page, place) ==> place.Server?
  {
    ReachableInv(c, s);
    FreedIsIdle(c, s);
    assert Owns(s, s.server.q, s.server.page);
    ExactlyOnePlace(c, s, s.server.page);
    assert At(s, s.server.page, Server);
  }

  /** With a page for every queue the server never fails to allocate a kernel request. */
  lemma AllocationSucceeds(c: Config, s: State)
    requires c.Valid() && Legible(c, s) && c.queues <= c.pages
    requires s.server.Run? && s.HasHead(s.server.q) && s.Head(s.server.q).code == 0
    ensures s.free != {}
  {
    ReachableInv(c, s);
    if s.free == {} {
      var qs := seq(c.pages, p requires 0 <= p < c.pages => s.owner[p].0);
      var q := s.server.q;
      forall p: nat | p < c.pages ensures qs[p] < c.queues && qs[p] != q {
        assert Owns(s, s.owner[p].0, p);
      }
      DistinctBelow(qs + [q], c.queues);
    }
  }
}
