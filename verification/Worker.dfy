/**
 The server worker as the program writes it: nested loops over the queues, and the two
 resumable modules it runs on the request at the head of a queue.

 Each method performs steps of the protocol on the shared memory `s`, and lets the clients,
 the kernel worker and the device make the steps of any schedule between any two of them. The
 worker gets stuck when it is out of pages, or finds the kernel ring full for the rest of the
 schedule; with enough buckets and pages for the queues it does not.
 */
module Worker {
  import opened Words
  import opened RequestMap
  import opened Protocol
  import opened ProtocolInvariant
  import opened ProtocolMatching
  import opened ProtocolDevice
  import opened ProtocolSafety
  import opened ProtocolSteps
  import ProtocolPolling

  predicate Sufficient(c: Config) {
    c.Valid() && c.queues <= Window(c.buckets) && c.queues <= c.pages
  }

  predicate ByOthers(step: Step) {
    step.ClientEnqueue? || step.KernelTake? || step.KernelRun? || step.KernelPost? || step.DeviceDone?
  }

  /** Any number of steps of clients, kernel worker and device. */
  ghost predicate OthersRun(c: Config, steps: seq<Step>, s: State, s': State)
    requires c.Valid()
  {
    if steps == [] then s' == s
    else exists mid {:trigger OthersRun(c, steps[..|steps| - 1], s, mid)} :: OthersRun(c, steps[..|steps| - 1], s, mid)
                       && ByOthers(steps[|steps| - 1]) && IsNext(c, mid, s', steps[|steps| - 1])
  }

  /** What the server can rely on across interference at the queue it works on. */
  ghost predicate Undisturbed(s: State, s': State) {
    var q := s.server.q;
    && s'.server == s.server && s'.sent == s.sent && s'.free == s.free && |s'.queues| == |s.queues|
    && s'.owner == s.owner && s'.issuer == s.issuer
    && (s.HasHead(q) ==> s'.HasHead(q) && s'.Head(q) == s.Head(q))
    && (q < |s.queues| ==>
          s'.queues[q].dequeued == s.queues[q].dequeued && s'.queues[q].done == s.queues[q].done)
  }

  lemma OtherStep(c: Config, s: State, s': State, step: Step)
    requires c.Valid() && ByOthers(step) && IsNext(c, s, s', step)
    ensures Undisturbed(s, s')
  {
  }

  /** Whatever the others do, the server's own state stays as it is, and so does a set that no step leaves. */
  lemma {:induction false} OthersUndisturbed(c: Config, P: State -> bool, steps: seq<Step>, s: State, s': State)
    requires Closed(c, P) && P(s) && OthersRun(c, steps, s, s')
    ensures Undisturbed(s, s') && P(s')
    decreases |steps|
  {
    if steps != [] {
      var n := |steps| - 1;
      var mid :| OthersRun(c, steps[..n], s, mid) && ByOthers(steps[n]) && IsNext(c, mid, s', steps[n]);
      OthersUndisturbed(c, P, steps[..n], s, mid);
      OtherStep(c, mid, s', steps[n]);
      assert Next(c, mid, s');
    }
  }

  lemma OthersRunOn(c: Config, steps: seq<Step>, s: State, mid: State, step: Step, s': State)
    requires c.Valid() && OthersRun(c, steps, s, mid) && ByOthers(step) && IsNext(c, mid, s', step)
    ensures OthersRun(c, steps + [step], s, s')
  {
    assert (steps + [step])[..|steps|] == steps;
  }

  /** A path of protocol steps. */
  ghost predicate IsPath(c: Config, path: seq<State>)
    requires c.Valid()
  {
    && 0 < |path|
    && (1 < |path| ==> IsPath(c, path[..|path| - 1]) && Next(c, path[|path| - 2], path[|path| - 1]))
  }

  ghost predicate LeadsTo(c: Config, s: State, s': State)
    requires c.Valid()
  {
    exists path :: IsPath(c, path) && path[0] == s && path[|path| - 1] == s'
  }

  lemma FollowersClosed(c: Config, s: State) returns (P: State -> bool)
    requires c.Valid()
    ensures Closed(c, P) && P(s) && forall t :: P(t) <==> LeadsTo(c, s, t)
  {
    P := t => LeadsTo(c, s, t);
    forall t, t' | P(t) && Next(c, t, t') ensures P(t') {
      var path :| IsPath(c, path) && path[0] == s && path[|path| - 1] == t;
      assert (path + [t'])[..|path|] == path;
      assert IsPath(c, path + [t']);
    }
    assert IsPath(c, [s]);
  }

  /** What the kernel worker finds at the x-th place of its ring is a page. */
  ghost predicate InRing(c: Config, s: State, x: nat)
    requires Shape(c, s)
  {
    s.ring[Slot(x, c.buckets)] < c.pages
  }

  /** Every page number anywhere is one of a page. */
  ghost predicate Bounded(c: Config, s: State) {
    && Shape(c, s)
    && (forall x: nat :: s.taken <= x < |s.sent| ==> InRing(c, s, x))
    && (forall b :: 0 <= b < |s.cq| ==> s.cq[b] < c.pages)
    && (forall p :: p in s.free ==> 0 <= p < c.pages)
    && (!s.kernel.Idle? ==> s.kernel.page < c.pages)
    && (s.server.Send? || s.server.Got? || s.server.Finish? || s.server.Release? ==> s.server.page < c.pages)
    && (forall q, k :: 0 <= q < |s.queues| && 0 <= k < |s.queues[q].rqs| && ChecksInterrupt(s.queues[q].rqs[k]) ==>
          s.queues[q].rqs[k].kernRq < c.pages)
  }

  /** The client requests keep their bound: only the head of the server's queue changes. */
  lemma RequestsBounded(c: Config, s: State, s': State, step: Step)
    requires QueueInv(c, s) && Bounded(c, s) && IsNext(c, s, s', step)
    ensures forall q, k :: 0 <= q < |s'.queues| && 0 <= k < |s'.queues[q].rqs| && ChecksInterrupt(s'.queues[q].rqs[k]) ==>
              s'.queues[q].rqs[k].kernRq < c.pages
  {
    forall q, k | 0 <= q < |s'.queues| && 0 <= k < |s'.queues[q].rqs| && ChecksInterrupt(s'.queues[q].rqs[k])
      ensures s'.queues[q].rqs[k].kernRq < c.pages
    {
      if k < |s.queues[q].rqs| && ChecksInterrupt(s.queues[q].rqs[k]) {
        assert s.queues[q].rqs[k].kernRq < c.pages;
      }
    }
  }

  lemma BoundedStep(c: Config, s: State, s': State, step: Step)
    requires QueueInv(c, s) && Bounded(c, s) && IsNext(c, s, s', step)
    ensures Bounded(c, s')
  {
    ShapeStep(c, s, s', step);
    RequestsBounded(c, s, s', step);
    if step.KernelTake? {
      assert InRing(c, s, s.taken);
    }
    forall x: nat | s'.taken <= x < |s'.sent| ensures InRing(c, s', x) {
      if x < |s.sent| {
        assert InRing(c, s, x);
      }
    }
  }

  lemma BoundedNext(c: Config, s: State, s': State)
    requires QueueInv(c, s) && Bounded(c, s) && Next(c, s, s')
    ensures Bounded(c, s')
  {
    var step :| IsNext(c, s, s', step);
    BoundedStep(c, s, s', step);
  }

  lemma {:induction false} BoundedHolds(c: Config, run: seq<State>)
    requires c.Valid() && IsRun(c, run)
    ensures Bounded(c, run[|run| - 1])
    decreases |run|
  {
    var n := |run| - 1;
    if n > 0 {
      BoundedHolds(c, run[..n]);
      QueueInvHolds(c, run[..n]);
      assert run[..n][n - 1] == run[n - 1];
      BoundedNext(c, run[n - 1], run[n]);
    }
  }

  /** What the program relies on without checking it. */
  ghost predicate Usable(c: Config, s: State) {
    var q := s.server.q;
    && c.Valid() && q < c.queues == |s.queues| && |s.ring| == c.buckets == |s.cq| && |s.mem| == |s.owner|
    && s.taken <= |s.sent| && s.queues[q].dequeued <= |s.queues[q].rqs|
    && (forall p :: p in s.free ==> 0 <= p < |s.mem|)
    && (!s.server.Visit? && !s.server.Peek? ==> s.HasHead(q))
    && (s.server.Run? && s.Head(q).code != 0 ==> ChecksKernel(s.Head(q)) || ChecksInterrupt(s.Head(q)))
    && (s.server.Run? && ChecksInterrupt(s.Head(q)) ==> s.Head(q).kernRq < |s.mem|)
    && (s.server.Send? || s.server.Got? ==> s.server.page < |s.mem|)
  }

  /** A page to allocate and a place in the kernel ring, whenever the server wants one. */
  ghost predicate Roomy(c: Config, s: State) {
    && (s.server.Run? && s.HasHead(s.server.q) && s.Head(s.server.q).code == 0 ==> s.free != {})
    && (s.server.Send? ==> |s.sent| - s.taken < c.buckets)
  }

  /** The I/O at the head of a queue is on the path that its submission chose. */
  ghost predicate OnPath(s: State, q: nat) {
    s.HasHead(q) && s.Head(q).kind == MqIo ==>
      && (s.Head(q).code == 2 ==> (q, s.queues[q].dequeued) in s.polls)
      && (s.Head(q).code == 3 ==> (q, s.queues[q].dequeued) !in s.polls)
  }

  ghost predicate AllOnPath(s: State) {
    forall q: nat :: OnPath(s, q)
  }

  lemma ReachableOnPath(c: Config, s: State)
    requires Sufficient(c) && Reachable(c, s)
    ensures AllOnPath(s)
  {
    assert Legible(c, s);
    forall q: nat ensures OnPath(s, q) {
      if s.HasHead(q) && s.Head(q).kind == MqIo {
        ProtocolPolling.PathIsTheSubmissions(c, s, q, s.queues[q].dequeued);
      }
    }
  }

  lemma ReachableUsable(c: Config, s: State)
    requires c.Valid() && Reachable(c, s)
    ensures Usable(c, s)
  {
    var run :| IsRun(c, run) && run[|run| - 1] == s;
    QueueInvHolds(c, run);
    BoundedHolds(c, run);
    assert QueueOk(s, s.server.q);
  }

  lemma ReachableRoomy(c: Config, s: State)
    requires Sufficient(c) && Reachable(c, s)
    ensures Roomy(c, s)
  {
    assert Legible(c, s);
    ReachableInv(c, s);
    if s.server.Run? && s.HasHead(s.server.q) && s.Head(s.server.q).code == 0 {
      AllocationSucceeds(c, s);
    }
    if s.server.Send? {
      RingHasRoom(c, s);
    }
  }

  lemma {:induction false} PathKeeps(c: Config, P: State -> bool, path: seq<State>)
    requires Closed(c, P) && IsPath(c, path) && P(path[0])
    ensures P(path[|path| - 1])
    decreases |path|
  {
    if 1 < |path| {
      PathKeeps(c, P, path[..|path| - 1]);
    }
  }

  lemma FollowersUsable(c: Config, s: State, t: State)
    requires c.Valid() && Reachable(c, s) && LeadsTo(c, s, t)
    ensures Usable(c, t) && (Sufficient(c) ==> Roomy(c, t) && AllOnPath(t))
  {
    ReachableFollower(c, s, t);
    ReachableUsable(c, t);
    if Sufficient(c) {
      ReachableRoomy(c, t);
      ReachableOnPath(c, t);
    }
  }

  lemma VisitIsStep(c: Config, s: State, depth: nat)
    requires Usable(c, s) && s.server.Visit?
    requires depth == |s.queues[s.server.q].rqs| - s.queues[s.server.q].dequeued
    ensures IsNext(c, s, s.(server := Peek(s.server.q, depth)), ServerVisit)
  {
  }

  lemma DequeueIsStep(c: Config, s: State, cl: ClientQueue)
    requires Usable(c, s) && s.server.Drop? && 0 < s.server.left
    requires cl == s.queues[s.server.q]
    ensures IsNext(c, s, s.(queues := s.queues[s.server.q := cl.(dequeued := cl.dequeued + 1)],
                            server := Peek(s.server.q, s.server.left - 1)), ServerDequeue)
  {
  }

  // --- What a round does for every queue ---------------------------------------------------

  /** Queue q has got past its d-th request, or that request is at its head. */
  ghost predicate Pending(s: State, q: nat, d: nat) {
    q < |s.queues| && (d < s.queues[q].dequeued || (s.queues[q].dequeued == d && s.HasHead(q)))
  }

  /** The d-th request of queue q was dequeued, or a module has begun to process it. */
  ghost predicate Started(s: State, q: nat, d: nat) {
    && Pending(s, q, d)
    && (s.queues[q].dequeued == d ==>
          || s.Head(q).code != 0
          || (s.server.q == q && (s.server.Finish? || s.server.Release? || s.server.Drop?)))
  }

  lemma PendingNext(c: Config, s: State, s': State, q: nat, d: nat)
    requires c.Valid() && Next(c, s, s') && Pending(s, q, d)
    ensures Pending(s', q, d)
  {
  }

  lemma StartedElsewhere(c: Config, s: State, s': State, step: Step, q: nat, d: nat)
    requires QueueInv(c, s) && IsNext(c, s, s', step) && Started(s, q, d)
    requires q != s.server.q || ByOthers(step)
    ensures Started(s', q, d)
  {
  }

  lemma StartedHere(c: Config, s: State, s': State, step: Step, d: nat)
    requires QueueInv(c, s) && IsNext(c, s, s', step) && Started(s, s.server.q, d) && !ByOthers(step)
    ensures Started(s', s.server.q, d)
  {
  }

  lemma StartedNext(c: Config, s: State, s': State, q: nat, d: nat)
    requires c.Valid() && QueueInv(c, s) && Next(c, s, s') && Started(s, q, d)
    ensures Started(s', q, d)
  {
    var step :| IsNext(c, s, s', step);
    if q != s.server.q || ByOthers(step) {
      StartedElsewhere(c, s, s', step, q, d);
    } else {
      StartedHere(c, s, s', step, d);
    }
  }

  lemma PendingKept(c: Config, s: State, s': State, q: nat, d: nat)
    requires c.Valid() && LeadsTo(c, s, s') && Pending(s, q, d)
    ensures Pending(s', q, d)
  {
    var P := t => Pending(t, q, d);
    forall t, t' | P(t) && Next(c, t, t') ensures P(t') {
      PendingNext(c, t, t', q, d);
    }
    var path :| IsPath(c, path) && path[0] == s && path[|path| - 1] == s';
    PathKeeps(c, P, path);
  }

  /** A request that was started is not forgotten. */
  lemma StartedKept(c: Config, s: State, s': State, q: nat, d: nat)
    requires c.Valid() && Reachable(c, s) && LeadsTo(c, s, s') && Started(s, q, d)
    ensures Started(s', q, d)
  {
    var P := t => Reachable(c, t) && Started(t, q, d);
    forall t, t' | P(t) && Next(c, t, t') ensures P(t') {
      ReachableStep(c, t, t');
      ReachableQueueInv(c, t);
      StartedNext(c, t, t', q, d);
    }
    var path :| IsPath(c, path) && path[0] == s && path[|path| - 1] == s';
    PathKeeps(c, P, path);
  }

  lemma ReachableQueueInv(c: Config, s: State)
    requires c.Valid() && Reachable(c, s)
    ensures QueueInv(c, s)
  {
    var run :| IsRun(c, run) && run[|run| - 1] == s;
    QueueInvHolds(c, run);
  }

  lemma ReachableFollower(c: Config, s: State, s': State)
    requires c.Valid() && Reachable(c, s) && LeadsTo(c, s, s')
    ensures Reachable(c, s')
  {
    var P := ReachableClosed(c);
    var path :| IsPath(c, path) && path[0] == s && path[|path| - 1] == s';
    PathKeeps(c, P, path);
  }

  /** A visit got past the head of the queue or started it. */
  ghost predicate Attended(s: State, s': State, q: nat) {
    && q < |s.queues| && q < |s'.queues|
    && (s.HasHead(q) ==>
          s.queues[q].dequeued < s'.queues[q].dequeued || (s'.HasHead(q) && s'.Head(q).code != 0))
  }

  lemma AttendedIsStarted(c: Config, start: State, before: State, s: State, q: nat)
    requires c.Valid() && Reachable(c, before) && LeadsTo(c, start, before) && LeadsTo(c, before, s)
    requires Attended(before, s, q) && start.HasHead(q)
    ensures Started(s, q, start.queues[q].dequeued)
  {
    var d := start.queues[q].dequeued;
    PendingKept(c, start, before, q, d);
    if d < before.queues[q].dequeued {
      StartedKept(c, before, s, q, d);
    } else {
      PendingKept(c, before, s, q, d);
    }
  }

  /** Visiting queue i adds it to the queues whose head was started since `start`. */
  lemma RoundSoFar(c: Config, start: State, before: State, s: State, i: nat)
    requires c.Valid() && Reachable(c, start) && LeadsTo(c, start, before) && LeadsTo(c, before, s)
    requires forall q: nat :: q < i && start.HasHead(q) ==> Started(before, q, start.queues[q].dequeued)
    requires Attended(before, s, i)
    ensures forall q: nat :: q <= i && start.HasHead(q) ==> Started(s, q, start.queues[q].dequeued)
  {
    ReachableFollower(c, start, before);
    forall q: nat | q <= i && start.HasHead(q) ensures Started(s, q, start.queues[q].dequeued) {
      if q < i {
        StartedKept(c, before, s, q, start.queues[q].dequeued);
      } else {
        AttendedIsStarted(c, start, before, s, i);
      }
    }
  }

  /** Only the part of P that comes after s. */
  lemma Narrowed(c: Config, P: State -> bool, s: State) returns (N: State -> bool)
    requires Closed(c, P) && P(s)
    ensures Closed(c, N) && N(s) && forall t :: N(t) ==> P(t) && LeadsTo(c, s, t)
  {
    var F := FollowersClosed(c, s);
    N := t => P(t) && F(t);
    forall t, t' | N(t) && Next(c, t, t') ensures N(t') {
    }
  }

  class ServerWorker {
    const c: Config
    var s: State
    /** What the others try to do, each time the server lets them. */
    var others: seq<seq<Step>>

    constructor (c: Config, s: State, others: seq<seq<Step>>)
      requires c.Valid() && Init(c, s)
      ensures Reachable(c, s) && this.c == c && this.s == s && this.others == others
    {
      this.c, this.s, this.others := c, s, others;
      new;
      assert IsRun(c, [s]);
    }

    /** The shared memory is in some set P of usable states that the protocol's steps do not leave. */
    ghost predicate Ready(P: State -> bool)
      reads this
    {
      Closed(c, P) && P(s) && forall t :: P(t) ==> Usable(c, t) && (Sufficient(c) ==> Roomy(c, t) && AllOnPath(t))
    }

    /** Clients, kernel worker and device make the steps they are scheduled for, as far as they can. */
    method Interfere(ghost P: State -> bool)
      requires Ready(P)
      modifies this
      ensures Ready(P) && Undisturbed(old(s), s) && (others == [] || |others| < |old(others)|)
      ensures exists steps :: OthersRun(c, steps, old(s), s)
    {
      ghost var start, made: seq<Step> := s, [];
      if others != [] {
        var batch := others[0];
        others := others[1..];
        for k := 0 to |batch|
          invariant Closed(c, P) && OthersRun(c, made, start, s)
          invariant others == old(others)[1..]
        {
          if ByOthers(batch[k]) && Enabled(c, s, batch[k]) {
            ghost var mid := s;
            s := Apply(c, s, batch[k]);
            OthersRunOn(c, made, start, mid, batch[k], s);
            made := made + [batch[k]];
          }
        }
      }
      OthersUndisturbed(c, P, made, start, s);
      assert OthersRun(c, made, old(s), s);
    }

    /** The new shared state is one step of the protocol away from the old one. */
    ghost method Stepped(P: State -> bool, before: State, step: Step)
      requires Closed(c, P) && P(before) && IsNext(c, before, s, step)
      ensures P(s)
    {
      assert Next(c, before, s);
    }

    /**
     The contract of a module: it returns true exactly when it has completed the request,
     and otherwise leaves the request at the head, started, for a later visit.
     */
    twostate predicate Processed(q: nat, left: nat, isComplete: bool)
      reads this
    {
      && q < |old(s.queues)| && q < |s.queues|
      && s.queues[q].dequeued == old(s.queues[q].dequeued)
      && s.queues[q].done == old(s.queues[q].done) + (if isComplete then [s.queues[q].dequeued] else [])
      && if isComplete then s.server == Drop(q, left)
         else q < c.queues && s.server == Visit(c.After(q)) && s.HasHead(q) && s.Head(q).code != 0
    }

    /** The page is the last that was sent, for queue q, and it carries the number of those before it. */
    twostate predicate Sends(q: nat, page: nat)
      reads this
    {
      && s.sent == old(s.sent) + [page] && s.issuer == old(s.issuer) + [q]
      && page < |s.mem| && s.mem[page].reqId == |old(s.sent)| && s.HasHead(q) && old(s.HasHead(q))
    }

    /** kern_qp->Enqueue of the page in hand, which spins while the ring is full, and SetCode. */
    method EnqueueKernel(ghost P: State -> bool, q: nat, page: nat, code: nat) returns (stuck: bool)
      requires Ready(P) && s.server == Send(q, page, code) && code != 0
      modifies this
      ensures Ready(P) && (stuck ==> !Sufficient(c)) && (!stuck ==> Processed(q, 0, false))
      ensures !stuck ==> Sends(q, page) && s.Head(q) == old(s.Head(q)).(tok := |old(s.sent)|, code := code)
      ensures s.free == old(s.free) && s.owner == old(s.owner)
    {
      Interfere(P);
      while others != [] && |s.sent| - s.taken >= c.buckets
        invariant Ready(P) && Undisturbed(old(s), s)
        decreases |others|
      {
        Interfere(P);
      }
      if |s.sent| - s.taken >= c.buckets {
        return true;
      }
      stuck := false;
      var id := |s.sent|;
      ghost var before := s;
      s := s.(sent := s.sent + [page], ring := s.ring[Slot(id, c.buckets) := page], issuer := s.issuer + [q],
              mem := s.mem[page := s.mem[page].(reqId := id)],
              queues := s.WithHead(q, s.Head(q).(tok := id, code := code)), server := Visit(c.After(q)));
      Stepped(P, before, ServerSend);
    }

    /** qp->Complete of the client request. */
    method CompleteClient(ghost P: State -> bool, q: nat, left: nat, page: nat)
      requires Ready(P) && s.server == Finish(q, left, page)
      modifies this
      ensures Ready(P) && s.server == Release(q, left, page) && q < |s.queues| && q < |old(s.queues)|
      ensures s.queues[q].dequeued == old(s.queues[q].dequeued)
      ensures s.queues[q].done == old(s.queues[q].done) + [s.queues[q].dequeued]
    {
      Interfere(P);
      ghost var before := s;
      s := s.(queues := s.queues[q := s.queues[q].(done := s.queues[q].done + [s.queues[q].dequeued])],
              server := Release(q, left, page));
      Stepped(P, before, ServerComplete);
    }

    /** FreeRequest of the kernel request. */
    method FreeRequest(ghost P: State -> bool, q: nat, left: nat, page: nat)
      requires Ready(P) && s.server == Release(q, left, page)
      modifies this
      ensures Ready(P) && s.server == Drop(q, left) && q < |s.queues| && q < |old(s.queues)|
      ensures s.queues[q].dequeued == old(s.queues[q].dequeued) && s.queues[q].done == old(s.queues[q].done)
    {
      Interfere(P);
      ghost var before := s;
      s := s.(free := s.free + {page}, server := Drop(q, left));
      Stepped(P, before, ServerFree);
    }

    /** kern_qp->IsComplete on the request's token. */
    method IsComplete(ghost P: State -> bool, q: nat, left: nat) returns (found: bool, page: nat)
      requires Ready(P) && s.server == Run(q, left) && s.HasHead(q) && ChecksKernel(s.Head(q))
      modifies this
      ensures Ready(P) && s.HasHead(q) && s.Head(q) == old(s.Head(q))
      ensures s.queues[q].dequeued == old(s.queues[q].dequeued) && s.queues[q].done == old(s.queues[q].done)
      ensures s.server == if found then Got(q, left, page) else Visit(c.After(q))
    {
      Interfere(P);
      ghost var before := s;
      var off := Lookup(s.cq, s.Head(q).tok);
      if off < 0 {
        found, page := false, 0;
        s := s.(server := Visit(c.After(q)));
      } else {
        found, page := true, off;
        s := s.(cq := Put(s.cq, s.Head(q).tok, INVALID), server := Got(q, left, page));
      }
      Stepped(P, before, ServerCheck);
    }

    /** The page was free and is now that of the request at the head. */
    twostate predicate AllocatedFor(q: nat, page: nat)
      reads this
    {
      && page in old(s.free) && s.free == old(s.free) - {page} && page < |s.owner| && q < |s.queues|
      && s.owner[page] == (q, s.queues[q].dequeued)
    }

    /** AllocRequest and the start of a kernel request, which is then sent; stuck without a free page. */
    method StartKernel(ghost P: State -> bool, q: nat, left: nat) returns (stuck: bool, ghost page: nat)
      requires Ready(P) && s.server == Run(q, left) && s.HasHead(q) && s.Head(q).code == 0
      modifies this
      ensures Ready(P) && (stuck ==> !Sufficient(c)) && (!stuck ==> Processed(q, left, false))
      ensures !stuck ==> s.Head(q) == old(s.Head(q)).(tok := |old(s.sent)|, code := 1)
      ensures !stuck ==> Sends(q, page) && AllocatedFor(q, page)
    {
      Interfere(P);
      if s.free == {} {
        return true, 0;
      }
      var p :| p in s.free;
      ghost var before := s;
      s := s.(free := s.free - {p}, mem := s.mem[p := StartRq(s.Head(q).kind, s.mem[p])],
              owner := s.owner[p := (q, s.queues[q].dequeued)], server := Send(q, p, 1));
      Stepped(P, before, ServerStart(p));
      stuck := EnqueueKernel(P, q, p, 1);
      page := p;
    }

    /** MQDriver: a four-state machine over the request's code. */
    method IO(ghost P: State -> bool, q: nat, left: nat) returns (isComplete: bool, stuck: bool)
      requires Ready(P) && s.server == Run(q, left) && s.HasHead(q) && s.Head(q).kind == MqIo
      modifies this
      ensures Ready(P) && (stuck ==> !Sufficient(c)) && (!stuck ==> Processed(q, left, isComplete))
    {
      var code := s.Head(q).code;
      isComplete, stuck := false, false;
      if code == 0 {
        ghost var page;
        stuck, page := StartKernel(P, q, left);
      } else if code == 1 {
        stuck := SubmitCheck(P, q, left);
      } else if code == 2 {
        isComplete, stuck := PollCheck(P, q, left);
      } else {
        isComplete := InterruptCheck(P, q, left);
      }
    }

    /** Code 1: once the kernel has submitted the I/O, poll for it or wait for the interrupt. */
    method SubmitCheck(ghost P: State -> bool, q: nat, left: nat) returns (stuck: bool)
      requires Ready(P) && s.server == Run(q, left)
      requires s.HasHead(q) && s.Head(q).kind == MqIo && s.Head(q).code == 1
      modifies this
      ensures Ready(P) && (stuck ==> !Sufficient(c)) && (!stuck ==> Processed(q, left, false))
      ensures !stuck ==> s.Head(q).kind == MqIo && 1 <= s.Head(q).code <= 3
      ensures Sufficient(c) && s.Head(q).code == 2 ==> (q, s.queues[q].dequeued) in s.polls
      ensures Sufficient(c) && s.Head(q).code == 3 ==> (q, s.queues[q].dequeued) !in s.polls
    {
      stuck := false;
      var found, page := IsComplete(P, q, left);
      if !found {
        return;
      }
      Interfere(P);
      ghost var before := s;
      if s.mem[page].polled {
        s := s.(mem := s.mem[page := s.mem[page].(op := PollCompletion)], server := Send(q, page, 2));
        Stepped(P, before, ServerGot);
        stuck := EnqueueKernel(P, q, page, 2);
      } else {
        s := s.(queues := s.WithHead(q, s.Head(q).(kernRq := page, code := 3)), server := Visit(c.After(q)));
        Stepped(P, before, ServerGot);
      }
      assert Sufficient(c) ==> OnPath(s, q);
    }

    /** Code 2: poll again unless the device has finished. */
    method PollCheck(ghost P: State -> bool, q: nat, left: nat) returns (isComplete: bool, stuck: bool)
      requires Ready(P) && s.server == Run(q, left)
      requires s.HasHead(q) && s.Head(q).kind == MqIo && s.Head(q).code == 2
      modifies this
      ensures Ready(P) && (stuck ==> !Sufficient(c)) && (!stuck ==> Processed(q, left, isComplete))
    {
      isComplete, stuck := false, false;
      var found, page := IsComplete(P, q, left);
      if !found {
        return;
      }
      Interfere(P);
      ghost var before := s;
      if !s.mem[page].ioComplete {
        s := s.(server := Send(q, page, 2));
        Stepped(P, before, ServerGot);
        stuck := EnqueueKernel(P, q, page, 2);
        return;
      }
      s := s.(server := Finish(q, left, page));
      Stepped(P, before, ServerGot);
      CompleteClient(P, q, left, page);
      FreeRequest(P, q, left, page);
      isComplete := true;
    }

    /** Code 3: complete once the interrupt handler has set the flag. */
    method InterruptCheck(ghost P: State -> bool, q: nat, left: nat) returns (isComplete: bool)
      requires Ready(P) && s.server == Run(q, left)
      requires s.HasHead(q) && s.Head(q).kind == MqIo && s.Head(q).code >= 3
      modifies this
      ensures Ready(P) && Processed(q, left, isComplete)
    {
      Interfere(P);
      var page := s.Head(q).kernRq;
      ghost var before := s;
      if !s.mem[page].ioComplete {
        s := s.(server := Visit(c.After(q)));
        Stepped(P, before, ServerParked);
        return false;
      }
      s := s.(server := Finish(q, left, page));
      Stepped(P, before, ServerParked);
      CompleteClient(P, q, left, page);
      FreeRequest(P, q, left, page);
      return true;
    }

    /** IPCTest: submit, then copy the answer and complete. */
    method IPC(ghost P: State -> bool, q: nat, left: nat) returns (isComplete: bool, stuck: bool)
      requires Ready(P) && s.server == Run(q, left) && s.HasHead(q) && s.Head(q).kind == IpcTest
      modifies this
      ensures Ready(P) && (stuck ==> !Sufficient(c)) && (!stuck ==> Processed(q, left, isComplete))
    {
      isComplete, stuck := false, false;
      if s.Head(q).code == 0 {
        ghost var p;
        stuck, p := StartKernel(P, q, left);
        return;
      }
      var found, page := IsComplete(P, q, left);
      if !found {
        return;
      }
      Interfere(P);
      ghost var before := s;
      s := s.(queues := s.WithHead(q, s.Head(q).(code := 0)), server := Finish(q, left, page));
      Stepped(P, before, ServerGot);
      CompleteClient(P, q, left, page);
      FreeRequest(P, q, left, page);
      isComplete := true;
    }

    /**
     One round over all queues. Within a queue the worker goes on to the next request only when
     the module has completed the one at the head. The round is a sequence of protocol steps, and
     a finished one leaves no request that was at the head of a queue untouched.
     */
    method DoWork() returns (finished: bool)
      requires c.Valid() && Reachable(c, s) && s.server == Visit(0)
      modifies this
      ensures LeadsTo(c, old(s), s) && (Sufficient(c) ==> finished)
      ensures finished ==> s.server == Visit(0) && forall q: nat :: q < c.queues ==> Attended(old(s), s, q)
    {
      ghost var P := FollowersClosed(c, s);
      forall t | P(t) ensures Usable(c, t) && (Sufficient(c) ==> Roomy(c, t) && AllOnPath(t)) {
        FollowersUsable(c, s, t);
      }
      ghost var start := s;
      assert Usable(c, s);
      for i := 0 to c.queues
        invariant Ready(P) && s.server == Visit(if i == c.queues then 0 else i)
        invariant forall q: nat :: q < i && start.HasHead(q) ==> Started(s, q, start.queues[q].dequeued)
      {
        ghost var before := s;
        var stuck := VisitQueue(P, i);
        if stuck {
          return false;
        }
        RoundSoFar(c, start, before, s, i);
      }
      assert Usable(c, s);
      finished := true;
    }

    /**
     The inner loop: at most as many requests as were in the queue when it started. Every request
     it dequeues was completed, once, and it leaves a started request at the head if it stops early.
     */
    method VisitQueue(ghost P: State -> bool, i: nat) returns (stuck: bool)
      requires Ready(P) && s.server == Visit(i)
      modifies this
      ensures Ready(P) && LeadsTo(c, old(s), s) && (stuck ==> !Sufficient(c))
      ensures !stuck ==> i < c.queues && s.server == Visit(c.After(i)) && Attended(old(s), s, i)
      ensures !stuck ==>
                |s.queues[i].done| - |old(s).queues[i].done| == s.queues[i].dequeued - old(s).queues[i].dequeued
    {
      ghost var N := Narrowed(c, P, s);
      ghost var d := s.queues[i].dequeued;
      var depth := GetDepth(N, i);
      for j := 0 to depth
        invariant Ready(N) && s.server == Peek(i, depth - j) && i < |s.queues|
        invariant s.queues[i].dequeued == d + j && |s.queues[i].done| == |old(s).queues[i].done| + j
        invariant old(s).HasHead(i) ==> s.HasHead(i) || 0 < j
      {
        var more;
        more, stuck := HeadRequest(N, i, depth - j);
        if stuck || !more {
          return;
        }
      }
      stuck := false;
      var ok := PeekHead(N, i, 0);
    }

    /** One turn of the inner loop: process the request at the head, and dequeue it if that completed it. */
    method HeadRequest(ghost P: State -> bool, i: nat, left: nat) returns (more: bool, stuck: bool)
      requires Ready(P) && s.server == Peek(i, left) && 0 < left
      modifies this
      ensures Ready(P) && (stuck ==> !Sufficient(c))
      ensures !stuck ==> i < c.queues && Attended(old(s), s, i)
      ensures !stuck ==> s.server == if more then Peek(i, left - 1) else Visit(c.After(i))
      ensures !stuck ==> s.queues[i].dequeued == old(s).queues[i].dequeued + if more then 1 else 0
      ensures !stuck ==> |s.queues[i].done| == |old(s).queues[i].done| + if more then 1 else 0
    {
      more, stuck := false, false;
      var ok := PeekHead(P, i, left);
      if !ok {
        return;
      }
      var isComplete;
      isComplete, stuck := ProcessRequest(P, i, left);
      if stuck || !isComplete {
        return;
      }
      Dequeue(P, i, left);
      more := true;
    }

    /** Dispatch on the module the request names. */
    method ProcessRequest(ghost P: State -> bool, q: nat, left: nat) returns (isComplete: bool, stuck: bool)
      requires Ready(P) && s.server == Run(q, left) && s.HasHead(q)
      modifies this
      ensures Ready(P) && (stuck ==> !Sufficient(c)) && (!stuck ==> Processed(q, left, isComplete))
    {
      if s.Head(q).kind == MqIo {
        isComplete, stuck := IO(P, q, left);
      } else {
        isComplete, stuck := IPC(P, q, left);
      }
    }

    method GetDepth(ghost P: State -> bool, i: nat) returns (depth: nat)
      requires Ready(P) && s.server == Visit(i)
      modifies this
      ensures Ready(P) && s.server == Peek(i, depth) && Same(i)
      ensures old(s).HasHead(i) ==> 0 < depth && s.HasHead(i)
    {
      Interfere(P);
      ghost var before := s;
      var cl := s.queues[i];
      depth := |cl.rqs| - cl.dequeued;
      VisitIsStep(c, s, depth);
      s := s.(server := Peek(i, depth));
      Stepped(P, before, ServerVisit);
    }

    /** Neither dequeued nor completed. */
    twostate predicate Same(i: nat)
      reads this
    {
      && i < |old(s.queues)| && i < |s.queues|
      && s.queues[i].dequeued == old(s.queues[i].dequeued) && s.queues[i].done == old(s.queues[i].done)
    }

    /** The loop test and qp->Peek; when either fails the worker goes to the next queue. */
    method PeekHead(ghost P: State -> bool, i: nat, left: nat) returns (ok: bool)
      requires Ready(P) && s.server == Peek(i, left)
      modifies this
      ensures Ready(P) && i < c.queues && Same(i)
      ensures if ok then 0 < left && s.server == Run(i, left) && s.HasHead(i) else s.server == Visit(c.After(i))
      ensures 0 < left && old(s).HasHead(i) ==> ok
    {
      Interfere(P);
      ok := 0 < left && s.HasHead(i);
      ghost var before := s;
      s := s.(server := if ok then Run(i, left) else Visit(c.After(i)));
      Stepped(P, before, ServerPeek);
    }

    method Dequeue(ghost P: State -> bool, i: nat, left: nat)
      requires Ready(P) && s.server == Drop(i, left) && 0 < left
      modifies this
      ensures Ready(P) && s.server == Peek(i, left - 1) && i < |s.queues| && i < |old(s.queues)|
      ensures s.queues[i].dequeued == old(s.queues[i].dequeued) + 1 && s.queues[i].done == old(s.queues[i].done)
    {
      Interfere(P);
      ghost var before := s;
      var cl := s.queues[i];
      DequeueIsStep(c, s, cl);
      s := s.(queues := s.queues[i := cl.(dequeued := cl.dequeued + 1)],
              server := Peek(i, left - 1));
      Stepped(P, before, ServerDequeue);
    }
  }
}
