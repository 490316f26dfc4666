/**
 What every step of the request protocol keeps.

 Completions are matched by bucket only, so that a request gets its own kernel
 completion is a global property. It rests on three facts: the kernel completes ids in
 order, a queue has at most one id outstanding, and the worker visits every queue
 between two visits of the same one.
 */
module ProtocolInvariant {
  import opened Words
  import opened RequestMap
  import opened Protocol

  /** The server is in the middle of the request at the head of queue q. */
  ghost predicate InHand(s: State, q: nat) {
    s.server.q == q && !s.server.Visit? && !s.server.Peek? && !s.server.Run?
  }

  /** Queue q's head waits for the kernel completion of the id in its token. */
  ghost predicate Waiting(s: State, q: nat) {
    s.HasHead(q) && !InHand(s, q) && ChecksKernel(s.Head(q))
  }

  /** Queue q's head waits for the device interrupt. */
  ghost predicate Parked(s: State, q: nat) {
    s.HasHead(q) && !InHand(s, q) && ChecksInterrupt(s.Head(q))
  }

  function Tok(s: State, q: nat): (x: nat)
    requires s.HasHead(q)
  {
    s.Head(q).tok
  }

  /** The number of ids the kernel has completed. */
  function Completed(s: State): (n: nat)
    ensures n <= s.taken
  {
    if s.kernel.Idle? || s.taken == 0 then s.taken else s.taken - 1
  }

  /** Visits from the server's position to queue q. */
  function Dist(c: Config, s: State, q: nat): (d: nat)
    requires s.server.q < c.queues && q < c.queues
    ensures d < c.queues
  {
    if s.server.q <= q then q - s.server.q else q + c.queues - s.server.q
  }

  ghost predicate Shape(c: Config, s: State) {
    && c.Valid()
    && |s.queues| == c.queues && s.server.q < c.queues
    && |s.ring| == c.buckets == |s.cq| && |s.mem| == c.pages == |s.owner|
    && s.taken <= |s.sent| == |s.issuer| && (!s.kernel.Idle? ==> 0 < s.taken)
  }

  /** All requests dequeued were completed in order, each once, and at most one more, the next. */
  ghost predicate InOrder(cl: ClientQueue) {
    && cl.dequeued <= |cl.done| <= cl.dequeued + 1 && |cl.done| <= |cl.rqs|
    && forall k :: 0 <= k < |cl.done| ==> cl.done[k] == k
  }

  /** A queue behind its head is untouched, and its completions are exactly those dequeued. */
  ghost predicate QueueOk(s: State, q: nat)
    requires q < |s.queues|
  {
    var cl := s.queues[q];
    && cl.dequeued <= |cl.rqs|
    && (forall k :: cl.dequeued < k < |cl.rqs| ==> cl.rqs[k].code == 0)
    && (s.HasHead(q) && !InHand(s, q) ==> s.Head(q).code == 0 || Waiting(s, q) || Parked(s, q))
    && |cl.done| == cl.dequeued + (if s.server.q == q && (s.server.Release? || s.server.Drop?) then 1 else 0)
    && (forall k :: 0 <= k < |cl.done| ==> cl.done[k] == k)
  }

  /** What the server knows at each of its program points. */
  ghost predicate ServerOk(s: State)
    requires s.server.q < |s.queues|
  {
    var q := s.server.q;
    && (s.server.Peek? && (Waiting(s, q) || Parked(s, q)) ==> 0 < s.server.left)
    && (s.server.Run? || InHand(s, q) ==> s.HasHead(q))
    && (s.server.Got? ==> ChecksKernel(s.Head(q)))
    && (s.server.Send? ==>
          || (s.server.code == 1 && s.Head(q).code == 0)
          || (s.server.code == 2 && s.Head(q).kind == MqIo && s.Head(q).code != 0))
  }

  ghost predicate QueueInv(c: Config, s: State) {
    Shape(c, s) && ServerOk(s) && forall q :: 0 <= q < c.queues ==> QueueOk(s, q)
  }

  /** The x-th page sent lies in its slot of the kernel ring. */
  ghost predicate Lies(c: Config, s: State, x: nat)
    requires Shape(c, s) && x < |s.sent|
  {
    s.ring[Slot(x, c.buckets)] == s.sent[x]
  }

  /** The kernel ring holds what was sent and not taken, and the kernel worker has what it took last. */
  ghost predicate RingInv(c: Config, s: State) {
    && Shape(c, s)
    && (!s.kernel.Idle? ==> s.kernel.page == s.sent[s.taken - 1])
    && (forall x: nat :: s.taken <= x < |s.sent| ==> Lies(c, s, x))
  }

  /** Ids and waiting queues correspond: every id not yet completed is waited for by its issuer. */
  ghost predicate IdInv(c: Config, s: State) {
    && Shape(c, s)
    && (forall q :: 0 <= q < c.queues && Waiting(s, q) ==> Tok(s, q) < |s.sent| && s.issuer[Tok(s, q)] == q)
    && (forall x :: Completed(s) <= x < |s.sent| ==>
          s.issuer[x] < c.queues && Waiting(s, s.issuer[x]) && Tok(s, s.issuer[x]) == x)
  }

  /** Bucket b holds a completion: it belongs to a queue that still waits for it. */
  ghost predicate BucketOk(c: Config, s: State, b: nat)
    requires IdInv(c, s) && b < c.buckets
  {
    s.cq[b] == INVALID ||
    (&& 0 <= s.cq[b] < |s.mem|
     && var x := s.mem[s.cq[b]].reqId;
        && x < Completed(s) && Slot(x, c.buckets) == b && s.sent[x] == s.cq[b]
        && s.issuer[x] < c.queues && Waiting(s, s.issuer[x]) && Tok(s, s.issuer[x]) == x)
  }

  /** A waiting queue's page carries its id, and its completion lies in its bucket once posted. */
  ghost predicate CompletionOk(c: Config, s: State, q: nat)
    requires IdInv(c, s) && q < c.queues && Waiting(s, q)
  {
    var x := Tok(s, q);
    && s.sent[x] < |s.mem| && s.mem[s.sent[x]].reqId == x
    && (x < Completed(s) ==> Lookup(s.cq, x) == s.sent[x])
  }

  ghost predicate MapInv(c: Config, s: State) {
    && IdInv(c, s)
    && (forall b :: 0 <= b < c.buckets ==> BucketOk(c, s, b))
    && (forall q :: 0 <= q < c.queues && Waiting(s, q) ==> CompletionOk(c, s, q))
  }

  /** The kernel page that queue q's head currently owns. */
  ghost predicate Owns(s: State, q: nat, p: nat)
  {
    || (Waiting(s, q) && Tok(s, q) < |s.sent| && s.sent[Tok(s, q)] == p)
    || (Parked(s, q) && s.Head(q).kernRq == p)
    || (s.server.q == q && (s.server.Send? || s.server.Got? || s.server.Finish? || s.server.Release?)
        && s.server.page == p)
  }

  /** Every page is free or owned by exactly the client request it was allocated for. */
  ghost predicate PageInv(c: Config, s: State) {
    && Shape(c, s)
    && (forall p :: p in s.free ==> 0 <= p < c.pages)
    && (forall q: nat, p: nat :: q < c.queues && Owns(s, q, p) ==>
          p < c.pages && p !in s.free && s.owner[p] == (q, s.queues[q].dequeued))
    && (forall p: nat :: p < c.pages && p !in s.free ==>
          s.owner[p].0 < c.queues && Owns(s, s.owner[p].0, p))
  }

  /**
   Two waiting queues whose ids are a full round apart: the older one is visited first.
   */
  ghost predicate OrderInv(c: Config, s: State) {
    && IdInv(c, s)
    && forall q, p :: 0 <= q < c.queues && 0 <= p < c.queues && Waiting(s, q) && Waiting(s, p)
                      && Tok(s, q) < Tok(s, p) ==>
         Tok(s, p) - Tok(s, q) < c.queues || Dist(c, s, q) < Dist(c, s, p)
  }

  /** After an id is completed, each queue visited before its issuer adds at most one id. */
  ghost predicate WindowInv(c: Config, s: State) {
    && IdInv(c, s)
    && forall q :: 0 <= q < c.queues && Waiting(s, q) && Tok(s, q) < Completed(s) ==>
         |s.sent| + Dist(c, s, q) < Tok(s, q) + 2 * c.queues
  }

  // --- Queues and program points -------------------------------------------------

  lemma QueueInvInit(c: Config, s: State)
    requires c.Valid() && Init(c, s)
    ensures QueueInv(c, s)
  {
  }

  lemma ShapeStep(c: Config, s: State, s': State, step: Step)
    requires Shape(c, s) && IsNext(c, s, s', step)
    ensures Shape(c, s')
  {
  }

  /** A step touches no queue but the server's and the one a client enqueues to. */
  lemma OtherQueues(c: Config, s: State, s': State, step: Step, q: nat)
    requires Shape(c, s) && IsNext(c, s, s', step)
    requires q < c.queues && q != s.server.q && !(step.ClientEnqueue? && step.q == q)
    ensures s'.queues[q] == s.queues[q] && !InHand(s', q)
  {
  }

  lemma ServerOkStep(c: Config, s: State, s': State, step: Step)
    requires QueueInv(c, s) && IsNext(c, s, s', step)
    ensures Shape(c, s') && ServerOk(s')
  {
    ShapeStep(c, s, s', step);
    var q := s.server.q;
    assert QueueOk(s, q);
    if s'.server.q != q {
      assert s'.server.Visit?;
    }
  }

  lemma QueueOkEnqueue(c: Config, s: State, s': State, step: Step)
    requires QueueInv(c, s) && IsNext(c, s, s', step) && step.ClientEnqueue?
    ensures Shape(c, s') && QueueOk(s', step.q)
  {
    assert QueueOk(s, step.q);
  }

  lemma QueueOkServer(c: Config, s: State, s': State, step: Step)
    requires QueueInv(c, s) && IsNext(c, s, s', step) && !step.ClientEnqueue?
    ensures Shape(c, s') && QueueOk(s', s.server.q)
  {
    assert QueueOk(s, s.server.q);
  }

  lemma QueueInvStep(c: Config, s: State, s': State, step: Step)
    requires QueueInv(c, s) && IsNext(c, s, s', step)
    ensures QueueInv(c, s')
  {
    ServerOkStep(c, s, s', step);
    forall q | 0 <= q < c.queues ensures QueueOk(s', q) {
      assert QueueOk(s, q);
      if step.ClientEnqueue? && step.q == q {
        QueueOkEnqueue(c, s, s', step);
      } else if q == s.server.q && !step.ClientEnqueue? {
        QueueOkServer(c, s, s', step);
      } else if q != s.server.q {
        OtherQueues(c, s, s', step, q);
      }
    }
  }

  // --- Which queues wait, and for what ---------------------------------------------

  /** The server finds something in the bucket of the request it runs. */
  ghost predicate Hits(s: State)
    requires s.HasHead(s.server.q) && 0 < |s.cq|
  {
    0 <= Lookup(s.cq, s.Head(s.server.q).tok)
  }

  ghost predicate IsHit(c: Config, s: State, step: Step)
    requires c.Valid() && Enabled(c, s, step)
  {
    step.ServerCheck? && Hits(s)
  }

  ghost predicate SameWait(s: State, s': State, q: nat)
  {
    && (Waiting(s', q) <==> Waiting(s, q))
    && (Waiting(s, q) ==> s'.Head(q) == s.Head(q) && s'.queues[q].dequeued == s.queues[q].dequeued)
  }

  /** Only a hit and a new submission change what a queue waits for. */
  lemma WaitKept(c: Config, s: State, s': State, step: Step, q: nat)
    requires QueueInv(c, s) && IsNext(c, s, s', step) && q < c.queues
    requires q == s.server.q ==> !step.ServerSend? && !IsHit(c, s, step)
    ensures SameWait(s, s', q)
  {
    assert QueueOk(s, q);
    if q != s.server.q && !(step.ClientEnqueue? && step.q == q) {
      OtherQueues(c, s, s', step, q);
    }
  }

  lemma WaitAfterHit(c: Config, s: State, s': State)
    requires QueueInv(c, s) && IsNext(c, s, s', ServerCheck) && Hits(s)
    ensures Waiting(s, s.server.q) && !Waiting(s', s.server.q)
  {
  }

  lemma WaitAfterSend(c: Config, s: State, s': State)
    requires QueueInv(c, s) && IsNext(c, s, s', ServerSend)
    ensures !Waiting(s, s.server.q) && Waiting(s', s.server.q) && Tok(s', s.server.q) == |s.sent|
    ensures s'.queues[s.server.q].dequeued == s.queues[s.server.q].dequeued
  {
  }
}
