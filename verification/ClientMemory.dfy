/**
 The client queues of the protocol as they lie in memory: for each client a submission ring whose
 counters wrap, and a completion map that the server posts to and the client reaps from.

 The server peeks at the head of a ring and then works on the request it got, which is the oldest
 one only if the ring still holds that. When it does, every run is a run of the protocol, and the
 client gets its requests back in order.
 */
module ClientMemory {
  import opened Words
  import opened RequestMap
  import opened Protocol
  import opened ProtocolInvariant
  import RequestRing
  import QueuePair

  /** The ring's slots, the completion map, the tokens still waited for, and what the waits returned. */
  datatype Client = Client(slots: seq<nat>, cq: seq<int>, waiting: set<nat>, reaped: seq<(nat, nat)>)

  /** `hand` is the request that the server's last Peek returned, by its position in the queue. */
  datatype Mem = Mem(s: State, clients: seq<Client>, hand: nat)

  datatype Move = By(step: Step) | Reap(q: nat, tok: nat)

  /** These steps of a module, or of the server on its behalf, are about the request in hand. */
  predicate OnHand(step: Step) {
    || step.ServerStart? || step.ServerCheck? || step.ServerParked? || step.ServerIgnore?
    || step.ServerGot? || step.ServerSend? || step.ServerComplete?
  }

  function WithDequeued(s: State, n: nat): (s': State)
    requires s.server.q < |s.queues|
  {
    s.(queues := s.queues[s.server.q := s.queues[s.server.q].(dequeued := n)])
  }

  /** The state as the module sees it: the request in hand is the head of the queue. */
  function Focus(m: Mem): (s: State)
    requires m.s.server.q < |m.s.queues|
  {
    WithDequeued(m.s, m.hand)
  }

  ghost predicate Shaped(c: Config, at: Assignment, m: Mem) {
    && c.Valid() && QueuePair.Valid(at) && at.depth == c.depth
    && |m.clients| == c.queues == |m.s.queues| && m.s.server.q < c.queues
    && forall q :: 0 <= q < c.queues ==> |m.clients[q].slots| == c.depth == |m.clients[q].cq|
  }

  ghost predicate CanMove(c: Config, at: Assignment, m: Mem, move: Move) {
    && Shaped(c, at, m)
    && match move
       case Reap(q, tok) => q < c.queues && tok in m.clients[q].waiting && 0 <= m.clients[q].cq[at.slot(tok)]
       case By(step) =>
         && Enabled(c, if OnHand(step) then Focus(m) else m.s, step)
         && (step.ServerComplete? ==> m.clients[m.s.server.q].cq[at.slot(m.hand)] == INVALID)
  }

  /** What the step does to the protocol's state. */
  ghost function Acted(c: Config, m: Mem, step: Step): (s: State)
    requires c.Valid() && m.s.server.q < |m.s.queues| && Enabled(c, if OnHand(step) then Focus(m) else m.s, step)
  {
    if OnHand(step) then
      var s, q, d := Apply(c, Focus(m), step), m.s.server.q, m.s.queues[m.s.server.q].dequeued;
      s.(queues := s.queues[q := s.queues[q].(dequeued := d)])
    else Apply(c, m.s, step)
  }

  /** What the step does to the client's memory. */
  ghost function Served(c: Config, at: Assignment, m: Mem, step: Step): (clients: seq<Client>)
    requires CanMove(c, at, m, By(step))
  {
    if step.ClientEnqueue? then
      var cl, n := m.clients[step.q], |m.s.queues[step.q].rqs|;
      m.clients[step.q := cl.(slots := cl.slots[at.slot(n) := n], waiting := cl.waiting + {n})]
    else if step.ServerComplete? then
      var q := m.s.server.q;
      m.clients[q := m.clients[q].(cq := m.clients[q].cq[at.slot(m.hand) := m.hand])]
    else m.clients
  }

  ghost function After(c: Config, at: Assignment, m: Mem, move: Move): (m': Mem)
    requires CanMove(c, at, m, move)
  {
    match move
    case Reap(q, tok) =>
      var cl := m.clients[q];
      m.(clients := m.clients[q := cl.(cq := cl.cq[at.slot(tok) := INVALID], waiting := cl.waiting - {tok},
                                       reaped := cl.reaped + [(tok, cl.cq[at.slot(tok)])])])
    case By(step) =>
      var s, q := Acted(c, m, step), m.s.server.q;
      Mem(s, Served(c, at, m, step),
          if step.ServerPeek? && s.server.Run? then m.clients[q].slots[at.slot(m.s.queues[q].dequeued)] else m.hand)
  }

  ghost predicate Init(c: Config, at: Assignment, m: Mem) {
    && Shaped(c, at, m) && Protocol.Init(c, m.s)
    && forall q :: 0 <= q < c.queues ==>
         m.clients[q].waiting == {} && m.clients[q].reaped == []
         && forall b :: 0 <= b < c.depth ==> m.clients[q].cq[b] == INVALID
  }

  /** What the clients choose to do. */
  type Policy = (Mem, Move) -> bool

  ghost predicate Next(c: Config, at: Assignment, p: Policy, m: Mem, m': Mem) {
    exists move :: CanMove(c, at, m, move) && p(m, move) && m' == After(c, at, m, move)
  }

  ghost predicate IsRun(c: Config, at: Assignment, p: Policy, run: seq<Mem>) {
    && 0 < |run|
    && if |run| == 1 then Init(c, at, run[0])
       else IsRun(c, at, p, run[..|run| - 1]) && Next(c, at, p, run[|run| - 2], run[|run| - 1])
  }

  ghost predicate Reachable(c: Config, at: Assignment, p: Policy, m: Mem) {
    exists run :: IsRun(c, at, p, run) && run[|run| - 1] == m
  }

  /** What holds at first and no move ends, holds at the end of a run. */
  lemma {:induction false} RunKeeps(c: Config, at: Assignment, p: Policy, Q: Mem -> bool, run: seq<Mem>)
    requires IsRun(c, at, p, run) && (forall m :: Init(c, at, m) ==> Q(m))
    requires forall m, m' :: Q(m) && Next(c, at, p, m, m') ==> Q(m')
    ensures Q(run[|run| - 1])
    decreases |run|
  {
    if 1 < |run| {
      RunKeeps(c, at, p, Q, run[..|run| - 1]);
    }
  }

  // --- The ring in memory ------------------------------------------------------------------------

  /** Client q's submission ring. */
  function RingOf(m: Mem, q: nat): (r: RequestRing.Ring<nat>)
    requires q < |m.s.queues| && q < |m.clients|
  {
    RequestRing.Wrapped(|m.s.queues[q].rqs|, m.s.queues[q].dequeued, m.clients[q].slots)
  }

  ghost predicate Filled(c: Config, m: Mem, q: nat) {
    q < |m.s.queues| && m.s.queues[q].dequeued <= |m.s.queues[q].rqs| <= m.s.queues[q].dequeued + c.depth
  }

  /** A client's Enqueue is refused exactly when it is blocked here, and otherwise stores the request's position. */
  lemma EnqueueIsRingStep(c: Config, at: Assignment, m: Mem, q: nat, kind: Kind)
    requires QueuePair.InMemory(at) && Shaped(c, at, m) && q < c.queues && Filled(c, m, q)
    ensures var cl := m.s.queues[q];
            && RingOf(m, q).WellFormed()
            && (RequestRing.Step(RingOf(m, q), RequestRing.Enqueue(|cl.rqs|)).1.Full? <==> |cl.rqs| == cl.dequeued + c.depth)
            && (Shape(c, m.s) ==>
                  (CanMove(c, at, m, By(ClientEnqueue(q, kind))) <==>
                     !RequestRing.Step(RingOf(m, q), RequestRing.Enqueue(|cl.rqs|)).1.Full?))
            && (CanMove(c, at, m, By(ClientEnqueue(q, kind))) ==>
                  RequestRing.Step(RingOf(m, q), RequestRing.Enqueue(|cl.rqs|)) ==
                    (RingOf(After(c, at, m, By(ClientEnqueue(q, kind))), q), RequestRing.Accepted(|cl.rqs| % WRAP)))
  {
    RequestRing.WrappedEnqueue(|m.s.queues[q].rqs|, m.s.queues[q].dequeued, m.clients[q].slots, |m.s.queues[q].rqs|);
  }

  /** The server's Peek takes in hand what the ring answers, and its Dequeue is the ring's. */
  lemma PeekIsRingStep(c: Config, at: Assignment, m: Mem)
    requires QueuePair.InMemory(at) && Shaped(c, at, m) && Filled(c, m, m.s.server.q)
    ensures RingOf(m, m.s.server.q).WellFormed()
    ensures CanMove(c, at, m, By(ServerPeek)) ==>
              var m', reply := After(c, at, m, By(ServerPeek)), RequestRing.Step(RingOf(m, m.s.server.q), RequestRing.Peek).1;
              && (m'.s.server.Run? <==> 0 < m.s.server.left && !reply.Empty?)
              && (m'.s.server.Run? ==> reply == RequestRing.Item(m'.hand))
    ensures CanMove(c, at, m, By(ServerDequeue)) && m.s.HasHead(m.s.server.q) ==>
              RingOf(After(c, at, m, By(ServerDequeue)), m.s.server.q)
              == RequestRing.Step(RingOf(m, m.s.server.q), RequestRing.Dequeue).0
  {
    var cl := m.s.queues[m.s.server.q];
    RequestRing.WrappedDequeue(|cl.rqs|, cl.dequeued, m.clients[m.s.server.q].slots);
  }

  /** A client's wait returns whenever the bucket of its token is taken, with whatever is there. */
  lemma ReapIsMapStep(c: Config, at: Assignment, m: Mem, q: nat, tok: nat)
    requires QueuePair.InMemory(at) && Shaped(c, at, m) && q < c.queues
    ensures CanMove(c, at, m, Reap(q, tok)) <==> tok in m.clients[q].waiting && 0 <= Lookup(m.clients[q].cq, tok)
    ensures CanMove(c, at, m, Reap(q, tok)) ==>
              var cl, cl' := m.clients[q], After(c, at, m, Reap(q, tok)).clients[q];
              cl'.reaped == cl.reaped + [(tok, Lookup(cl.cq, tok))] && cl'.cq == Put(cl.cq, tok, INVALID)
  {
  }

  /** The server's Complete posts the request in hand, and waits exactly while the bucket of that is taken. */
  lemma CompleteIsMapStep(c: Config, at: Assignment, m: Mem)
    requires QueuePair.InMemory(at) && Shaped(c, at, m) && Enabled(c, Focus(m), ServerComplete)
    ensures CanMove(c, at, m, By(ServerComplete)) <==> Lookup(m.clients[m.s.server.q].cq, m.hand) == INVALID
    ensures CanMove(c, at, m, By(ServerComplete)) ==>
              var q := m.s.server.q;
              After(c, at, m, By(ServerComplete)).clients[q].cq == Put(m.clients[q].cq, m.hand, m.hand)
  {
  }

  // --- One queue -----------------------------------------------------------------------------------

  /** Queue q as a pair of one client and one server that completes as soon as it has taken a request. */
  function PairOf(m: Mem, q: nat): (s: QueuePair.Pair)
    requires q < |m.s.queues| && q < |m.clients|
  {
    var cl := m.clients[q];
    QueuePair.Pair(|m.s.queues[q].rqs|, |m.s.queues[q].done|, cl.slots, [], cl.cq, cl.waiting, cl.reaped)
  }

  /** A module has a rule for the request's code. */
  predicate Resumable(r: ClientRq) {
    r.code == 0 || ChecksKernel(r) || ChecksInterrupt(r)
  }

  /** The server has a request of queue q in hand that it has not completed. */
  predicate Working(s: State, q: nat) {
    s.server.q == q && (s.server.Run? || s.server.Send? || s.server.Got? || s.server.Finish?)
  }

  /** The requests of queue q are completed in order, and the one in hand is the oldest. */
  ghost predicate Orderly(m: Mem, q: nat)
    requires q < |m.s.queues|
  {
    var cl, pc := m.s.queues[q], m.s.server;
    && |cl.done| == cl.dequeued + (if pc.q == q && (pc.Release? || pc.Drop?) then 1 else 0)
    && (forall k :: 0 <= k < |cl.done| ==> cl.done[k] == k)
    && (forall k :: 0 <= k < |cl.rqs| ==> Resumable(cl.rqs[k]))
    && (Working(m.s, q) ==> m.hand == cl.dequeued < |cl.rqs|)
    && (pc.Send? && pc.q == q ==> pc.code == 1 || (pc.code == 2 && cl.rqs[m.hand].kind == MqIo))
  }

  ghost predicate Local(c: Config, at: Assignment, m: Mem, q: nat) {
    && Shaped(c, at, m) && q < c.queues && Filled(c, m, q) && Orderly(m, q)
    && QueuePair.Delivered(at, PairOf(m, q))
  }

  lemma ShapedStep(c: Config, at: Assignment, m: Mem, move: Move)
    requires CanMove(c, at, m, move)
    ensures Shaped(c, at, After(c, at, m, move))
  {
  }

  /** A move touches the memory and the queue of one client at most. */
  lemma OtherQueue(c: Config, at: Assignment, m: Mem, move: Move, q: nat)
    requires CanMove(c, at, m, move) && q < c.queues && q != m.s.server.q
    requires !(move.By? && move.step.ClientEnqueue? && move.step.q == q) && !(move.Reap? && move.q == q)
    ensures var m' := After(c, at, m, move);
            m'.s.queues[q] == m.s.queues[q] && m'.clients[q] == m.clients[q] && (m'.s.server.q == q ==> m'.s.server.Visit?)
  {
    if move.By? {
      if OnHand(move.step) {
        AppliedElsewhere(c, Focus(m), move.step, q);
      } else {
        AppliedElsewhere(c, m.s, move.step, q);
      }
    }
  }

  lemma AppliedElsewhere(c: Config, s: State, step: Step, q: nat)
    requires c.Valid() && Enabled(c, s, step) && q < c.queues && q != s.server.q
    requires !(step.ClientEnqueue? && step.q == q)
    ensures var s' := Apply(c, s, step);
            |s'.queues| == |s.queues| && s'.queues[q] == s.queues[q] && (s'.server.q == q ==> s'.server.Visit?)
  {
  }

  lemma OrderlyElsewhere(c: Config, at: Assignment, m: Mem, move: Move, q: nat)
    requires CanMove(c, at, m, move) && Local(c, at, m, q) && q != m.s.server.q && move.By? && !move.step.ClientEnqueue?
    ensures Orderly(After(c, at, m, move), q) && Filled(c, After(c, at, m, move), q)
  {
    OtherQueue(c, at, m, move, q);
  }

  lemma OrderlyByClient(c: Config, at: Assignment, m: Mem, move: Move, q: nat)
    requires CanMove(c, at, m, move) && Local(c, at, m, q) && (move.Reap? || move.step.ClientEnqueue?)
    ensures Orderly(After(c, at, m, move), q) && Filled(c, After(c, at, m, move), q)
  {
  }

  lemma OrderlyByKernel(c: Config, at: Assignment, m: Mem, move: Move, q: nat)
    requires CanMove(c, at, m, move) && Local(c, at, m, q) && q == m.s.server.q
    requires move.By? && (move.step.KernelTake? || move.step.KernelRun? || move.step.KernelPost? || move.step.DeviceDone?)
    ensures Orderly(After(c, at, m, move), q) && Filled(c, After(c, at, m, move), q)
  {
    var m' := After(c, at, m, move);
    assert m'.s.queues == m.s.queues && m'.s.server == m.s.server && m'.hand == m.hand;
  }

  /** While the request in hand is the oldest, the module sees the state as it is. */
  lemma FocusIsExact(c: Config, at: Assignment, m: Mem)
    requires Local(c, at, m, m.s.server.q) && Working(m.s, m.s.server.q)
    ensures Focus(m) == m.s
  {
    var q := m.s.server.q;
    assert m.s.queues[q].(dequeued := m.hand) == m.s.queues[q];
    assert m.s.queues[q := m.s.queues[q]] == m.s.queues;
  }

  lemma ActedExactly(c: Config, at: Assignment, m: Mem, step: Step)
    requires Local(c, at, m, m.s.server.q) && CanMove(c, at, m, By(step))
    ensures Enabled(c, m.s, step) && Acted(c, m, step) == Apply(c, m.s, step)
  {
    if OnHand(step) {
      FocusIsExact(c, at, m);
      var s, q := Apply(c, m.s, step), m.s.server.q;
      assert s.queues[q].dequeued == m.s.queues[q].dequeued;
      assert s.queues[q].(dequeued := m.s.queues[q].dequeued) == s.queues[q];
      assert s.queues[q := s.queues[q]] == s.queues;
    }
  }

  lemma OrderlyByModule(c: Config, at: Assignment, m: Mem, step: Step, q: nat)
    requires CanMove(c, at, m, By(step)) && Local(c, at, m, q) && q == m.s.server.q && OnHand(step)
    ensures Orderly(After(c, at, m, By(step)), q) && Filled(c, After(c, at, m, By(step)), q)
  {
    ActedExactly(c, at, m, step);
  }

  lemma OrderlyByServer(c: Config, at: Assignment, m: Mem, step: Step, q: nat)
    requires CanMove(c, at, m, By(step)) && Local(c, at, m, q) && q == m.s.server.q
    requires step.ServerVisit? || step.ServerPeek? || step.ServerFree? || step.ServerDequeue?
    ensures Orderly(After(c, at, m, By(step)), q) && Filled(c, After(c, at, m, By(step)), q)
  {
    var cl := m.s.queues[q];
    if step.ServerPeek? && cl.dequeued < |cl.rqs| {
      assert QueuePair.InSlot(at, PairOf(m, q), cl.dequeued);
    }
  }

  lemma OrderlyStep(c: Config, at: Assignment, m: Mem, move: Move, q: nat)
    requires CanMove(c, at, m, move) && Local(c, at, m, q)
    ensures Orderly(After(c, at, m, move), q) && Filled(c, After(c, at, m, move), q)
  {
    if move.Reap? || move.step.ClientEnqueue? {
      OrderlyByClient(c, at, m, move, q);
    } else if q != m.s.server.q {
      OrderlyElsewhere(c, at, m, move, q);
    } else if OnHand(move.step) {
      OrderlyByModule(c, at, m, move.step, q);
    } else if move.step.ServerVisit? || move.step.ServerPeek? || move.step.ServerFree? || move.step.ServerDequeue? {
      OrderlyByServer(c, at, m, move.step, q);
    } else {
      OrderlyByKernel(c, at, m, move, q);
    }
  }

  // --- What a move does to a queue's pair --------------------------------------------------------

  predicate EnqueuesTo(move: Move, q: nat) {
    move.By? && move.step.ClientEnqueue? && move.step.q == q
  }

  predicate Completes(m: Mem, move: Move, q: nat) {
    move.By? && move.step.ServerComplete? && m.s.server.q == q
  }

  predicate ReapsFrom(move: Move, q: nat) {
    move.Reap? && move.q == q
  }

  lemma PairEnqueue(c: Config, at: Assignment, m: Mem, move: Move, q: nat)
    requires CanMove(c, at, m, move) && Local(c, at, m, q) && EnqueuesTo(move, q)
    ensures QueuePair.Enabled(at, PairOf(m, q), QueuePair.Enqueue)
    ensures PairOf(After(c, at, m, move), q) == QueuePair.Apply(at, PairOf(m, q), QueuePair.Enqueue)
  {
  }

  lemma PairReap(c: Config, at: Assignment, m: Mem, move: Move, q: nat)
    requires CanMove(c, at, m, move) && Local(c, at, m, q) && ReapsFrom(move, q)
    ensures QueuePair.Enabled(at, PairOf(m, q), QueuePair.Reap(move.tok))
    ensures PairOf(After(c, at, m, move), q) == QueuePair.Apply(at, PairOf(m, q), QueuePair.Reap(move.tok))
  {
  }

  /** The server takes the request and completes it. */
  lemma PairComplete(c: Config, at: Assignment, m: Mem, move: Move, q: nat)
    requires CanMove(c, at, m, move) && Local(c, at, m, q) && Completes(m, move, q)
    ensures QueuePair.Enabled(at, PairOf(m, q), QueuePair.Take)
    ensures var s := QueuePair.Apply(at, PairOf(m, q), QueuePair.Take);
            && QueuePair.Enabled(at, s, QueuePair.Complete(0))
            && PairOf(After(c, at, m, move), q) == QueuePair.Apply(at, s, QueuePair.Complete(0))
  {
    ActedExactly(c, at, m, move.step);
    assert QueuePair.InSlot(at, PairOf(m, q), m.hand);
    assert QueuePair.Without([m.hand], 0) == [];
  }

  lemma PairSame(c: Config, at: Assignment, m: Mem, move: Move, q: nat)
    requires CanMove(c, at, m, move) && Local(c, at, m, q)
    requires !EnqueuesTo(move, q) && !ReapsFrom(move, q) && !Completes(m, move, q)
    ensures PairOf(After(c, at, m, move), q) == PairOf(m, q)
  {
    if q != m.s.server.q {
      OtherQueue(c, at, m, move, q);
    } else if move.By? {
      ActedExactly(c, at, m, move.step);
    }
  }

  // --- Any clients ---------------------------------------------------------------------------------

  lemma DeliveredStep(c: Config, at: Assignment, m: Mem, move: Move, q: nat)
    requires CanMove(c, at, m, move) && Local(c, at, m, q)
    requires EnqueuesTo(move, q) ==> QueuePair.SlotFree(at, PairOf(m, q))
    ensures Shaped(c, at, After(c, at, m, move)) && QueuePair.Delivered(at, PairOf(After(c, at, m, move), q))
  {
    ShapedStep(c, at, m, move);
    var s := PairOf(m, q);
    if EnqueuesTo(move, q) {
      PairEnqueue(c, at, m, move, q);
      QueuePair.EnqueueDelivers(at, s);
    } else if ReapsFrom(move, q) {
      PairReap(c, at, m, move, q);
      QueuePair.OtherDelivers(at, s, QueuePair.Reap(move.tok));
    } else if Completes(m, move, q) {
      PairComplete(c, at, m, move, q);
      QueuePair.OtherDelivers(at, s, QueuePair.Take);
      QueuePair.OtherDelivers(at, QueuePair.Apply(at, s, QueuePair.Take), QueuePair.Complete(0));
    } else {
      PairSame(c, at, m, move, q);
    }
  }

  lemma LocalStep(c: Config, at: Assignment, m: Mem, move: Move, q: nat)
    requires CanMove(c, at, m, move) && Local(c, at, m, q)
    requires EnqueuesTo(move, q) ==> QueuePair.SlotFree(at, PairOf(m, q))
    ensures Local(c, at, After(c, at, m, move), q)
  {
    OrderlyStep(c, at, m, move, q);
    DeliveredStep(c, at, m, move, q);
  }

  lemma LocalInit(c: Config, at: Assignment, m: Mem, q: nat)
    requires Init(c, at, m) && q < c.queues
    ensures Local(c, at, m, q)
  {
  }

  /** Requests are only ever added. */
  lemma QueuesGrow(c: Config, at: Assignment, m: Mem, move: Move, q: nat)
    requires CanMove(c, at, m, move) && q < c.queues
    ensures var m' := After(c, at, m, move);
            |m'.s.queues| == c.queues && |m'.s.queues[q].rqs| == |m.s.queues[q].rqs| + if EnqueuesTo(move, q) then 1 else 0
  {
  }

  ghost predicate Countable(at: Assignment, m: Mem, q: nat) {
    q < |m.s.queues| && QueuePair.DistinctBelow(at, |m.s.queues[q].rqs|)
  }

  lemma LocalNext(c: Config, at: Assignment, p: Policy, m: Mem, m': Mem, q: nat)
    requires Next(c, at, p, m, m') && q < c.queues && Countable(at, m', q)
    ensures Countable(at, m, q) && (Local(c, at, m, q) ==> Local(c, at, m', q))
  {
    var move :| CanMove(c, at, m, move) && p(m, move) && m' == After(c, at, m, move);
    QueuesGrow(c, at, m, move, q);
    if Local(c, at, m, q) {
      assert EnqueuesTo(move, q) ==> QueuePair.SlotFree(at, PairOf(m, q));
      LocalStep(c, at, m, move, q);
    }
  }

  lemma LocalHolds(c: Config, at: Assignment, p: Policy, run: seq<Mem>, q: nat)
    requires IsRun(c, at, p, run) && q < c.queues && Countable(at, run[|run| - 1], q)
    ensures Local(c, at, run[|run| - 1], q)
  {
    var Q := m => Countable(at, m, q) ==> Local(c, at, m, q);
    forall m | Init(c, at, m) ensures Q(m) {
      LocalInit(c, at, m, q);
    }
    forall m, m' | Q(m) && Next(c, at, p, m, m') ensures Q(m') {
      if Countable(at, m', q) {
        LocalNext(c, at, p, m, m', q);
      }
    }
    RunKeeps(c, at, p, Q, run);
  }

  /**
   Whatever the clients, the modules, the kernel and the device do, the server completes the
   requests of a queue in order, each once, until the queue's ids wrap, or for ever if the depth
   divides 2^32.
   */
  lemma CompletedInOrder(c: Config, at: Assignment, p: Policy, m: Mem, q: nat)
    requires QueuePair.InMemory(at) && Reachable(c, at, p, m) && q < c.queues
    requires q < |m.s.queues| && Cyclic(at.depth, |m.s.queues[q].rqs|)
    ensures InOrder(m.s.queues[q])
  {
    var run :| IsRun(c, at, p, run) && run[|run| - 1] == m;
    QueuePair.CyclicIsDistinct(at, |m.s.queues[q].rqs|);
    LocalHolds(c, at, p, run, q);
    LocalInOrder(c, at, m, q);
  }

  lemma LocalInOrder(c: Config, at: Assignment, m: Mem, q: nat)
    requires Local(c, at, m, q)
    ensures InOrder(m.s.queues[q])
  {
  }

  // --- The protocol ----------------------------------------------------------------------------------

  /** With all rings in order, a move is a step of the protocol or does not concern it. */
  lemma MoveIsStep(c: Config, at: Assignment, m: Mem, move: Move)
    requires CanMove(c, at, m, move) && Local(c, at, m, m.s.server.q)
    ensures After(c, at, m, move).s == m.s || Protocol.Next(c, m.s, After(c, at, m, move).s)
  {
    if move.By? {
      ActedExactly(c, at, m, move.step);
      assert IsNext(c, m.s, After(c, at, m, move).s, move.step);
    }
  }

  lemma NextIsStep(c: Config, at: Assignment, p: Policy, m: Mem, m': Mem)
    requires Next(c, at, p, m, m') && Local(c, at, m, m.s.server.q)
    ensures m'.s == m.s || Protocol.Next(c, m.s, m'.s)
  {
    var move :| CanMove(c, at, m, move) && p(m, move) && m' == After(c, at, m, move);
    MoveIsStep(c, at, m, move);
  }

  ghost predicate AllCountable(c: Config, at: Assignment, m: Mem) {
    forall q: nat :: q < c.queues ==> Countable(at, m, q)
  }

  lemma CountableBefore(c: Config, at: Assignment, p: Policy, m: Mem, m': Mem)
    requires Next(c, at, p, m, m') && AllCountable(c, at, m')
    ensures AllCountable(c, at, m) && m.s.server.q < c.queues
  {
    forall q: nat | q < c.queues ensures Countable(at, m, q) {
      assert Countable(at, m', q);
      LocalNext(c, at, p, m, m', q);
    }
  }

  lemma RefinesNext(c: Config, at: Assignment, p: Policy, m: Mem, m': Mem)
    requires c.Valid() && Next(c, at, p, m, m') && Local(c, at, m, m.s.server.q) && Protocol.Reachable(c, m.s)
    ensures Protocol.Reachable(c, m'.s)
  {
    NextIsStep(c, at, p, m, m');
    if m'.s != m.s {
      ReachableStep(c, m.s, m'.s);
    }
  }

  lemma RefinesInit(c: Config, at: Assignment, m: Mem)
    requires c.Valid() && Init(c, at, m)
    ensures Protocol.Reachable(c, m.s)
  {
    assert Protocol.IsRun(c, [m.s]);
  }

  /** The protocol can follow, and every queue is in order. */
  ghost predicate Followed(c: Config, at: Assignment, m: Mem)
    requires c.Valid()
  {
    Protocol.Reachable(c, m.s) && forall q: nat :: q < c.queues ==> Local(c, at, m, q)
  }

  lemma FollowedNext(c: Config, at: Assignment, p: Policy, m: Mem, m': Mem)
    requires c.Valid() && Next(c, at, p, m, m') && Followed(c, at, m) && AllCountable(c, at, m') && m.s.server.q < c.queues
    ensures Followed(c, at, m')
  {
    RefinesNext(c, at, p, m, m');
    forall q: nat | q < c.queues ensures Local(c, at, m', q) {
      assert Countable(at, m', q);
      LocalNext(c, at, p, m, m', q);
    }
  }

  lemma Refines(c: Config, at: Assignment, p: Policy, run: seq<Mem>)
    requires c.Valid() && IsRun(c, at, p, run) && AllCountable(c, at, run[|run| - 1])
    ensures Protocol.Reachable(c, run[|run| - 1].s)
  {
    var Q := m => AllCountable(c, at, m) ==> Followed(c, at, m);
    forall m | Init(c, at, m) ensures Q(m) {
      RefinesInit(c, at, m);
      forall q: nat | q < c.queues ensures Local(c, at, m, q) {
        LocalInit(c, at, m, q);
      }
    }
    forall m, m' | Q(m) && Next(c, at, p, m, m') ensures Q(m') {
      if AllCountable(c, at, m') {
        CountableBefore(c, at, p, m, m');
        FollowedNext(c, at, p, m, m');
      }
    }
    RunKeeps(c, at, p, Q, run);
  }

  /** Until some client's ids wrap, or for ever if the depth divides 2^32, every run is a run of the protocol. */
  lemma RefinesProtocol(c: Config, at: Assignment, p: Policy, m: Mem)
    requires c.Valid() && QueuePair.InMemory(at) && Reachable(c, at, p, m) && |m.s.queues| == c.queues
    requires forall q :: 0 <= q < c.queues ==> Cyclic(at.depth, |m.s.queues[q].rqs|)
    ensures Protocol.Reachable(c, m.s)
  {
    var run :| IsRun(c, at, p, run) && run[|run| - 1] == m;
    forall q: nat | q < c.queues ensures Countable(at, m, q) {
      QueuePair.CyclicIsDistinct(at, |m.s.queues[q].rqs|);
    }
    Refines(c, at, p, run);
  }

  // --- A client that sends and waits in turns ----------------------------------------------------------

  /** Client q sends and waits in turns; all other clients do as they like. */
  predicate TurnMove(q: nat, ends: QueuePair.Turns, m: Mem, move: Move) {
    && q < |m.s.queues| && q < |m.clients|
    && (EnqueuesTo(move, q) ==> |m.s.queues[q].rqs| < ends(|m.clients[q].reaped|))
    && (ReapsFrom(move, q) ==>
          move.tok == |m.clients[q].reaped| && |m.s.queues[q].rqs| == ends(|m.clients[q].reaped|))
  }

  function InTurns(q: nat, ends: QueuePair.Turns): (p: Policy) {
    (m, move) => TurnMove(q, ends, m, move)
  }

  ghost predicate Matched(c: Config, at: Assignment, ends: QueuePair.Turns, m: Mem, q: nat) {
    Local(c, at, m, q) && QueuePair.OrderedInv(at, ends, PairOf(m, q), |m.s.queues[q].done|)
  }

  lemma MatchedByClient(c: Config, at: Assignment, ends: QueuePair.Turns, m: Mem, move: Move, q: nat)
    requires QueuePair.Valid(at) && QueuePair.Growing(ends) && QueuePair.KeepsApart(at, ends) && Matched(c, at, ends, m, q)
    requires CanMove(c, at, m, move) && TurnMove(q, ends, m, move) && (EnqueuesTo(move, q) || ReapsFrom(move, q))
    ensures QueuePair.OrderedInv(at, ends, PairOf(After(c, at, m, move), q), |m.s.queues[q].done|)
  {
    var s, done := PairOf(m, q), |m.s.queues[q].done|;
    if EnqueuesTo(move, q) {
      PairEnqueue(c, at, m, move, q);
      QueuePair.OrderedEnqueue(at, ends, s, done);
    } else {
      PairReap(c, at, m, move, q);
      QueuePair.OrderedReap(at, ends, s, done);
    }
  }

  lemma MatchedByServer(c: Config, at: Assignment, ends: QueuePair.Turns, m: Mem, move: Move, q: nat)
    requires QueuePair.Valid(at) && QueuePair.Growing(ends) && QueuePair.KeepsApart(at, ends) && Matched(c, at, ends, m, q)
    requires CanMove(c, at, m, move) && Completes(m, move, q)
    ensures QueuePair.OrderedInv(at, ends, PairOf(After(c, at, m, move), q), |m.s.queues[q].done| + 1)
  {
    var s, done := PairOf(m, q), |m.s.queues[q].done|;
    PairComplete(c, at, m, move, q);
    QueuePair.OrderedTake(at, ends, s, done);
    QueuePair.OrderedComplete(at, ends, QueuePair.Apply(at, s, QueuePair.Take), done);
  }

  /** Only a completion adds to the completed requests. */
  lemma DoneStep(c: Config, at: Assignment, m: Mem, move: Move, q: nat)
    requires CanMove(c, at, m, move) && q < c.queues
    ensures var m' := After(c, at, m, move);
            |m'.s.queues| == c.queues && |m'.s.queues[q].done| == |m.s.queues[q].done| + if Completes(m, move, q) then 1 else 0
  {
  }

  lemma MatchedStep(c: Config, at: Assignment, ends: QueuePair.Turns, m: Mem, move: Move, q: nat)
    requires QueuePair.Valid(at) && QueuePair.Growing(ends) && QueuePair.KeepsApart(at, ends) && Matched(c, at, ends, m, q)
    requires CanMove(c, at, m, move) && TurnMove(q, ends, m, move)
    ensures Matched(c, at, ends, After(c, at, m, move), q)
  {
    OrderlyStep(c, at, m, move, q);
    ShapedStep(c, at, m, move);
    DoneStep(c, at, m, move, q);
    if EnqueuesTo(move, q) || ReapsFrom(move, q) {
      MatchedByClient(c, at, ends, m, move, q);
    } else if Completes(m, move, q) {
      MatchedByServer(c, at, ends, m, move, q);
    } else {
      PairSame(c, at, m, move, q);
    }
  }

  lemma MatchedNext(c: Config, at: Assignment, ends: QueuePair.Turns, m: Mem, m': Mem, q: nat)
    requires QueuePair.Valid(at) && QueuePair.Growing(ends) && QueuePair.KeepsApart(at, ends) && Matched(c, at, ends, m, q)
    requires Next(c, at, InTurns(q, ends), m, m')
    ensures Matched(c, at, ends, m', q)
  {
    var move :| CanMove(c, at, m, move) && InTurns(q, ends)(m, move) && m' == After(c, at, m, move);
    MatchedStep(c, at, ends, m, move, q);
  }

  lemma MatchedInit(c: Config, at: Assignment, ends: QueuePair.Turns, m: Mem, q: nat)
    requires Init(c, at, m) && q < c.queues
    ensures Matched(c, at, ends, m, q)
  {
    LocalInit(c, at, m, q);
  }

  lemma MatchedHolds(c: Config, at: Assignment, ends: QueuePair.Turns, run: seq<Mem>, q: nat)
    requires QueuePair.Valid(at) && QueuePair.Growing(ends) && QueuePair.KeepsApart(at, ends)
    requires IsRun(c, at, InTurns(q, ends), run) && q < c.queues
    ensures Matched(c, at, ends, run[|run| - 1], q)
  {
    var Q := m => Matched(c, at, ends, m, q);
    forall m | Init(c, at, m) ensures Q(m) {
      MatchedInit(c, at, ends, m, q);
    }
    forall m, m' | Q(m) && Next(c, at, InTurns(q, ends), m, m') ensures Q(m') {
      MatchedNext(c, at, ends, m, m', q);
    }
    RunKeeps(c, at, InTurns(q, ends), Q, run);
  }

  lemma TurnsGetTheirOwn(c: Config, at: Assignment, ends: QueuePair.Turns, m: Mem, q: nat)
    requires QueuePair.Valid(at) && QueuePair.Growing(ends) && QueuePair.KeepsApart(at, ends)
    requires Reachable(c, at, InTurns(q, ends), m) && q < c.queues
    ensures q < |m.s.queues| && q < |m.clients| && InOrder(m.s.queues[q])
    ensures forall i :: 0 <= i < |m.clients[q].reaped| ==> m.clients[q].reaped[i].0 == m.clients[q].reaped[i].1
  {
    var run :| IsRun(c, at, InTurns(q, ends), run) && run[|run| - 1] == m;
    MatchedHolds(c, at, ends, run, q);
    LocalInOrder(c, at, m, q);
  }

  /**
   End to end: whatever the other clients, the kernel and the device do, a batch client of this
   server has its requests completed in order, and every wait returns its own request, if the wrap
   does no harm to its batches.
   */
  lemma BatchGetsItsOwn(c: Config, at: Assignment, k: nat, m: Mem, q: nat)
    requires QueuePair.InMemory(at) && 0 < k && QueuePair.SurvivesWrap(at.depth, k) && q < c.queues
    requires Reachable(c, at, InTurns(q, QueuePair.Ends(k)), m)
    ensures q < |m.s.queues| && q < |m.clients| && InOrder(m.s.queues[q])
    ensures forall i :: 0 <= i < |m.clients[q].reaped| ==> m.clients[q].reaped[i].0 == m.clients[q].reaped[i].1
  {
    QueuePair.EndsGrow(k);
    QueuePair.BatchesKeepApart(at, k);
    TurnsGetTheirOwn(c, at, QueuePair.Ends(k), m, q);
  }

  // --- A batch that is too long to return -----------------------------------------------------------------

  /** Nothing was reaped, and every completed request is in its bucket. */
  ghost predicate Unreaped(c: Config, at: Assignment, m: Mem, q: nat) {
    && Local(c, at, m, q) && m.clients[q].reaped == [] && |m.s.queues[q].done| <= c.depth
    && forall id: nat :: id < |m.s.queues[q].done| ==> m.clients[q].cq[at.slot(id)] == id
  }

  lemma UnreapedStep(c: Config, at: Assignment, ends: QueuePair.Turns, m: Mem, move: Move, q: nat)
    requires CanMove(c, at, m, move) && TurnMove(q, ends, m, move) && Unreaped(c, at, m, q)
    requires 2 * c.depth < ends(0) && QueuePair.DistinctBelow(at, 2 * c.depth) && at.slot(c.depth) == at.slot(0)
    ensures Unreaped(c, at, After(c, at, m, move), q)
  {
    assert !ReapsFrom(move, q);
    assert EnqueuesTo(move, q) ==> QueuePair.SlotFree(at, PairOf(m, q));
    LocalStep(c, at, m, move, q);
    DoneStep(c, at, m, move, q);
    if EnqueuesTo(move, q) {
      PairEnqueue(c, at, m, move, q);
    } else if Completes(m, move, q) {
      PairComplete(c, at, m, move, q);
      UnreapedComplete(c, at, m, move, q);
    } else {
      PairSame(c, at, m, move, q);
    }
  }

  lemma UnreapedComplete(c: Config, at: Assignment, m: Mem, move: Move, q: nat)
    requires CanMove(c, at, m, move) && Unreaped(c, at, m, q) && Completes(m, move, q)
    requires QueuePair.DistinctBelow(at, 2 * c.depth) && at.slot(c.depth) == at.slot(0)
    ensures |m.s.queues[q].done| < c.depth && m.hand == |m.s.queues[q].done|
    ensures forall id: nat :: id <= m.hand ==> After(c, at, m, move).clients[q].cq[at.slot(id)] == id
  {
    assert m.hand == |m.s.queues[q].done|;
    forall id: nat | id <= m.hand ensures After(c, at, m, move).clients[q].cq[at.slot(id)] == id {
      assert id < m.hand ==> at.slot(id) != at.slot(m.hand);
    }
  }

  lemma UnreapedInit(c: Config, at: Assignment, m: Mem, q: nat)
    requires Init(c, at, m) && q < c.queues
    ensures Unreaped(c, at, m, q)
  {
    LocalInit(c, at, m, q);
  }

  lemma UnreapedHolds(c: Config, at: Assignment, ends: QueuePair.Turns, run: seq<Mem>, q: nat)
    requires IsRun(c, at, InTurns(q, ends), run) && q < c.queues
    requires 2 * c.depth < ends(0) && QueuePair.DistinctBelow(at, 2 * c.depth) && at.slot(c.depth) == at.slot(0)
    ensures Unreaped(c, at, run[|run| - 1], q)
  {
    var Q := m => Unreaped(c, at, m, q);
    forall m | Init(c, at, m) ensures Q(m) {
      UnreapedInit(c, at, m, q);
    }
    forall m, m' | Q(m) && Next(c, at, InTurns(q, ends), m, m') ensures Q(m') {
      var move :| CanMove(c, at, m, move) && InTurns(q, ends)(m, move) && m' == After(c, at, m, move);
      UnreapedStep(c, at, ends, m, move, q);
    }
    RunKeeps(c, at, InTurns(q, ends), Q, run);
  }

  lemma TooLongNeverReturns(c: Config, at: Assignment, ends: QueuePair.Turns, m: Mem, q: nat)
    requires Reachable(c, at, InTurns(q, ends), m) && q < c.queues
    requires 2 * c.depth < ends(0) && QueuePair.DistinctBelow(at, 2 * c.depth) && at.slot(c.depth) == at.slot(0)
    ensures q < |m.s.queues| && q < |m.clients| && m.clients[q].reaped == [] && |m.s.queues[q].rqs| <= 2 * c.depth
  {
    var run :| IsRun(c, at, InTurns(q, ends), run) && run[|run| - 1] == m;
    UnreapedHolds(c, at, ends, run, q);
  }

  /** The bucket after the last is the first. */
  lemma AroundOnce(at: Assignment)
    requires QueuePair.InMemory(at) && 2 * at.depth <= WRAP
    ensures QueuePair.DistinctBelow(at, 2 * at.depth) && at.slot(at.depth) == at.slot(0)
  {
    QueuePair.CyclicIsDistinct(at, 2 * at.depth);
    DivModUnique(at.depth, at.depth, 1, 0);
    DivModUnique(0, at.depth, 0, 0);
  }

  /**
   A batch of more than twice the depth never returns: the server completes as many requests as
   there are buckets, the ring holds as many again, and the client waits only when all are sent.
   */
  lemma LongBatchNeverReturns(c: Config, at: Assignment, k: nat, m: Mem, q: nat)
    requires QueuePair.InMemory(at) && at.depth == c.depth && 2 * c.depth <= WRAP && 2 * c.depth < k && q < c.queues
    requires Reachable(c, at, InTurns(q, QueuePair.Ends(k)), m)
    ensures q < |m.s.queues| && q < |m.clients| && m.clients[q].reaped == [] && |m.s.queues[q].rqs| <= 2 * c.depth
  {
    AroundOnce(at);
    QueuePair.EndsOf(k, 0);
    TooLongNeverReturns(c, at, QueuePair.Ends(k), m, q);
  }
}
