/**
 The run that shows what a client ring whose depth does not divide 2^32 does at the wrap: one more
 client request than the remainder is pending, the last has overwritten the first, and the server
 completes the last one first.
 */
module ClientWitness {
  import opened Words
  import opened RequestMap
  import opened Protocol
  import opened ProtocolInvariant
  import opened ProtocolSteps
  import opened ClientMemory
  import QueuePair

  function Anything(): (p: Policy) { (_, _) => true }

  ghost predicate Arises(c: Config, at: Assignment, m: Mem) {
    ClientMemory.Reachable(c, at, Anything(), m)
  }

  lemma Make(c: Config, at: Assignment, m: Mem, move: Move)
    requires Arises(c, at, m) && CanMove(c, at, m, move)
    ensures Arises(c, at, After(c, at, m, move))
  {
    var run :| ClientMemory.IsRun(c, at, Anything(), run) && run[|run| - 1] == m;
    var m' := After(c, at, m, move);
    assert (run + [m'])[..|run|] == run;
    assert ClientMemory.Next(c, at, Anything(), m, m');
    assert ClientMemory.IsRun(c, at, Anything(), run + [m']);
  }

  /** No move leaves R. */
  ghost predicate Steady(c: Config, at: Assignment, R: Mem -> bool) {
    forall m, m' :: R(m) && ClientMemory.Next(c, at, Anything(), m, m') ==> R(m')
  }

  lemma Do(c: Config, at: Assignment, R: Mem -> bool, m: Mem, move: Move)
    requires Steady(c, at, R) && R(m) && CanMove(c, at, m, move)
    ensures R(After(c, at, m, move))
  {
    assert ClientMemory.Next(c, at, Anything(), m, After(c, at, m, move));
  }

  lemma ArisesSteady(c: Config, at: Assignment) returns (R: Mem -> bool)
    ensures Steady(c, at, R) && forall m :: R(m) <==> Arises(c, at, m)
    ensures forall m :: ClientMemory.Init(c, at, m) ==> R(m)
  {
    R := m => Arises(c, at, m);
    forall m | ClientMemory.Init(c, at, m) ensures R(m) {
      assert ClientMemory.IsRun(c, at, Anything(), [m]);
      assert [m][0] == m;
    }
    forall m, m' | R(m) && ClientMemory.Next(c, at, Anything(), m, m') ensures R(m') {
      var move :| CanMove(c, at, m, move) && m' == After(c, at, m, move);
      Make(c, at, m, move);
    }
  }

  // --- Runs with one request at a time are runs in memory ------------------------------------------

  /** The client has reaped all completions and waits for the rest. */
  ghost predicate Caught(m: Mem, q: nat)
    requires q < |m.s.queues| && q < |m.clients|
  {
    && (forall b :: 0 <= b < |m.clients[q].cq| ==> m.clients[q].cq[b] == INVALID)
    && (forall id: nat :: |m.s.queues[q].done| <= id < |m.s.queues[q].rqs| ==> id in m.clients[q].waiting)
  }

  ghost predicate Tidy(c: Config, at: Assignment, R: Mem -> bool, m: Mem) {
    && Steady(c, at, R) && R(m) && Shaped(c, at, m)
    && forall q: nat :: q < c.queues ==> Local(c, at, m, q) && Caught(m, q)
  }

  /** The same system, whose clients have one request at a time. */
  function Single(c: Config): (r: Config) { c.(depth := 1) }

  lemma SingleSame(c: Config, s: State, step: Step)
    requires c.Valid() && Enabled(Single(c), s, step)
    ensures Enabled(c, s, step) && Apply(Single(c), s, step) == Apply(c, s, step)
  {
  }

  lemma SingleMoves(c: Config, at: Assignment, R: Mem -> bool, m: Mem, step: Step)
    requires Tidy(c, at, R, m) && Enabled(Single(c), m.s, step)
    ensures CanMove(c, at, m, By(step)) && After(c, at, m, By(step)).s == Apply(c, m.s, step)
  {
    SingleSame(c, m.s, step);
    if OnHand(step) {
      FocusIsExact(c, at, m);
    }
    assert CanMove(c, at, m, By(step));
    ActedExactly(c, at, m, step);
  }

  lemma TidyLocal(c: Config, at: Assignment, R: Mem -> bool, m: Mem, step: Step, q: nat)
    requires Tidy(c, at, R, m) && Enabled(Single(c), m.s, step) && CanMove(c, at, m, By(step)) && q < c.queues
    ensures Local(c, at, After(c, at, m, By(step)), q)
  {
    assert Local(c, at, m, q);
    LocalStep(c, at, m, By(step), q);
  }

  /** A step that completes nothing leaves all completions reaped. */
  lemma CaughtUp(c: Config, at: Assignment, R: Mem -> bool, m: Mem, step: Step, q: nat)
    requires Tidy(c, at, R, m) && CanMove(c, at, m, By(step)) && q < c.queues && !Completes(m, By(step), q)
    ensures Shaped(c, at, After(c, at, m, By(step))) && Caught(After(c, at, m, By(step)), q)
  {
    assert Local(c, at, m, q) && Caught(m, q);
    var m' := After(c, at, m, By(step));
    ShapedStep(c, at, m, By(step));
    DoneStep(c, at, m, By(step), q);
    if EnqueuesTo(By(step), q) {
      PairEnqueue(c, at, m, By(step), q);
    } else {
      PairSame(c, at, m, By(step), q);
    }
    assert m'.clients[q].cq == m.clients[q].cq && m.clients[q].waiting <= m'.clients[q].waiting;
    forall id: nat | |m'.s.queues[q].done| <= id < |m'.s.queues[q].rqs| ensures id in m'.clients[q].waiting {
      assert id < |m.s.queues[q].rqs| ==> id in m.clients[q].waiting;
    }
  }

  lemma TidyStep(c: Config, at: Assignment, R: Mem -> bool, m: Mem, step: Step) returns (m': Mem)
    requires Tidy(c, at, R, m) && Enabled(Single(c), m.s, step) && !step.ServerComplete?
    ensures Tidy(c, at, R, m') && m'.s == Apply(Single(c), m.s, step)
  {
    SingleMoves(c, at, R, m, step);
    SingleSame(c, m.s, step);
    m' := After(c, at, m, By(step));
    Do(c, at, R, m, By(step));
    ShapedStep(c, at, m, By(step));
    forall q: nat | q < c.queues ensures Local(c, at, m', q) && Caught(m', q) {
      TidyLocal(c, at, R, m, step, q);
      CaughtUp(c, at, R, m, step, q);
    }
  }

  /** After a completion the client reaps it at once. */
  lemma TidyComplete(c: Config, at: Assignment, R: Mem -> bool, m: Mem) returns (m': Mem)
    requires Tidy(c, at, R, m) && Enabled(Single(c), m.s, ServerComplete)
    ensures Tidy(c, at, R, m') && m'.s == Apply(Single(c), m.s, ServerComplete)
  {
    var step, p := ServerComplete, m.s.server.q;
    assert Local(c, at, m, p) && Caught(m, p);
    SingleMoves(c, at, R, m, step);
    SingleSame(c, m.s, step);
    var m1 := After(c, at, m, By(step));
    Do(c, at, R, m, By(step));
    ShapedStep(c, at, m, By(step));
    forall q: nat | q < c.queues ensures Local(c, at, m1, q) {
      TidyLocal(c, at, R, m, step, q);
    }
    assert m.hand in m1.clients[p].waiting && m1.clients[p].cq == m.clients[p].cq[at.slot(m.hand) := m.hand];
    m' := After(c, at, m1, Reap(p, m.hand));
    Do(c, at, R, m1, Reap(p, m.hand));
    ShapedStep(c, at, m1, Reap(p, m.hand));
    forall q: nat | q < c.queues ensures Local(c, at, m', q) && Caught(m', q) {
      LocalStep(c, at, m1, Reap(p, m.hand), q);
      if q != p {
        CaughtUp(c, at, R, m, step, q);
      }
    }
  }

  lemma Lifted(c: Config, at: Assignment, R: Mem -> bool) returns (P: State -> bool)
    requires c.Valid() && QueuePair.Valid(at) && at.depth == c.depth && Steady(c, at, R)
    requires forall m :: ClientMemory.Init(c, at, m) ==> R(m)
    ensures Closed(Single(c), P) && P(Initial(c)) && forall s :: P(s) ==> exists m :: Tidy(c, at, R, m) && m.s == s
  {
    P := s => exists m :: Tidy(c, at, R, m) && m.s == s;
    forall s, s' | P(s) && Protocol.Next(Single(c), s, s') ensures P(s') {
      var m :| Tidy(c, at, R, m) && m.s == s;
      var step :| IsNext(Single(c), s, s', step);
      var m';
      if step.ServerComplete? {
        m' := TidyComplete(c, at, R, m);
      } else {
        m' := TidyStep(c, at, R, m, step);
      }
      assert m'.s == s';
    }
    var m0 := New(c, at, R);
  }

  lemma New(c: Config, at: Assignment, R: Mem -> bool) returns (m: Mem)
    requires c.Valid() && QueuePair.Valid(at) && at.depth == c.depth && Steady(c, at, R)
    requires forall m :: ClientMemory.Init(c, at, m) ==> R(m)
    ensures Tidy(c, at, R, m) && m.s == Initial(c)
  {
    var cl := Client(seq(c.depth, _ => 0), seq(c.depth, _ => INVALID), {}, []);
    m := Mem(Initial(c), seq(c.queues, _ => cl), 0);
    assert ClientMemory.Init(c, at, m);
    forall q: nat | q < c.queues ensures Local(c, at, m, q) {
      LocalInit(c, at, m, q);
    }
  }

  // --- One request too many ------------------------------------------------------------------------

  /** Nothing goes on but that queue 0 has e requests pending, all new, behind `base` that came and went. */
  ghost predicate Filling(c: Config, at: Assignment, R: Mem -> bool, m: Mem, base: nat, e: nat) {
    && Steady(c, at, R) && R(m) && Shaped(c, at, m) && Usual(c, m.s) && OthersEmpty(m.s)
    && m.s.server == Visit(0) && m.s.kernel == Idle && |m.s.sent| == base == m.s.taken
    && (forall p: nat :: p in m.s.free <==> p < c.pages)
    && (forall b :: 0 <= b < c.buckets ==> m.s.cq[b] == INVALID)
    && (forall b :: 0 <= b < c.depth ==> m.clients[0].cq[b] == INVALID)
    && m.s.queues[0].dequeued == base == |m.s.queues[0].done| && |m.s.queues[0].rqs| == base + e
    && (forall i :: base <= i < base + e ==> m.s.queues[0].rqs[i] == ClientRq(IpcTest, 0, 0, 0))
    && (0 < e ==> m.clients[0].slots[at.slot(base + e - 1)] == base + e - 1)
  }

  lemma FillOne(c: Config, at: Assignment, R: Mem -> bool, m: Mem, base: nat, e: nat) returns (m': Mem)
    requires Filling(c, at, R, m, base, e) && e < c.depth
    ensures Filling(c, at, R, m', base, e + 1)
  {
    var move := By(ClientEnqueue(0, IpcTest));
    Do(c, at, R, m, move);
    ShapedStep(c, at, m, move);
    m' := After(c, at, m, move);
  }

  lemma {:induction false} FillUpTo(c: Config, at: Assignment, R: Mem -> bool, m: Mem, base: nat, e: nat) returns (m': Mem)
    requires Filling(c, at, R, m, base, 0) && e <= c.depth
    ensures Filling(c, at, R, m', base, e)
    decreases e
  {
    m' := m;
    if e > 0 {
      m' := FillUpTo(c, at, R, m, base, e - 1);
      m' := FillOne(c, at, R, m', base, e - 1);
    }
  }

  /** `base` requests came and went. */
  lemma QuietInMemory(c: Config, at: Assignment, R: Mem -> bool, base: nat) returns (m: Mem)
    requires c.Valid() && QueuePair.Valid(at) && at.depth == c.depth && 0 < c.pages && Steady(c, at, R)
    requires forall m :: ClientMemory.Init(c, at, m) ==> R(m)
    ensures Filling(c, at, R, m, base, 0)
  {
    var P := Lifted(c, at, R);
    var s := QuietAfter(Single(c), P, base);
    m :| Tidy(c, at, R, m) && m.s == s;
    assert Local(c, at, m, 0) && Caught(m, 0);
  }

  /** Queue 0's oldest request is lost: the ring has request y in its place. */
  ghost predicate Jammed(c: Config, at: Assignment, R: Mem -> bool, m: Mem, base: nat, y: nat) {
    && Steady(c, at, R) && R(m) && Shaped(c, at, m) && Usual(c, m.s) && OthersEmpty(m.s) && 0 < c.pages
    && m.s.queues[0].dequeued == base == |m.s.queues[0].done| && |m.s.queues[0].rqs| == y + 1 && base < y
    && m.clients[0].slots[at.slot(base)] == y && m.clients[0].cq[at.slot(y)] == INVALID
    && m.s.queues[0].rqs[y].kind == IpcTest
  }

  /** The server comes to queue 0 and takes request y in hand. */
  lemma TakesUp(c: Config, at: Assignment, R: Mem -> bool, m: Mem, base: nat, y: nat) returns (m': Mem)
    requires Jammed(c, at, R, m, base, y) && m.s.server == Visit(0)
    ensures Jammed(c, at, R, m', base, y) && m' == m.(s := m.s.(server := Run(0, y + 1 - base)), hand := y)
  {
    Do(c, at, R, m, By(ServerVisit));
    var m1 := After(c, at, m, By(ServerVisit));
    assert m1 == m.(s := m.s.(server := Peek(0, y + 1 - base)));
    Do(c, at, R, m1, By(ServerPeek));
    m' := After(c, at, m1, By(ServerPeek));
  }

  /** It starts a kernel request for it. */
  lemma StartsFor(c: Config, at: Assignment, R: Mem -> bool, m: Mem, base: nat, y: nat) returns (m': Mem)
    requires Jammed(c, at, R, m, base, y) && m.s.server.Run? && m.s.server.q == 0 && m.hand == y
    requires m.s.queues[0].rqs[y].code == 0 && 0 in m.s.free
    ensures Jammed(c, at, R, m', base, y)
    ensures m' == m.(s := m.s.(free := m.s.free - {0}, mem := m.s.mem[0 := m.s.mem[0].(op := StartIpcTest)],
                               owner := m.s.owner[0 := (0, y)], server := Send(0, 0, 1)))
  {
    Do(c, at, R, m, By(ServerStart(0)));
    m' := After(c, at, m, By(ServerStart(0)));
    SameQueues(m, m'.s.queues);
  }

  lemma SameQueues(m: Mem, queues: seq<ClientQueue>)
    requires m.s.server.q < |m.s.queues|
    requires var q := m.s.server.q;
             queues == Focus(m).queues[q := Focus(m).queues[q].(dequeued := m.s.queues[q].dequeued)]
    ensures queues == m.s.queues
  {
  }

  /** It sends the kernel request. */
  lemma SendsFor(c: Config, at: Assignment, R: Mem -> bool, m: Mem, base: nat, y: nat) returns (m': Mem)
    requires Jammed(c, at, R, m, base, y) && m.s.server == Send(0, 0, 1) && m.hand == y && |m.s.sent| < m.s.taken + c.buckets
    ensures Jammed(c, at, R, m', base, y) && m'.s.server == Visit(c.After(0)) && m'.clients == m.clients
    ensures m'.s.queues[0].rqs[y].code == 1 && m'.s.queues[0].rqs[y].tok == |m.s.sent|
    ensures m'.s.mem == m.s.mem[0 := m.s.mem[0].(reqId := |m.s.sent|)]
    ensures m'.s.sent == m.s.sent + [0] && m'.s.taken == m.s.taken && m'.s.kernel == m.s.kernel && m'.s.cq == m.s.cq
    ensures m'.s.ring == m.s.ring[Slot(|m.s.sent|, c.buckets) := 0]
  {
    Do(c, at, R, m, By(ServerSend));
    m' := After(c, at, m, By(ServerSend));
    ShapedStep(c, at, m, By(ServerSend));
  }

  /** The server passes over the queues that are empty and comes back to queue 0. */
  lemma {:induction false} ComesBack(c: Config, at: Assignment, R: Mem -> bool, m: Mem, base: nat, y: nat) returns (m': Mem)
    requires Jammed(c, at, R, m, base, y) && m.s.server.Visit?
    ensures Jammed(c, at, R, m', base, y) && m' == m.(s := m.s.(server := Visit(0)))
    decreases if m.s.server.q == 0 then 0 else c.queues - m.s.server.q
  {
    var q := m.s.server.q;
    m' := m;
    if q != 0 {
      assert m.s.queues[q] == ClientQueue([], 0, []);
      Do(c, at, R, m, By(ServerVisit));
      var m1 := After(c, at, m, By(ServerVisit));
      assert m1 == m.(s := m.s.(server := Peek(q, 0)));
      Do(c, at, R, m1, By(ServerPeek));
      var m2 := After(c, at, m1, By(ServerPeek));
      assert m2 == m.(s := m.s.(server := Visit(c.After(q))));
      m' := ComesBack(c, at, R, m2, base, y);
    }
  }

  lemma KernelTakes(c: Config, at: Assignment, R: Mem -> bool, m: Mem, base: nat, y: nat) returns (m': Mem)
    requires Jammed(c, at, R, m, base, y) && m.s.kernel == Idle && m.s.taken < |m.s.sent|
    requires m.s.ring[Slot(m.s.taken, c.buckets)] == 0
    ensures Jammed(c, at, R, m', base, y) && m' == m.(s := m.s.(taken := m.s.taken + 1, kernel := Busy(0)))
  {
    Do(c, at, R, m, By(KernelTake));
    m' := After(c, at, m, By(KernelTake));
  }

  lemma KernelRuns(c: Config, at: Assignment, R: Mem -> bool, m: Mem, base: nat, y: nat) returns (m': Mem)
    requires Jammed(c, at, R, m, base, y) && m.s.kernel == Busy(0) && m.s.mem[0].op == StartIpcTest
    ensures Jammed(c, at, R, m', base, y) && m' == m.(s := m.s.(kernel := Post(0)))
  {
    Do(c, at, R, m, By(KernelRun(false, false)));
    m' := After(c, at, m, By(KernelRun(false, false)));
  }

  lemma KernelPosts(c: Config, at: Assignment, R: Mem -> bool, m: Mem, base: nat, y: nat) returns (m': Mem)
    requires Jammed(c, at, R, m, base, y) && m.s.kernel == Post(0) && Lookup(m.s.cq, m.s.mem[0].reqId) == INVALID
    ensures Jammed(c, at, R, m', base, y)
    ensures m' == m.(s := m.s.(cq := Put(m.s.cq, m.s.mem[0].reqId, 0), kernel := Idle))
  {
    Do(c, at, R, m, By(KernelPost));
    m' := After(c, at, m, By(KernelPost));
  }

  /** The server finds the completion. */
  lemma Finds(c: Config, at: Assignment, R: Mem -> bool, m: Mem, base: nat, y: nat) returns (m': Mem)
    requires Jammed(c, at, R, m, base, y) && m.s.server.Run? && m.s.server.q == 0 && m.hand == y
    requires m.s.queues[0].rqs[y].code == 1 && Lookup(m.s.cq, m.s.queues[0].rqs[y].tok) == 0
    ensures Jammed(c, at, R, m', base, y) && m'.hand == y && m'.s.server == Got(0, m.s.server.left, 0)
  {
    Do(c, at, R, m, By(ServerCheck));
    m' := After(c, at, m, By(ServerCheck));
    SameQueues(m, m'.s.queues);
  }

  lemma Resumes(c: Config, at: Assignment, R: Mem -> bool, m: Mem, base: nat, y: nat) returns (m': Mem)
    requires Jammed(c, at, R, m, base, y) && m.s.server.Got? && m.s.server.q == 0 == m.s.server.page && m.hand == y
    ensures Jammed(c, at, R, m', base, y) && m'.hand == y && m'.s.server == Finish(0, m.s.server.left, 0)
  {
    Do(c, at, R, m, By(ServerGot));
    m' := After(c, at, m, By(ServerGot));
    ShapedStep(c, at, m, By(ServerGot));
  }

  /** The server completes request y. */
  lemma CompletesWrong(c: Config, at: Assignment, R: Mem -> bool, m: Mem, base: nat, y: nat) returns (m': Mem)
    requires Jammed(c, at, R, m, base, y) && m.s.server.Finish? && m.s.server.q == 0 && m.hand == y
    ensures R(m') && 0 < |m'.s.queues| && !InOrder(m'.s.queues[0])
  {
    Do(c, at, R, m, By(ServerComplete));
    m' := After(c, at, m, By(ServerComplete));
    assert m'.s.queues[0].done == m.s.queues[0].done + [y];
    assert m'.s.queues[0].done[base] == y;
  }

  /** The server works on request y until it has a completion for it. */
  lemma WorksOnWrong(c: Config, at: Assignment, R: Mem -> bool, m: Mem, base: nat, y: nat) returns (m': Mem)
    requires base < y && Filling(c, at, R, m, base, y + 1 - base) && at.slot(base) == at.slot(y) && 0 < c.pages
    ensures Jammed(c, at, R, m', base, y) && m'.s.server == Visit(0)
    ensures m'.s.queues[0].rqs[y].code == 1 && Lookup(m'.s.cq, m'.s.queues[0].rqs[y].tok) == 0
  {
    m' := TakesUp(c, at, R, m, base, y);
    m' := StartsFor(c, at, R, m', base, y);
    m' := SendsFor(c, at, R, m', base, y);
    m' := ComesBack(c, at, R, m', base, y);
    m' := KernelTakes(c, at, R, m', base, y);
    m' := KernelRuns(c, at, R, m', base, y);
    m' := KernelPosts(c, at, R, m', base, y);
  }

  /** If counts `base` and y share a slot, the server completes request y in the place of the oldest one. */
  lemma OutOfOrder(c: Config, at: Assignment, R: Mem -> bool, base: nat, y: nat) returns (m: Mem)
    requires c.Valid() && QueuePair.Valid(at) && at.depth == c.depth && 0 < c.pages && Steady(c, at, R)
    requires forall m :: ClientMemory.Init(c, at, m) ==> R(m)
    requires base < y < base + c.depth && at.slot(base) == at.slot(y)
    ensures R(m) && 0 < |m.s.queues| && !InOrder(m.s.queues[0])
  {
    m := QuietInMemory(c, at, R, base);
    m := FillUpTo(c, at, R, m, base, y + 1 - base);
    m := WorksOnWrong(c, at, R, m, base, y);
    m := CompletedTooEarly(c, at, R, m, base, y);
  }

  lemma CompletedTooEarly(c: Config, at: Assignment, R: Mem -> bool, m: Mem, base: nat, y: nat) returns (m': Mem)
    requires Jammed(c, at, R, m, base, y) && m.s.server == Visit(0)
    requires m.s.queues[0].rqs[y].code == 1 && Lookup(m.s.cq, m.s.queues[0].rqs[y].tok) == 0
    ensures R(m') && 0 < |m'.s.queues| && !InOrder(m'.s.queues[0])
  {
    m' := TakesUp(c, at, R, m, base, y);
    m' := Finds(c, at, R, m', base, y);
    m' := Resumes(c, at, R, m', base, y);
    m' := CompletesWrong(c, at, R, m', base, y);
  }

  /**
   In all runs the server completes the requests of every queue in order, each once, if and only if
   the depth of the queues divides 2^32.
   */
  lemma CompletedInOrderIff(c: Config, at: Assignment)
    requires c.Valid() && QueuePair.InMemory(at) && at.depth == c.depth && 0 < c.pages
    ensures (forall m, q: nat :: Arises(c, at, m) && q < |m.s.queues| && q < c.queues ==> InOrder(m.s.queues[q]))
            <==> WRAP % c.depth == 0
  {
    if WRAP % c.depth == 0 {
      forall m, q: nat | Arises(c, at, m) && q < |m.s.queues| && q < c.queues ensures InOrder(m.s.queues[q]) {
        CompletedInOrder(c, at, Anything(), m, q);
      }
    } else {
      WindowIsTight(c.depth, 0);
      var R := ArisesSteady(c, at);
      var m := OutOfOrder(c, at, R, WRAP - Window(c.depth), WRAP);
    }
  }
}
