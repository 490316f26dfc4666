/**
 Building blocks of explicit runs: what the parties do for one request, and runs of any length in
 which queue 0 sends one request after the other.

 The runs stay in a set P of states that no step leaves; for the reachable states that makes them
 runs of the protocol.
 */
module ProtocolSteps {
  import opened Words
  import opened RequestMap
  import opened Protocol

  /** P holds in every state that a step leads to from a state with P. */
  ghost predicate Closed(c: Config, P: State -> bool) {
    c.Valid() && forall s, s' :: P(s) && Next(c, s, s') ==> P(s')
  }

  lemma Do(c: Config, P: State -> bool, s: State, step: Step) returns (s': State)
    requires Closed(c, P) && P(s) && Enabled(c, s, step)
    ensures P(s') && s' == Apply(c, s, step)
  {
    s' := Apply(c, s, step);
    assert IsNext(c, s, s', step);
    assert Next(c, s, s');
  }

  function AllPages(n: nat): (ps: set<nat>)
    ensures forall p: nat :: p in ps <==> p < n
  {
    if n == 0 then {} else AllPages(n - 1) + {n - 1}
  }

  /** The initial state. */
  function Initial(c: Config): (s: State)
    ensures Init(c, s)
  {
    State(seq(c.queues, i => ClientQueue([], 0, [])), Visit(0), [], 0, seq(c.buckets, i => 0), seq(c.buckets, i => INVALID),
          Idle, seq(c.pages, i => KernRq(0, SubmitIo, false, false)), AllPages(c.pages), {}, [],
          seq(c.pages, i => (0, 0)), {}, {}, {})
  }

  ghost predicate Usual(c: Config, s: State) {
    && s.server.q < c.queues == |s.queues| && |s.ring| == c.buckets == |s.cq|
    && |s.mem| == c.pages == |s.owner| && s.taken <= |s.sent|
  }

  /** The server comes to queue q and runs the module on its only request. */
  lemma Enter(c: Config, P: State -> bool, s: State, q: nat) returns (s': State)
    requires Closed(c, P) && P(s) && Usual(c, s) && s.server == Visit(q)
    requires |s.queues[q].rqs| == s.queues[q].dequeued + 1
    ensures P(s') && s' == s.(server := Run(q, 1))
  {
    var s1 := Do(c, P, s, ServerVisit);
    assert s1 == s.(server := Peek(q, 1));
    s' := Do(c, P, s1, ServerPeek);
  }

  /** A client of an idle queue sends a request and the server allocates a page for it. */
  lemma StartSteps(c: Config, P: State -> bool, s: State, q: nat, page: nat, kind: Kind) returns (s': State)
    requires Closed(c, P) && P(s) && Usual(c, s) && s.server == Visit(q)
    requires |s.queues[q].rqs| == s.queues[q].dequeued && page in s.free && page < c.pages
    ensures P(s')
    ensures var cl := s.queues[q];
            s' == s.(queues := s.queues[q := cl.(rqs := cl.rqs + [ClientRq(kind, 0, 0, 0)])],
                     server := Send(q, page, 1), mem := s.mem[page := StartRq(kind, s.mem[page])],
                     owner := s.owner[page := (q, cl.dequeued)], free := s.free - {page})
  {
    var s1 := Do(c, P, s, ClientEnqueue(q, kind));
    var s2 := Enter(c, P, s1, q);
    s' := Do(c, P, s2, ServerStart(page));
  }

  /** The server enqueues the page it holds. */
  lemma SendStep(c: Config, P: State -> bool, s: State, q: nat, page: nat, code: nat) returns (s': State)
    requires Closed(c, P) && P(s) && Usual(c, s) && s.server == Send(q, page, code) && page < c.pages
    requires |s.queues[q].rqs| == s.queues[q].dequeued + 1 && |s.sent| < s.taken + c.buckets
    ensures P(s')
    ensures var cl := s.queues[q];
            var d := cl.dequeued;
            s' == s.(queues := s.queues[q := cl.(rqs := cl.rqs[d := cl.rqs[d].(tok := |s.sent|, code := code)])],
                     server := Visit(c.After(q)), sent := s.sent + [page], issuer := s.issuer + [q],
                     ring := s.ring[Slot(|s.sent|, c.buckets) := page],
                     mem := s.mem[page := s.mem[page].(reqId := |s.sent|)])
  {
    s' := Do(c, P, s, ServerSend);
  }

  /** An idle kernel worker takes the next request, if there is one. */
  lemma TakeIfIdle(c: Config, P: State -> bool, s: State) returns (s': State)
    requires Closed(c, P) && P(s) && Usual(c, s)
    ensures P(s')
    ensures s' == if s.kernel.Idle? && s.taken < |s.sent|
                  then s.(taken := s.taken + 1, kernel := Busy(s.ring[Slot(s.taken, c.buckets)])) else s
  {
    if s.kernel.Idle? && s.taken < |s.sent| {
      s' := Do(c, P, s, KernelTake);
    } else {
      s' := s;
    }
  }

  /** The kernel worker processes the page it holds, without the device, and posts it. */
  lemma PostSteps(c: Config, P: State -> bool, s: State) returns (s': State)
    requires Closed(c, P) && P(s) && Usual(c, s) && s.kernel.Busy? && s.kernel.page < c.pages
    requires Lookup(s.cq, s.mem[s.kernel.page].reqId) == INVALID
    ensures P(s')
    ensures var p := s.kernel.page;
            s' == s.(mem := s.mem[p := s.mem[p].(polled := s.mem[p].polled || s.mem[p].op == SubmitIo)],
                     polls := if s.mem[p].op == SubmitIo then s.polls + {s.owner[p]} else s.polls,
                     cq := Put(s.cq, s.mem[p].reqId, p), kernel := Idle)
  {
    var p := s.kernel.page;
    var s1 := Do(c, P, s, KernelRun(true, false));
    assert s1 == s.(mem := s.mem[p := s.mem[p].(polled := s.mem[p].polled || s.mem[p].op == SubmitIo)],
                    polls := if s.mem[p].op == SubmitIo then s.polls + {s.owner[p]} else s.polls, kernel := Post(p));
    s' := Do(c, P, s1, KernelPost);
  }

  /** Queues other than 0 have never had a request. */
  ghost predicate OthersEmpty(s: State) {
    forall k: nat :: 1 <= k < |s.queues| ==> s.queues[k] == ClientQueue([], 0, [])
  }

  /** The server passes over the queues that are empty and comes back to queue 0. */
  lemma {:induction false} ComeBack(c: Config, P: State -> bool, s: State, q: nat) returns (s': State)
    requires Closed(c, P) && P(s) && Usual(c, s) && OthersEmpty(s) && s.server == Visit(q)
    ensures P(s') && s' == s.(server := Visit(0))
    decreases if q == 0 then 0 else c.queues - q
  {
    s' := s;
    if q != 0 {
      assert s.queues[q] == ClientQueue([], 0, []);
      var s1 := Do(c, P, s, ServerVisit);
      assert s1 == s.(server := Peek(q, 0));
      var s2 := Do(c, P, s1, ServerPeek);
      assert s2 == s.(server := Visit(c.After(q)));
      s' := ComeBack(c, P, s2, c.After(q));
    }
  }

  // --- One request after the other -------------------------------------------------------------

  /** Queue 0 has had n requests, each with one kernel request, and nothing is going on. */
  ghost predicate Quiet(c: Config, s: State, n: nat) {
    && Usual(c, s) && OthersEmpty(s) && s.server == Visit(0) && s.kernel == Idle
    && |s.queues[0].rqs| == n == s.queues[0].dequeued && |s.sent| == n == s.taken
    && (forall p: nat :: p in s.free <==> p < c.pages)
    && (forall b :: 0 <= b < c.buckets ==> s.cq[b] == INVALID)
  }

  /** Queue 0's latest request is an IPC test, the n-th, that waits for kernel id n. */
  ghost predicate Waits(c: Config, s: State, n: nat) {
    && Usual(c, s) && OthersEmpty(s) && 0 < c.pages
    && |s.queues[0].rqs| == n + 1 && s.queues[0].dequeued == n && |s.sent| == n + 1
    && s.queues[0].rqs[n].kind == IpcTest && s.queues[0].rqs[n].code == 1 && s.queues[0].rqs[n].tok == n
    && (forall p: nat :: p in s.free <==> 0 < p < c.pages)
  }

  /** The server starts an IPC test for queue 0 and comes round again. */
  lemma SendTest(c: Config, P: State -> bool, s: State, n: nat) returns (s': State)
    requires Closed(c, P) && P(s) && Quiet(c, s, n) && 0 < c.pages
    ensures P(s') && Waits(c, s', n) && s'.server == Visit(0) && s'.kernel == Idle && s'.taken == n
    ensures s'.mem[0].reqId == n && s'.mem[0].op == StartIpcTest && s'.ring[Slot(n, c.buckets)] == 0 && s'.cq == s.cq
  {
    var s1 := StartSteps(c, P, s, 0, 0, IpcTest);
    var s2 := SendStep(c, P, s1, 0, 0, 1);
    assert OthersEmpty(s2);
    s' := ComeBack(c, P, s2, c.After(0));
  }

  /** The kernel worker takes it and posts its completion. */
  lemma PostTest(c: Config, P: State -> bool, s: State, n: nat) returns (s': State)
    requires Closed(c, P) && P(s) && Waits(c, s, n) && s.server == Visit(0) && s.kernel == Idle && s.taken == n
    requires s.mem[0].reqId == n && s.mem[0].op == StartIpcTest && s.ring[Slot(n, c.buckets)] == 0
    requires Lookup(s.cq, n) == INVALID
    ensures P(s') && Waits(c, s', n) && s'.server == Visit(0) && s'.kernel == Idle && s'.taken == n + 1
    ensures s'.cq == Put(s.cq, n, 0)
  {
    var s1 := Do(c, P, s, KernelTake);
    s' := PostSteps(c, P, s1);
  }

  /** The server finds the completion, completes the request and dequeues it. */
  lemma FinishTest(c: Config, P: State -> bool, s: State, n: nat) returns (s': State)
    requires Closed(c, P) && P(s) && Waits(c, s, n) && s.server == Visit(0) && s.kernel == Idle && s.taken == n + 1
    requires Lookup(s.cq, n) == 0 && forall b :: 0 <= b < c.buckets ==> Put(s.cq, n, INVALID)[b] == INVALID
    ensures P(s') && Quiet(c, s', n + 1)
  {
    var s1 := Enter(c, P, s, 0);
    var s2 := Do(c, P, s1, ServerCheck);
    var s3 := Do(c, P, s2, ServerGot);
    var s4 := Do(c, P, s3, ServerComplete);
    var s5 := Do(c, P, s4, ServerFree);
    var s6 := Do(c, P, s5, ServerDequeue);
    var s7 := Do(c, P, s6, ServerPeek);
    assert OthersEmpty(s7);
    s' := ComeBack(c, P, s7, c.After(0));
  }

  lemma Cycle(c: Config, P: State -> bool, s: State, n: nat) returns (s': State)
    requires Closed(c, P) && P(s) && Quiet(c, s, n) && 0 < c.pages
    ensures P(s') && Quiet(c, s', n + 1)
  {
    var s1 := SendTest(c, P, s, n);
    var s2 := PostTest(c, P, s1, n);
    assert forall b :: 0 <= b < c.buckets ==> Put(s2.cq, n, INVALID)[b] == INVALID;
    s' := FinishTest(c, P, s2, n);
  }

  /** Any number of requests may have come and gone. */
  lemma {:induction false} QuietAfter(c: Config, P: State -> bool, n: nat) returns (s: State)
    requires Closed(c, P) && P(Initial(c)) && (n == 0 || 0 < c.pages)
    ensures P(s) && Quiet(c, s, n)
    decreases n
  {
    if n == 0 {
      s := Initial(c);
    } else {
      s := QuietAfter(c, P, n - 1);
      s := Cycle(c, P, s, n - 1);
    }
  }
}
