/**
 The request protocol between clients, one server worker, one kernel worker and a
 device, as a step relation.

 A server worker visits its client queues round-robin. It runs the module on the
 request at the head of a queue and dequeues the request only when the module says
 it is finished; until then the request keeps its progress in `code_`. Modules talk
 to the kernel worker over one kernel queue pair, whose completions are looked up by
 request id modulo the number of buckets.

 Every queue operation is one step, so the four parties interleave between any two
 of them. The true request ids are kept; `Slot` wraps them where they are used.
 */
module Protocol {
  import opened Words
  import opened RequestMap

  /**
   `depth` is the capacity of each client queue; `buckets` is both the depth of the kernel ring and
   the size of its completion map.
   */
  datatype Config = Config(queues: nat, depth: nat, buckets: nat, pages: nat) {
    predicate Valid() { 0 < queues && 0 < depth < WRAP && 0 < buckets < WRAP }

    /** The queue visited after q. */
    function After(q: nat): (r: nat)
      requires q < queues
      ensures r < queues
    {
      if q + 1 == queues then 0 else q + 1
    }
  }

  datatype Kind = MqIo | IpcTest
  datatype KernOp = SubmitIo | PollCompletion | StartIpcTest

  /** The fields of a kernel request the protocol reads and writes. */
  datatype KernRq = KernRq(reqId: nat, op: KernOp, polled: bool, ioComplete: bool)

  /** A client request: its module, `code_`, `kern_qtok_.req_id_` and `kern_rq_`. */
  datatype ClientRq = ClientRq(kind: Kind, code: nat, tok: nat, kernRq: nat)

  /** Everything a client ever enqueued, how much was dequeued, and the completions in order. */
  datatype ClientQueue = ClientQueue(rqs: seq<ClientRq>, dequeued: nat, done: seq<nat>)

  /** Where the server worker stands; `left` counts the rest of the inner loop. */
  datatype ServerPc =
    | Visit(q: nat)
    | Peek(q: nat, left: nat)
    | Run(q: nat, left: nat)
    | Send(q: nat, page: nat, code: nat)
    | Got(q: nat, left: nat, page: nat)
    | Finish(q: nat, left: nat, page: nat)
    | Release(q: nat, left: nat, page: nat)
    | Drop(q: nat, left: nat)

  datatype KernelPc = Idle | Busy(page: nat) | Post(page: nat)

  /**
   Kernel requests live in pages. `sent` lists the page of every id ever enqueued to the
   kernel and `taken` counts those dequeued; `ring` is the array of slots of the kernel ring.
   `issuer`, `owner`, `ioDone`, `polls` and `issued` only record history: the queue that issued
   each id, the client request each page was allocated for, the client requests whose I/O the
   device has finished, those whose submission turned on polling, and those whose submission
   reached the device.
   */
  datatype State = State(
    queues: seq<ClientQueue>,
    server: ServerPc,
    sent: seq<nat>,
    taken: nat,
    ring: seq<nat>,
    cq: seq<int>,
    kernel: KernelPc,
    mem: seq<KernRq>,
    free: set<nat>,
    inflight: set<nat>,
    issuer: seq<nat>,
    owner: seq<(nat, nat)>,
    ioDone: set<(nat, nat)>,
    polls: set<(nat, nat)>,
    issued: set<(nat, nat)>)
  {
    predicate HasHead(q: nat) {
      q < |queues| && queues[q].dequeued < |queues[q].rqs|
    }

    function Head(q: nat): (r: ClientRq)
      requires HasHead(q)
    {
      queues[q].rqs[queues[q].dequeued]
    }

    function WithHead(q: nat, r: ClientRq): (qs: seq<ClientQueue>)
      requires HasHead(q)
    {
      queues[q := queues[q].(rqs := queues[q].rqs[queues[q].dequeued := r])]
    }
  }

  ghost predicate Init(c: Config, s: State)
  {
    && |s.queues| == c.queues
    && (forall q :: 0 <= q < c.queues ==> s.queues[q] == ClientQueue([], 0, []))
    && s.server == Visit(0)
    && s.sent == [] && s.taken == 0 && s.issuer == []
    && |s.ring| == c.buckets && |s.cq| == c.buckets && (forall b :: 0 <= b < c.buckets ==> s.cq[b] == INVALID)
    && s.kernel == Idle
    && |s.mem| == c.pages == |s.owner|
    && (forall p: nat :: p in s.free <==> p < c.pages)
    && s.inflight == {} && s.ioDone == {} && s.polls == {} && s.issued == {}
  }

  datatype Step =
    | ClientEnqueue(q: nat, kind: Kind)
    | ServerVisit
    | ServerPeek
    | ServerStart(page: nat)
    | ServerCheck
    | ServerParked
    | ServerIgnore
    | ServerGot
    | ServerSend
    | ServerComplete
    | ServerFree
    | ServerDequeue
    | KernelTake
    | KernelRun(polled: bool, submitted: bool)
    | KernelPost
    | DeviceDone(page: nat)

  /** The module looks for a kernel completion in these states of a request. */
  predicate ChecksKernel(r: ClientRq) {
    r.code == 1 || (r.kind == MqIo && r.code == 2)
  }

  predicate ChecksInterrupt(r: ClientRq) {
    r.kind == MqIo && r.code == 3
  }

  predicate Enabled(c: Config, s: State, step: Step)
    requires c.Valid()
  {
    && s.server.q < |s.queues| == c.queues && |s.ring| == c.buckets == |s.cq|
    && s.taken <= |s.sent| && |s.owner| == |s.mem|
    && match step
       case ClientEnqueue(q, kind) => q < c.queues && |s.queues[q].rqs| < s.queues[q].dequeued + c.depth
       case ServerVisit => s.server.Visit? && s.queues[s.server.q].dequeued <= |s.queues[s.server.q].rqs|
       case ServerPeek => s.server.Peek?
       case ServerStart(p) => s.server.Run? && s.HasHead(s.server.q) && s.Head(s.server.q).code == 0
                              && p in s.free && p < |s.mem|
       case ServerCheck => s.server.Run? && s.HasHead(s.server.q) && ChecksKernel(s.Head(s.server.q))
       case ServerParked => s.server.Run? && s.HasHead(s.server.q) && ChecksInterrupt(s.Head(s.server.q))
                            && s.Head(s.server.q).kernRq < |s.mem|
       case ServerIgnore => s.server.Run? && s.HasHead(s.server.q) && s.Head(s.server.q).code != 0
                            && !ChecksKernel(s.Head(s.server.q)) && !ChecksInterrupt(s.Head(s.server.q))
       case ServerGot => s.server.Got? && s.HasHead(s.server.q) && s.server.page < |s.mem|
       case ServerSend => s.server.Send? && s.HasHead(s.server.q) && s.server.page < |s.mem|
                          && |s.sent| - s.taken < c.buckets
       case ServerComplete => s.server.Finish?
       case ServerFree => s.server.Release?
       case ServerDequeue => s.server.Drop?
       case KernelTake => s.kernel.Idle? && s.taken < |s.sent|
       case KernelRun(polled, submitted) => s.kernel.Busy? && s.kernel.page < |s.mem|
       case KernelPost => s.kernel.Post? && s.kernel.page < |s.mem|
                          && Lookup(s.cq, s.mem[s.kernel.page].reqId) == INVALID
       case DeviceDone(p) => p in s.inflight && p < |s.mem|
  }

  /** IOKernelStart clears the flags; IPCKernelStart leaves them as they are. */
  function StartRq(kind: Kind, page: KernRq): (r: KernRq)
  {
    if kind == MqIo then KernRq(page.reqId, SubmitIo, false, false) else page.(op := StartIpcTest)
  }

  /** The module continues with the completion it found. */
  function Resume(c: Config, s: State): (s': State)
    requires c.Valid() && Enabled(c, s, ServerGot)
  {
    var q, p := s.server.q, s.server.page;
    var rq := s.Head(q);
    if rq.kind == IpcTest then
      s.(queues := s.WithHead(q, rq.(code := 0)), server := Finish(q, s.server.left, p))
    else if rq.code == 1 then
      if s.mem[p].polled then
        s.(mem := s.mem[p := s.mem[p].(op := PollCompletion)], server := Send(q, p, 2))
      else
        s.(queues := s.WithHead(q, rq.(kernRq := p, code := 3)), server := Visit(c.After(q)))
    else if s.mem[p].ioComplete then
      s.(server := Finish(q, s.server.left, p))
    else
      s.(server := Send(q, p, 2))
  }

  function Apply(c: Config, s: State, step: Step): (s': State)
    requires c.Valid() && Enabled(c, s, step)
  {
    var q := s.server.q;
    match step
    case ClientEnqueue(i, kind) =>
      s.(queues := s.queues[i := s.queues[i].(rqs := s.queues[i].rqs + [ClientRq(kind, 0, 0, 0)])])
    case ServerVisit =>
      s.(server := Peek(q, |s.queues[q].rqs| - s.queues[q].dequeued))
    case ServerPeek =>
      s.(server := if s.server.left == 0 || !s.HasHead(q) then Visit(c.After(q)) else Run(q, s.server.left))
    case ServerStart(p) =>
      s.(free := s.free - {p},
         mem := s.mem[p := StartRq(s.Head(q).kind, s.mem[p])],
         owner := s.owner[p := (q, s.queues[q].dequeued)],
         server := Send(q, p, 1))
    case ServerCheck =>
      var off := Lookup(s.cq, s.Head(q).tok);
      if off < 0 then  // no offset is negative, so this is INVALID
        s.(server := Visit(c.After(q)))
      else
        s.(cq := Put(s.cq, s.Head(q).tok, INVALID), server := Got(q, s.server.left, off))
    case ServerParked =>
      s.(server := if s.mem[s.Head(q).kernRq].ioComplete then Finish(q, s.server.left, s.Head(q).kernRq)
                   else Visit(c.After(q)))
    case ServerIgnore =>
      s.(server := Drop(q, s.server.left))
    case ServerGot =>
      Resume(c, s)
    case ServerSend =>
      var p := s.server.page;
      s.(sent := s.sent + [p], issuer := s.issuer + [q], ring := s.ring[Slot(|s.sent|, c.buckets) := p],
         mem := s.mem[p := s.mem[p].(reqId := |s.sent|)],
         queues := s.WithHead(q, s.Head(q).(tok := |s.sent|, code := s.server.code)),
         server := Visit(c.After(q)))
    case ServerComplete =>
      s.(queues := s.queues[q := s.queues[q].(done := s.queues[q].done + [s.queues[q].dequeued])],
         server := Release(q, s.server.left, s.server.page))
    case ServerFree =>
      s.(free := s.free + {s.server.page}, server := Drop(q, s.server.left))
    case ServerDequeue =>
      s.(queues := s.queues[q := s.queues[q].(dequeued := s.queues[q].dequeued + 1)],
         server := Peek(q, if s.server.left == 0 then 0 else s.server.left - 1))
    case KernelTake =>
      s.(taken := s.taken + 1, kernel := Busy(s.ring[Slot(s.taken, c.buckets)]))
    case KernelRun(polled, submitted) =>
      var p := s.kernel.page;
      if s.mem[p].op == SubmitIo then
        s.(mem := s.mem[p := s.mem[p].(polled := s.mem[p].polled || polled)],
           inflight := if submitted then s.inflight + {p} else s.inflight,
           polls := if polled then s.polls + {s.owner[p]} else s.polls,
           issued := if submitted then s.issued + {s.owner[p]} else s.issued,
           kernel := Post(p))
      else s.(kernel := Post(p))
    case KernelPost =>
      s.(cq := Put(s.cq, s.mem[s.kernel.page].reqId, s.kernel.page), kernel := Idle)
    case DeviceDone(p) =>
      s.(mem := s.mem[p := s.mem[p].(ioComplete := true)],
         inflight := s.inflight - {p},
         ioDone := s.ioDone + {s.owner[p]})
  }

  predicate IsNext(c: Config, s: State, s': State, step: Step)
    requires c.Valid()
  {
    Enabled(c, s, step) && s' == Apply(c, s, step)
  }

  ghost predicate Next(c: Config, s: State, s': State)
    requires c.Valid()
  {
    exists step :: IsNext(c, s, s', step)
  }

  /** A finite run: an initial state followed by steps. */
  ghost predicate IsRun(c: Config, run: seq<State>)
    requires c.Valid()
  {
    && 0 < |run|
    && if |run| == 1 then Init(c, run[0])
       else IsRun(c, run[..|run| - 1]) && Next(c, run[|run| - 2], run[|run| - 1])
  }

  ghost predicate Reachable(c: Config, s: State)
    requires c.Valid()
  {
    exists run :: IsRun(c, run) && run[|run| - 1] == s
  }

  lemma ReachableStep(c: Config, s: State, s': State)
    requires c.Valid() && Reachable(c, s) && Next(c, s, s')
    ensures Reachable(c, s')
  {
    var run :| IsRun(c, run) && run[|run| - 1] == s;
    var run' := run + [s'];
    assert run'[..|run'| - 1] == run;
    assert IsRun(c, run');
  }

  /** What holds at first and no step ends, holds at the end of a run. */
  lemma {:induction false} RunKeeps(c: Config, Q: State -> bool, run: seq<State>)
    requires c.Valid() && IsRun(c, run) && (forall s :: Init(c, s) ==> Q(s))
    requires forall s, s' :: Q(s) && Next(c, s, s') ==> Q(s')
    ensures Q(run[|run| - 1])
    decreases |run|
  {
    if 1 < |run| {
      RunKeeps(c, Q, run[..|run| - 1]);
    }
  }

  lemma SentOnlyGrows(c: Config, s: State, s': State)
    requires c.Valid() && Next(c, s, s')
    ensures |s.sent| <= |s'.sent|
  {
  }
}
