/**
 The driver half of the protocol: an I/O is submitted at most once, its page is not
 freed under the device, and it is completed to the client only after the device has
 finished it.
 */
module ProtocolDevice {
  import opened Protocol
  import opened ProtocolInvariant
  import opened ProtocolMatching

  /** The kernel worker has not yet processed the x-th kernel request. */
  ghost predicate Unprocessed(s: State, x: nat) {
    x < |s.sent| && (s.taken <= x || (s.kernel.Busy? && x + 1 == s.taken))
  }

  /** A page about to be submitted is unknown to the device. */
  ghost predicate Unsubmitted(s: State, p: nat) {
    p < |s.mem| && (s.mem[p].op == SubmitIo ==> p !in s.inflight && !s.mem[p].ioComplete)
  }

  /** A page carries an operation of its owner's module, and polls once it was submitted. */
  ghost predicate OpOk(s: State, q: nat, p: nat)
    requires s.HasHead(q)
  {
    && p < |s.mem|
    && (s.mem[p].op == StartIpcTest <==> s.Head(q).kind == IpcTest)
    && (ChecksKernel(s.Head(q)) && s.Head(q).code == 2 ==> s.mem[p].op == PollCompletion)
  }

  /** A page in flight or finished at the device. */
  ghost predicate FlagsOk(s: State, p: nat)
    requires p < |s.mem| == |s.owner|
  {
    && (p in s.inflight ==> p !in s.free && !s.mem[p].ioComplete && s.mem[p].op != StartIpcTest)
    && (p !in s.free && s.mem[p].ioComplete && s.mem[p].op != StartIpcTest ==> s.owner[p] in s.ioDone)
  }

  ghost predicate SendOk(s: State, p: nat, code: nat) {
    && Unsubmitted(s, p)
    && (code == 2 ==> s.mem[p].op == PollCompletion)
    && (code == 1 ==> s.mem[p].op != PollCompletion)
  }

  ghost predicate FinishOk(s: State, q: nat, p: nat) {
    p < |s.mem| && s.HasHead(q) && (s.Head(q).kind == MqIo ==> s.mem[p].ioComplete)
  }

  ghost predicate HandOk(s: State) {
    && (s.server.Send? ==> SendOk(s, s.server.page, s.server.code))
    && (s.server.Finish? || s.server.Release? ==> FinishOk(s, s.server.q, s.server.page))
  }

  ghost predicate DoneOk(s: State, q: nat)
    requires q < |s.queues|
  {
    forall k :: 0 <= k < |s.queues[q].done| && k < |s.queues[q].rqs| && s.queues[q].rqs[k].kind == MqIo ==>
      (q, k) in s.ioDone
  }

  ghost predicate DeviceInv(c: Config, s: State) {
    && Shape(c, s)
    && (forall p :: p in s.inflight ==> 0 <= p < c.pages)
    && (forall p :: 0 <= p < c.pages ==> FlagsOk(s, p))
    && (forall x: nat :: Unprocessed(s, x) ==> Unsubmitted(s, s.sent[x]))
    && (forall q: nat, p: nat :: q < c.queues && Owns(s, q, p) ==> s.HasHead(q) && OpOk(s, q, p))
    && HandOk(s)
    && (forall q :: 0 <= q < c.queues ==> DoneOk(s, q))
  }

  ghost predicate Inv(c: Config, s: State) {
    CoreInv(c, s) && DeviceInv(c, s)
  }

  /** Pages the kernel still has to process are owned by waiting queues. */
  lemma UnprocessedOwned(c: Config, s: State, x: nat)
    requires CoreInv(c, s) && Unprocessed(s, x)
    ensures s.issuer[x] < c.queues && Waiting(s, s.issuer[x]) && Tok(s, s.issuer[x]) == x
    ensures Owns(s, s.issuer[x], s.sent[x]) && s.sent[x] < c.pages && s.sent[x] !in s.free
  {
    assert Completed(s) <= x;
  }

  /** Two unprocessed requests are in different pages. */
  lemma UnprocessedApart(c: Config, s: State, x: nat, y: nat)
    requires CoreInv(c, s) && Unprocessed(s, x) && Unprocessed(s, y) && s.sent[x] == s.sent[y]
    ensures x == y
  {
    UnprocessedOwned(c, s, x);
    UnprocessedOwned(c, s, y);
    PagesApart(c, s, s.issuer[x], s.issuer[y], s.sent[x]);
  }

  /** The steps that change a page's operation or flags. */
  ghost predicate Touches(s: State, step: Step, p: nat) {
    || (step.ServerStart? && step.page == p)
    || (step.ServerGot? && s.server.Got? && s.server.page == p)
    || (step.KernelRun? && s.kernel.Busy? && s.kernel.page == p)
    || (step.DeviceDone? && step.page == p)
  }

  lemma UntouchedPage(c: Config, s: State, s': State, step: Step, p: nat)
    requires Shape(c, s) && IsNext(c, s, s', step) && p < c.pages && !Touches(s, step, p)
    ensures Shape(c, s') && s'.mem[p].op == s.mem[p].op && s'.mem[p].ioComplete == s.mem[p].ioComplete
    ensures p in s'.inflight <==> p in s.inflight
    ensures s.ioDone <= s'.ioDone
  {
  }

  lemma FlagsOkStep(c: Config, s: State, s': State, step: Step, p: nat)
    requires Inv(c, s) && IsNext(c, s, s', step) && p < c.pages
    ensures Shape(c, s') && FlagsOk(s', p)
  {
    ShapeStep(c, s, s', step);
    assert FlagsOk(s, p);
    if Touches(s, step, p) {
      FlagsOkTouched(c, s, s', step, p);
    } else {
      FreeStep(c, s, s', step);
      UntouchedPage(c, s, s', step, p);
      if step.ServerFree? {
        FreedIsIdle(c, s);
      }
    }
  }

  lemma FlagsOkTouched(c: Config, s: State, s': State, step: Step, p: nat)
    requires Inv(c, s) && IsNext(c, s, s', step) && p < c.pages && Touches(s, step, p)
    ensures Shape(c, s') && FlagsOk(s', p)
  {
    assert FlagsOk(s, p);
    if step.KernelRun? {
      UnprocessedOwned(c, s, s.taken - 1);
      assert Unsubmitted(s, s.sent[s.taken - 1]);
    } else if step.ServerGot? {
      assert Owns(s, s.server.q, p) && OpOk(s, s.server.q, p);
    }
  }

  /** When the server frees a page, the device is done with it. */
  lemma FreedIsIdle(c: Config, s: State)
    requires Inv(c, s) && s.server.Release?
    ensures s.server.page !in s.inflight
  {
    var q, p := s.server.q, s.server.page;
    assert Owns(s, q, p) && OpOk(s, q, p);
    assert FlagsOk(s, p);
  }

  lemma UnsubmittedStep(c: Config, s: State, s': State, step: Step, x: nat)
    requires Inv(c, s) && IsNext(c, s, s', step) && Unprocessed(s', x)
    ensures Unsubmitted(s', s'.sent[x])
  {
    ShapeStep(c, s, s', step);
    CompletedStep(c, s, s', step);
    if x < |s.sent| {
      assert Unprocessed(s, x);
      UnprocessedOwned(c, s, x);
      var p := s.sent[x];
      assert Unsubmitted(s, p) && s'.sent[x] == p;
      if step.KernelRun? && s.kernel.page == p {
        UnprocessedApart(c, s, x, s.taken - 1);
      }
      if step.ServerGot? && s.server.page == p {
        PagesApart(c, s, s.issuer[x], s.server.q, p);
      }
      if !Touches(s, step, p) {
        UntouchedPage(c, s, s', step, p);
      }
    } else {
      UntouchedPage(c, s, s', step, s.server.page);
    }
  }

  /** Only the module running on a request changes its code, and nothing changes its kind. */
  lemma HeadStep(c: Config, s: State, s': State, step: Step, q: nat)
    requires Shape(c, s) && IsNext(c, s, s', step) && s.HasHead(q)
    requires s'.queues[q].dequeued == s.queues[q].dequeued
    ensures s'.HasHead(q) && s'.Head(q).kind == s.Head(q).kind
    ensures s'.Head(q).code ==
      if q == s.server.q && step.ServerSend? then s.server.code
      else if q == s.server.q && step.ServerGot? && s.Head(q).kind == IpcTest then 0
      else if q == s.server.q && step.ServerGot? && s.Head(q).code == 1 && !s.mem[s.server.page].polled then 3
      else s.Head(q).code
  {
  }

  lemma OpStep(c: Config, s: State, s': State, step: Step, p: nat)
    requires Shape(c, s) && IsNext(c, s, s', step) && p < c.pages && !(step.ServerStart? && step.page == p)
    ensures s'.mem[p].op ==
      if step.ServerGot? && p == s.server.page && s.Head(s.server.q).kind == MqIo
         && s.Head(s.server.q).code == 1 && s.mem[p].polled
      then PollCompletion else s.mem[p].op
  {
  }

  lemma OpOkStep(c: Config, s: State, s': State, step: Step, q: nat, p: nat)
    requires Inv(c, s) && IsNext(c, s, s', step) && q < c.queues && Owns(s', q, p)
    requires Apart(c, |s.sent|)
    ensures s'.HasHead(q) && OpOk(s', q, p)
  {
    ShapeStep(c, s, s', step);
    OwnsStep(c, s, s', step, q, p);
    HeadStep(c, s, s', step, q);
    if step.ServerStart? && step.page == p {
      OwnsStep(c, s, s', step, s.server.q, p);
    } else {
      assert OpOk(s, q, p);
      OpStep(c, s, s', step, p);
      if step.ServerGot? && q != s.server.q && p == s.server.page {
        PagesApart(c, s, q, s.server.q, p);
      }
    }
  }

  /** Kernel, device and clients leave the page in the server's hands as it is. */
  lemma HandKept(c: Config, s: State, s': State, step: Step)
    requires Inv(c, s) && IsNext(c, s, s', step) && s'.server == s.server
    ensures HandOk(s')
  {
    ShapeStep(c, s, s', step);
    if s.server.Send? || s.server.Finish? || s.server.Release? {
      var q, p := s.server.q, s.server.page;
      assert Owns(s, q, p);
      if step.KernelRun? {
        UnprocessedOwned(c, s, s.taken - 1);
        if s.kernel.page == p {
          PagesApart(c, s, s.issuer[s.taken - 1], q, p);
        }
      }
      if !Touches(s, step, p) {
        UntouchedPage(c, s, s', step, p);
      }
      HeadStep(c, s, s', step, q);
    }
  }

  lemma HandTaken(c: Config, s: State, s': State, step: Step)
    requires Inv(c, s) && IsNext(c, s, s', step)
    requires step.ServerStart? || step.ServerGot? || step.ServerParked? || step.ServerComplete?
    ensures HandOk(s')
  {
    if step.ServerStart? {
      assert FlagsOk(s, step.page);
    }
    if step.ServerGot? {
      assert Owns(s, s.server.q, s.server.page) && OpOk(s, s.server.q, s.server.page);
    }
  }

  lemma HandOkStep(c: Config, s: State, s': State, step: Step)
    requires Inv(c, s) && IsNext(c, s, s', step)
    ensures HandOk(s')
  {
    if s'.server == s.server {
      HandKept(c, s, s', step);
    } else if step.ServerStart? || step.ServerGot? || step.ServerParked? || step.ServerComplete? {
      HandTaken(c, s, s', step);
    }
  }

  /** A completion is recorded for the request whose I/O the device has finished. */
  lemma FinishedByDevice(c: Config, s: State)
    requires Inv(c, s) && s.server.Finish? && s.HasHead(s.server.q) && s.Head(s.server.q).kind == MqIo
    ensures (s.server.q, s.queues[s.server.q].dequeued) in s.ioDone
  {
    var q, p := s.server.q, s.server.page;
    assert Owns(s, q, p) && OpOk(s, q, p) && FlagsOk(s, p);
  }

  lemma DoneOkStep(c: Config, s: State, s': State, step: Step, q: nat)
    requires Inv(c, s) && IsNext(c, s, s', step) && q < c.queues
    ensures |s'.queues| == c.queues && DoneOk(s', q)
  {
    ShapeStep(c, s, s', step);
    assert DoneOk(s, q) && QueueOk(s, q);
    if q != s.server.q && !(step.ClientEnqueue? && step.q == q) {
      OtherQueues(c, s, s', step, q);
    } else if step.ServerComplete? && s.Head(q).kind == MqIo {
      FinishedByDevice(c, s);
    }
  }

  lemma DeviceInvStep(c: Config, s: State, s': State, step: Step)
    requires Inv(c, s) && IsNext(c, s, s', step)
    requires Apart(c, |s.sent|)
    ensures DeviceInv(c, s')
  {
    ShapeStep(c, s, s', step);
    HandOkStep(c, s, s', step);
    InflightStep(c, s, s', step);
    forall p | 0 <= p < c.pages ensures FlagsOk(s', p) {
      FlagsOkStep(c, s, s', step, p);
    }
    forall x: nat | Unprocessed(s', x) ensures Unsubmitted(s', s'.sent[x]) {
      UnsubmittedStep(c, s, s', step, x);
    }
    forall q: nat, p: nat | q < c.queues && Owns(s', q, p) ensures s'.HasHead(q) && OpOk(s', q, p) {
      OpOkStep(c, s, s', step, q, p);
    }
    forall q | 0 <= q < c.queues ensures DoneOk(s', q) {
      DoneOkStep(c, s, s', step, q);
    }
  }

  lemma InflightStep(c: Config, s: State, s': State, step: Step)
    requires DeviceInv(c, s) && IsNext(c, s, s', step)
    ensures forall p :: p in s'.inflight ==> 0 <= p < c.pages
  {
  }

  // --- The whole invariant -----------------------------------------------------------

  lemma InvInit(c: Config, s: State)
    requires c.Valid() && Init(c, s)
    ensures Inv(c, s) && WindowInv(c, s)
  {
    QueueInvInit(c, s);
  }

  lemma InvStep(c: Config, s: State, s': State, step: Step)
    requires Inv(c, s) && WindowInv(c, s) && IsNext(c, s, s', step)
    requires Apart(c, |s'.sent|)
    ensures Inv(c, s') && WindowInv(c, s')
  {
    ServerMoves(c, s, s', step);
    QueueInvStep(c, s, s', step);
    RingInvStep(c, s, s', step);
    IdInvStep(c, s, s', step);
    MapInvStep(c, s, s', step);
    PageInvStep(c, s, s', step);
    OrderInvStep(c, s, s', step);
    DeviceInvStep(c, s, s', step);
    WindowInvStep(c, s, s', step);
  }

  lemma InvNext(c: Config, s: State, s': State)
    requires Inv(c, s) && WindowInv(c, s) && Next(c, s, s') && Apart(c, |s'.sent|)
    ensures Inv(c, s') && WindowInv(c, s')
  {
    var step :| IsNext(c, s, s', step);
    InvStep(c, s, s', step);
  }

  /** The invariant holds in every reachable state that can tell its ids apart. */
  lemma InvHolds(c: Config, run: seq<State>)
    requires c.Valid() && IsRun(c, run) && Apart(c, |run[|run| - 1].sent|)
    ensures Inv(c, run[|run| - 1]) && WindowInv(c, run[|run| - 1])
  {
    var Q := (s: State) => Apart(c, |s.sent|) ==> Inv(c, s) && WindowInv(c, s);
    forall s | Init(c, s) ensures Q(s) {
      InvInit(c, s);
    }
    forall s, s' | Q(s) && Next(c, s, s') ensures Q(s') {
      SentOnlyGrows(c, s, s');
      if Apart(c, |s'.sent|) {
        InvNext(c, s, s');
      }
    }
    RunKeeps(c, Q, run);
  }

  lemma ReachableInv(c: Config, s: State)
    requires c.Valid() && Reachable(c, s) && Apart(c, |s.sent|)
    ensures Inv(c, s) && WindowInv(c, s)
  {
    var run :| IsRun(c, run) && run[|run| - 1] == s;
    InvHolds(c, run);
  }
}
