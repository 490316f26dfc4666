/**
 Which way an I/O is completed: by polling the kernel if its own submission turned polling on, and
 by waiting for the interrupt if not, whatever the page was used for before; and only if its own
 submission reached the device.
 */
module ProtocolPolling {
  import opened Protocol
  import opened ProtocolInvariant
  import opened ProtocolMatching
  import opened ProtocolDevice
  import opened ProtocolSafety

  /** The record of a client request is about one the server has at least started. */
  ghost predicate Started(s: State, q: nat, k: nat)
    requires q < |s.queues|
  {
    k < s.queues[q].dequeued || (k == s.queues[q].dequeued && s.HasHead(q) && (InHand(s, q) || s.Head(q).code != 0))
  }

  /** The flag in the page of an I/O says what its submission did. */
  ghost predicate FlagTold(s: State, q: nat, p: nat)
    requires q < |s.queues| && p < |s.mem| && s.HasHead(q)
  {
    s.Head(q).kind == MqIo ==> (s.mem[p].polled <==> (q, s.queues[q].dequeued) in s.polls)
  }

  /** A page about to be submitted has no flag yet. */
  ghost predicate Fresh(s: State, p: nat) {
    p < |s.mem| && (s.mem[p].op == SubmitIo ==> !s.mem[p].polled)
  }

  /** The path a request has taken is the one its submission chose. */
  ghost predicate PathOk(s: State, q: nat, k: nat)
    requires q < |s.queues| && k < |s.queues[q].rqs|
  {
    var r := s.queues[q].rqs[k];
    r.kind == MqIo ==> (r.code == 2 ==> (q, k) in s.polls) && (r.code == 3 ==> (q, k) !in s.polls)
  }

  /** The code with which a module leaves a request. */
  predicate Final(r: ClientRq) {
    if r.kind == MqIo then r.code == 2 || r.code == 3 else r.code == 0
  }

  ghost predicate HandTold(s: State) {
    && (s.server.Send? ==> Fresh(s, s.server.page))
    && (s.server.Send? && s.server.code == 2 ==> s.server.q < |s.queues| && (s.server.q, s.queues[s.server.q].dequeued) in s.polls)
    && (s.server.Finish? || s.server.Release? || s.server.Drop? ==> s.HasHead(s.server.q) && Final(s.Head(s.server.q)))
  }

  ghost predicate QueueTold(s: State, q: nat)
    requires q < |s.queues|
  {
    && (forall k: nat :: (q, k) in s.polls ==> Started(s, q, k))
    && (forall k: nat :: k < |s.queues[q].rqs| ==> PathOk(s, q, k))
    && (forall k: nat :: k < |s.queues[q].done| && k < |s.queues[q].rqs| ==> Final(s.queues[q].rqs[k]))
  }

  ghost predicate PollInv(c: Config, s: State) {
    && Shape(c, s) && HandTold(s)
    && (forall q: nat, p: nat :: q < c.queues && Owns(s, q, p) ==> s.HasHead(q) && p < |s.mem| && FlagTold(s, q, p))
    && (forall x: nat :: Unprocessed(s, x) ==> Fresh(s, s.sent[x]))
    && (forall q: nat :: q < c.queues ==> QueueTold(s, q))
  }

  // --- What a step does to the record and to the flags -------------------------------------------

  /** The kernel worker submits this page. */
  ghost predicate Submits(s: State, step: Step, p: nat) {
    step.KernelRun? && s.kernel.Busy? && s.kernel.page == p && p < |s.mem| && s.mem[p].op == SubmitIo
  }

  lemma PollsStep(c: Config, s: State, s': State, step: Step)
    requires Shape(c, s) && IsNext(c, s, s', step)
    ensures s'.polls == if step.KernelRun? && step.polled && s.mem[s.kernel.page].op == SubmitIo
                        then s.polls + {s.owner[s.kernel.page]} else s.polls
  {
  }

  lemma FlagStep(c: Config, s: State, s': State, step: Step, p: nat)
    requires Shape(c, s) && IsNext(c, s, s', step) && p < c.pages
    ensures Shape(c, s')
    ensures s'.mem[p].polled ==
              if step.ServerStart? && step.page == p && s.Head(s.server.q).kind == MqIo then false
              else if Submits(s, step, p) then s.mem[p].polled || step.polled
              else s.mem[p].polled
  {
  }

  /** The page in the kernel worker's hands is that of a waiting request. */
  lemma InWork(c: Config, s: State)
    requires CoreInv(c, s) && s.kernel.Busy?
    ensures var x, p := s.taken - 1, s.kernel.page;
            && 0 <= x && Unprocessed(s, x) && s.sent[x] == p && p < c.pages
            && s.owner[p].0 < c.queues && Owns(s, s.owner[p].0, p) && Waiting(s, s.owner[p].0)
            && s.owner[p] == (s.owner[p].0, s.queues[s.owner[p].0].dequeued)
  {
    var x := s.taken - 1;
    assert Unprocessed(s, x);
    UnprocessedOwned(c, s, x);
  }

  // --- Every step keeps this ------------------------------------------------------------------------

  lemma FlagToldStep(c: Config, s: State, s': State, step: Step, q: nat, p: nat)
    requires Inv(c, s) && PollInv(c, s) && IsNext(c, s, s', step) && Apart(c, |s.sent|)
    requires q < c.queues && Owns(s', q, p)
    ensures Shape(c, s') && s'.HasHead(q) && p < c.pages && FlagTold(s', q, p)
  {
    ShapeStep(c, s, s', step);
    OwnsStep(c, s, s', step, q, p);
    PollsStep(c, s, s', step);
    if step.ServerStart? && q == s.server.q {
      HeadStep(c, s, s', step, q);
      FlagStep(c, s, s', step, p);
      assert QueueTold(s, q);
      assert !Started(s, q, s.queues[q].dequeued);
    } else {
      assert FlagTold(s, q, p) && p < c.pages && s.owner[p] == (q, s.queues[q].dequeued);
      HeadStep(c, s, s', step, q);
      FlagStep(c, s, s', step, p);
      if step.KernelRun? {
        InWork(c, s);
        assert OpOk(s, q, p);
      }
    }
  }

  lemma FreshStep(c: Config, s: State, s': State, step: Step, x: nat)
    requires Inv(c, s) && PollInv(c, s) && IsNext(c, s, s', step) && Unprocessed(s', x)
    ensures Fresh(s', s'.sent[x])
  {
    ShapeStep(c, s, s', step);
    CompletedStep(c, s, s', step);
    if x < |s.sent| {
      assert Unprocessed(s, x);
      UnprocessedOwned(c, s, x);
      var p := s.sent[x];
      assert Fresh(s, p) && s'.sent[x] == p;
      if step.KernelRun? && s.kernel.page == p {
        InWork(c, s);
        UnprocessedApart(c, s, x, s.taken - 1);
      }
      FlagStep(c, s, s', step, p);
      FreshOp(c, s, s', step, p);
    } else {
      FlagStep(c, s, s', step, s.server.page);
      UntouchedPage(c, s, s', step, s.server.page);
    }
  }

  /** A page that is not free gets no new submission. */
  lemma FreshOp(c: Config, s: State, s': State, step: Step, p: nat)
    requires Shape(c, s) && IsNext(c, s, s', step) && p < c.pages && p !in s.free
    ensures s'.mem[p].op == SubmitIo ==> s.mem[p].op == SubmitIo
  {
    OpStep(c, s, s', step, p);
  }

  /** Kernel, device and clients leave what the server has in hand as it is. */
  lemma HandToldKept(c: Config, s: State, s': State, step: Step)
    requires Inv(c, s) && PollInv(c, s) && IsNext(c, s, s', step) && s'.server == s.server
    ensures HandTold(s')
  {
    ShapeStep(c, s, s', step);
    PollsStep(c, s, s', step);
    var q := s.server.q;
    if InHand(s, q) {
      HeadStep(c, s, s', step, q);
    }
    if s.server.Send? {
      var p := s.server.page;
      assert Owns(s, q, p);
      FlagStep(c, s, s', step, p);
      FreshOp(c, s, s', step, p);
      if step.KernelRun? {
        InWork(c, s);
        NotTheSame(c, s, s.owner[s.kernel.page].0, q, s.kernel.page, p);
      }
    }
  }

  lemma HandToldStarts(c: Config, s: State, s': State, step: Step)
    requires Inv(c, s) && PollInv(c, s) && IsNext(c, s, s', step) && step.ServerStart?
    ensures HandTold(s')
  {
  }

  lemma HandToldResumes(c: Config, s: State, s': State, step: Step)
    requires Inv(c, s) && PollInv(c, s) && IsNext(c, s, s', step) && step.ServerGot?
    ensures HandTold(s')
  {
    var q, p := s.server.q, s.server.page;
    assert Owns(s, q, p) && OpOk(s, q, p) && FlagTold(s, q, p);
    assert QueueTold(s, q) && PathOk(s, q, s.queues[q].dequeued);
  }

  lemma HandToldFinishes(c: Config, s: State, s': State, step: Step)
    requires Inv(c, s) && PollInv(c, s) && IsNext(c, s, s', step)
    requires step.ServerParked? || step.ServerComplete? || step.ServerFree? || step.ServerIgnore?
    ensures HandTold(s')
  {
    assert QueueOk(s, s.server.q);
  }

  lemma HandToldStep(c: Config, s: State, s': State, step: Step)
    requires Inv(c, s) && PollInv(c, s) && IsNext(c, s, s', step)
    ensures HandTold(s')
  {
    if s'.server == s.server {
      HandToldKept(c, s, s', step);
    } else if step.ServerStart? {
      HandToldStarts(c, s, s', step);
    } else if step.ServerGot? {
      HandToldResumes(c, s, s', step);
    } else if step.ServerParked? || step.ServerComplete? || step.ServerFree? || step.ServerIgnore? {
      HandToldFinishes(c, s, s', step);
    }
  }

  /** A request that was started stays so. */
  lemma StartedStep(c: Config, s: State, s': State, step: Step, q: nat, k: nat)
    requires QueueInv(c, s) && IsNext(c, s, s', step) && q < c.queues && Started(s, q, k)
    ensures q < |s'.queues| && Started(s', q, k)
  {
    ShapeStep(c, s, s', step);
    if q != s.server.q && !(step.ClientEnqueue? && step.q == q) {
      OtherQueues(c, s, s', step, q);
    }
  }

  lemma PollsToldStep(c: Config, s: State, s': State, step: Step, q: nat, k: nat)
    requires Inv(c, s) && PollInv(c, s) && IsNext(c, s, s', step) && q < c.queues && (q, k) in s'.polls
    ensures q < |s'.queues| && Started(s', q, k)
  {
    PollsStep(c, s, s', step);
    if (q, k) !in s.polls {
      InWork(c, s);
    } else {
      assert QueueTold(s, q);
    }
    assert Started(s, q, k);
    StartedStep(c, s, s', step, q, k);
  }

  /** What a step does to a request. */
  lemma RqStep(c: Config, s: State, s': State, step: Step, q: nat, k: nat)
    requires QueueInv(c, s) && IsNext(c, s, s', step) && q < c.queues && k < |s'.queues[q].rqs|
    ensures Shape(c, s')
    ensures k >= |s.queues[q].rqs| ==> s'.queues[q].rqs[k].code == 0
    ensures k < |s.queues[q].rqs| ==>
              && s'.queues[q].rqs[k].kind == s.queues[q].rqs[k].kind
              && (s'.queues[q].rqs[k].code == s.queues[q].rqs[k].code
                  || (q == s.server.q && k == s.queues[q].dequeued && s.HasHead(q) && (step.ServerSend? || step.ServerGot?)))
  {
    ShapeStep(c, s, s', step);
    if q != s.server.q && !(step.ClientEnqueue? && step.q == q) {
      OtherQueues(c, s, s', step, q);
    }
  }

  lemma PathStep(c: Config, s: State, s': State, step: Step, q: nat, k: nat)
    requires Inv(c, s) && PollInv(c, s) && IsNext(c, s, s', step) && q < c.queues && k < |s'.queues[q].rqs|
    ensures |s'.queues| == c.queues && PathOk(s', q, k)
  {
    ShapeStep(c, s, s', step);
    PollsStep(c, s, s', step);
    RqStep(c, s, s', step, q, k);
    if k < |s.queues[q].rqs| {
      assert QueueTold(s, q) && PathOk(s, q, k);
      if q == s.server.q && k == s.queues[q].dequeued && s.HasHead(q) && (step.ServerSend? || step.ServerGot?) {
        HeadStep(c, s, s', step, q);
        if step.ServerGot? {
          assert Owns(s, q, s.server.page) && FlagTold(s, q, s.server.page);
        }
      } else if (q, k) in s'.polls && (q, k) !in s.polls {
        InWork(c, s);
      }
    }
  }

  lemma DoneToldStep(c: Config, s: State, s': State, step: Step, q: nat, k: nat)
    requires Inv(c, s) && PollInv(c, s) && IsNext(c, s, s', step) && q < c.queues
    requires |s'.queues| == c.queues && k < |s'.queues[q].done| && k < |s'.queues[q].rqs|
    ensures Final(s'.queues[q].rqs[k])
  {
    ShapeStep(c, s, s', step);
    RqStep(c, s, s', step, q, k);
    assert QueueTold(s, q) && QueueOk(s, q);
    if q != s.server.q && !(step.ClientEnqueue? && step.q == q) {
      OtherQueues(c, s, s', step, q);
    }
  }

  lemma PollInvStep(c: Config, s: State, s': State, step: Step)
    requires Inv(c, s) && PollInv(c, s) && IsNext(c, s, s', step) && Apart(c, |s.sent|)
    ensures PollInv(c, s')
  {
    ShapeStep(c, s, s', step);
    HandToldStep(c, s, s', step);
    forall q: nat, p: nat | q < c.queues && Owns(s', q, p) ensures s'.HasHead(q) && p < |s'.mem| && FlagTold(s', q, p) {
      FlagToldStep(c, s, s', step, q, p);
    }
    forall x: nat | Unprocessed(s', x) ensures Fresh(s', s'.sent[x]) {
      FreshStep(c, s, s', step, x);
    }
    forall q: nat | q < c.queues ensures QueueTold(s', q) {
      forall k: nat | (q, k) in s'.polls ensures Started(s', q, k) {
        PollsToldStep(c, s, s', step, q, k);
      }
      forall k: nat | k < |s'.queues[q].rqs| ensures PathOk(s', q, k) {
        PathStep(c, s, s', step, q, k);
      }
      forall k: nat | k < |s'.queues[q].done| && k < |s'.queues[q].rqs| ensures Final(s'.queues[q].rqs[k]) {
        DoneToldStep(c, s, s', step, q, k);
      }
    }
  }

  // --- Only what was issued is finished -----------------------------------------------------------------

  ghost predicate Issued(s: State, p: nat)
    requires p < |s.owner|
  {
    p in s.inflight ==> s.owner[p] in s.issued
  }

  /** What the device has, and what it has finished, was submitted for the request that it is for. */
  ghost predicate IssuedInv(c: Config, s: State) {
    Shape(c, s) && s.ioDone <= s.issued && forall p: nat :: p < c.pages ==> Issued(s, p)
  }

  /** What a step does to the device's pages and to the record of submissions. */
  lemma DeviceStep(c: Config, s: State, s': State, step: Step)
    requires Shape(c, s) && IsNext(c, s, s', step)
    ensures var p := if step.KernelRun? then s.kernel.page else 0;
            var submits := step.KernelRun? && step.submitted && s.mem[p].op == SubmitIo;
            && s'.issued == (if submits then s.issued + {s.owner[p]} else s.issued)
            && s'.inflight == (if submits then s.inflight + {p} else if step.DeviceDone? then s.inflight - {step.page} else s.inflight)
            && s'.ioDone == (if step.DeviceDone? then s.ioDone + {s.owner[step.page]} else s.ioDone)
  {
  }

  lemma IssuedStep(c: Config, s: State, s': State, step: Step)
    requires Inv(c, s) && IssuedInv(c, s) && IsNext(c, s, s', step)
    ensures IssuedInv(c, s')
  {
    ShapeStep(c, s, s', step);
    FreeStep(c, s, s', step);
    DeviceStep(c, s, s', step);
    forall p: nat | p < c.pages ensures Issued(s', p) {
      assert Issued(s, p) && FlagsOk(s, p);
    }
    if step.DeviceDone? {
      assert Issued(s, step.page);
    }
  }

  // --- Whole runs -------------------------------------------------------------------------------------------

  lemma PollInvInit(c: Config, s: State)
    requires c.Valid() && Init(c, s)
    ensures PollInv(c, s) && IssuedInv(c, s)
  {
  }

  lemma PollInvNext(c: Config, s: State, s': State)
    requires Inv(c, s) && PollInv(c, s) && IssuedInv(c, s) && Next(c, s, s') && Apart(c, |s.sent|)
    ensures PollInv(c, s') && IssuedInv(c, s')
  {
    var step :| IsNext(c, s, s', step);
    PollInvStep(c, s, s', step);
    IssuedStep(c, s, s', step);
  }

  lemma PollInvHolds(c: Config, run: seq<State>)
    requires c.Valid() && IsRun(c, run) && Apart(c, |run[|run| - 1].sent|)
    ensures Inv(c, run[|run| - 1]) && PollInv(c, run[|run| - 1]) && IssuedInv(c, run[|run| - 1])
  {
    var Q := (s: State) => Apart(c, |s.sent|) ==> Inv(c, s) && WindowInv(c, s) && PollInv(c, s) && IssuedInv(c, s);
    forall s | Init(c, s) ensures Q(s) {
      InvInit(c, s);
      PollInvInit(c, s);
    }
    forall s, s' | Q(s) && Next(c, s, s') ensures Q(s') {
      SentOnlyGrows(c, s, s');
      if Apart(c, |s'.sent|) {
        InvNext(c, s, s');
        PollInvNext(c, s, s');
      }
    }
    RunKeeps(c, Q, run);
  }

  lemma LegiblePolls(c: Config, s: State)
    requires c.Valid() && Legible(c, s)
    ensures Inv(c, s) && PollInv(c, s) && IssuedInv(c, s)
  {
    var run :| IsRun(c, run) && run[|run| - 1] == s;
    PollInvHolds(c, run);
  }

  // --- What it means ------------------------------------------------------------------------------------

  /**
   In every run, an I/O that polls the kernel is one whose own submission turned polling on, and an
   I/O that waits for the interrupt is one whose submission did not.
   */
  lemma PathIsTheSubmissions(c: Config, s: State, q: nat, k: nat)
    requires c.Valid() && Legible(c, s) && q < |s.queues| && k < |s.queues[q].rqs| && s.queues[q].rqs[k].kind == MqIo
    ensures s.queues[q].rqs[k].code == 2 ==> (q, k) in s.polls
    ensures s.queues[q].rqs[k].code == 3 ==> (q, k) !in s.polls
  {
    LegiblePolls(c, s);
    assert QueueTold(s, q) && PathOk(s, q, k);
  }

  /** A completed I/O went the way its submission chose; a completed IPC test is back at its first code. */
  lemma CompletedByItsPath(c: Config, s: State, q: nat, k: nat)
    requires c.Valid() && Legible(c, s) && q < |s.queues| && k in s.queues[q].done && k < |s.queues[q].rqs|
    ensures s.queues[q].rqs[k].kind == MqIo ==> s.queues[q].rqs[k].code == if (q, k) in s.polls then 2 else 3
    ensures s.queues[q].rqs[k].kind == IpcTest ==> s.queues[q].rqs[k].code == 0
  {
    LegiblePolls(c, s);
    CompletedOnceInOrder(c, s, q);
    assert QueueTold(s, q) && PathOk(s, q, k) && Final(s.queues[q].rqs[k]);
  }

  /** A submission sets the flag of its page to what the device can do, and records it for its request. */
  lemma SubmissionTells(c: Config, s: State, s': State, polled: bool, submitted: bool)
    requires c.Valid() && Legible(c, s) && IsNext(c, s, s', KernelRun(polled, submitted)) && s.mem[s.kernel.page].op == SubmitIo
    ensures s.kernel.page < |s'.mem| && s'.mem[s.kernel.page].polled == polled
    ensures s.owner[s.kernel.page] !in s.polls && (s.owner[s.kernel.page] in s'.polls <==> polled)
  {
    LegiblePolls(c, s);
    InWork(c, s);
    var p := s.kernel.page;
    FlagStep(c, s, s', KernelRun(polled, submitted), p);
    PollsStep(c, s, s', KernelRun(polled, submitted));
    assert Fresh(s, s.sent[s.taken - 1]);
    assert FlagTold(s, s.owner[p].0, p) && OpOk(s, s.owner[p].0, p);
  }

  /** A client I/O is completed only if its own submission reached the device. */
  lemma CompletedIfIssued(c: Config, s: State, q: nat, k: nat)
    requires c.Valid() && Legible(c, s) && q < |s.queues|
    requires k in s.queues[q].done && k < |s.queues[q].rqs| && s.queues[q].rqs[k].kind == MqIo
    ensures (q, k) in s.issued
  {
    LegiblePolls(c, s);
    CompletedAfterDevice(c, s, q, k);
  }
}
