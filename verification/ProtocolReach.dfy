/**
 Runs in which an I/O goes all the way: for every configuration, the first request of queue 0 is
 submitted, finished by the device, and completed, by interrupt and by polling.
 */
module ProtocolReach {
  import opened Words
  import opened RequestMap
  import opened Protocol
  import opened ProtocolSteps
  import opened ProtocolSafety

  /** Queue 0 holds one I/O with this code and token; page 0 is its kernel request. */
  ghost predicate OneIo(c: Config, s: State, code: nat, tok: nat) {
    && Usual(c, s) && OthersEmpty(s) && 0 < c.pages && s.owner[0] == (0, 0)
    && s.queues[0].dequeued == 0 && s.queues[0].done == [] && |s.queues[0].rqs| == 1
    && s.queues[0].rqs[0].kind == MqIo && s.queues[0].rqs[0].code == code && s.queues[0].rqs[0].tok == tok
  }

  /** The kernel request is submitted and waits with an idle kernel worker. */
  lemma Submitted(c: Config, P: State -> bool) returns (s: State)
    requires Closed(c, P) && P(Initial(c)) && 0 < c.pages
    ensures P(s) && OneIo(c, s, 1, 0) && s.server == Visit(0)
    ensures s.sent == [0] && s.taken == 0 && s.kernel == Idle && s.inflight == {}
    ensures s.mem[0] == KernRq(0, SubmitIo, false, false) && s.ring[Slot(0, c.buckets)] == 0
    ensures forall b :: 0 <= b < c.buckets ==> s.cq[b] == INVALID
  {
    var s0 := Initial(c);
    var s1 := StartSteps(c, P, s0, 0, 0, MqIo);
    var s2 := SendStep(c, P, s1, 0, 0, 1);
    assert OthersEmpty(s2);
    s := ComeBack(c, P, s2, c.After(0));
  }

  /** The kernel worker submits the I/O to the device, which finishes it, and posts the page. */
  lemma DeviceFinishes(c: Config, P: State -> bool, s: State, polled: bool) returns (s': State)
    requires Closed(c, P) && P(s) && OneIo(c, s, 1, 0) && s.sent == [0] && s.taken == 0 && s.kernel == Idle
    requires s.mem[0] == KernRq(0, SubmitIo, false, false) && s.inflight == {} && 0 < c.buckets && s.cq[0] == INVALID
    requires s.ring[Slot(0, c.buckets)] == 0
    ensures P(s') && s' == s.(taken := 1, mem := s.mem[0 := KernRq(0, SubmitIo, polled, true)],
                              cq := s.cq[0 := 0], ioDone := s.ioDone + {(0, 0)},
                              polls := if polled then s.polls + {(0, 0)} else s.polls, issued := s.issued + {(0, 0)})
  {
    DivModUnique(0, c.buckets, 0, 0);
    var s1 := Do(c, P, s, KernelTake);
    assert s1 == s.(taken := 1, kernel := Busy(0));
    var s2 := Do(c, P, s1, KernelRun(polled, true));
    var polls := if polled then s.polls + {(0, 0)} else s.polls;
    assert s2 == s.(taken := 1, kernel := Post(0), inflight := {0}, polls := polls, issued := s.issued + {(0, 0)},
                    mem := s.mem[0 := KernRq(0, SubmitIo, polled, false)]);
    var s3 := Do(c, P, s2, DeviceDone(0));
    assert s3 == s.(taken := 1, kernel := Post(0), mem := s.mem[0 := KernRq(0, SubmitIo, polled, true)],
                    ioDone := s.ioDone + {(0, 0)}, polls := polls, issued := s.issued + {(0, 0)}) by {
      assert s3.inflight == {};
    }
    s' := Do(c, P, s3, KernelPost);
  }

  /** The server finds the completion. */
  lemma Finds(c: Config, P: State -> bool, s: State, code: nat, tok: nat) returns (s': State)
    requires Closed(c, P) && P(s) && OneIo(c, s, code, tok) && s.server == Visit(0) && 1 <= code <= 2
    requires Lookup(s.cq, tok) == 0
    ensures P(s') && s' == s.(cq := Put(s.cq, tok, INVALID), server := Got(0, 1, 0))
  {
    var s1 := Enter(c, P, s, 0);
    s' := Do(c, P, s1, ServerCheck);
  }

  /** The request of queue 0 is an I/O, and it is completed. */
  ghost predicate IoCompleted(s: State) {
    && 0 < |s.queues| && |s.queues[0].rqs| == 1 && s.queues[0].rqs[0].kind == MqIo
    && s.queues[0].done == [0] && (0, 0) in s.ioDone
  }

  lemma InterruptRun(c: Config, P: State -> bool) returns (s: State)
    requires Closed(c, P) && P(Initial(c)) && 0 < c.pages
    ensures P(s) && IoCompleted(s) && s.queues[0].rqs[0].code == 3
  {
    s := Submitted(c, P);
    s := DeviceFinishes(c, P, s, false);
    DivModUnique(0, c.buckets, 0, 0);
    s := Finds(c, P, s, 1, 0);
    s := ParkedRun(c, P, s);
  }

  lemma ParkedRun(c: Config, P: State -> bool, s: State) returns (s': State)
    requires Closed(c, P) && P(s) && OneIo(c, s, 1, 0) && s.server == Got(0, 1, 0)
    requires !s.mem[0].polled && s.mem[0].ioComplete && (0, 0) in s.ioDone
    ensures P(s') && IoCompleted(s') && s'.queues[0].rqs[0].code == 3
  {
    var s1 := Do(c, P, s, ServerGot);
    assert OthersEmpty(s1);
    var s2 := ComeBack(c, P, s1, c.After(0));
    var s3 := Enter(c, P, s2, 0);
    var s4 := Do(c, P, s3, ServerParked);
    s' := Do(c, P, s4, ServerComplete);
  }

  lemma PollRun(c: Config, P: State -> bool) returns (s: State)
    requires Closed(c, P) && P(Initial(c)) && 0 < c.pages
    ensures P(s) && IoCompleted(s) && s.queues[0].rqs[0].code == 2
  {
    s := Submitted(c, P);
    s := DeviceFinishes(c, P, s, true);
    DivModUnique(0, c.buckets, 0, 0);
    s := Finds(c, P, s, 1, 0);
    assert forall b :: 0 <= b < c.buckets ==> s.cq[b] == INVALID;
    s := PolledRun(c, P, s);
    s := Finds(c, P, s, 2, 1);
    s := Do(c, P, s, ServerGot);
    s := Do(c, P, s, ServerComplete);
  }

  /** The server submits a poll, and the kernel worker posts it. */
  lemma PolledRun(c: Config, P: State -> bool, s: State) returns (s': State)
    requires Closed(c, P) && P(s) && OneIo(c, s, 1, 0) && s.server == Got(0, 1, 0)
    requires s.mem[0].polled && s.mem[0].ioComplete && (0, 0) in s.ioDone
    requires s.sent == [0] && s.taken == 1 && s.kernel == Idle && Lookup(s.cq, 1) == INVALID
    ensures P(s') && OneIo(c, s', 2, 1) && s'.server == Visit(0) && Lookup(s'.cq, 1) == 0
    ensures s'.mem[0].ioComplete && s'.ioDone == s.ioDone
  {
    var s1 := Do(c, P, s, ServerGot);
    assert s1 == s.(mem := s.mem[0 := s.mem[0].(op := PollCompletion)], server := Send(0, 0, 2));
    var s2 := SendStep(c, P, s1, 0, 0, 2);
    assert OthersEmpty(s2);
    var s3 := ComeBack(c, P, s2, c.After(0));
    var s4 := Do(c, P, s3, KernelTake);
    s' := PostSteps(c, P, s4);
  }

  /** In every configuration that has a page some run completes an I/O by interrupt, and some run by polling. */
  lemma IosComplete(c: Config)
    requires c.Valid() && 0 < c.pages
    ensures exists s :: Reachable(c, s) && IoCompleted(s) && s.queues[0].rqs[0].code == 3
    ensures exists s :: Reachable(c, s) && IoCompleted(s) && s.queues[0].rqs[0].code == 2
  {
    var P := ReachableClosed(c);
    var s := InterruptRun(c, P);
    var t := PollRun(c, P);
  }
}
