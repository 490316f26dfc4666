/**
 The kernel ring of the protocol is the request ring: in every run the counters, wrapped, and the
 slots are a ring in memory that moves and answers by the ring's own operations.
 */
module KernelRing {
  import opened Words
  import opened RequestRing
  import opened ProtocolInvariant
  import opened ProtocolDevice
  import opened ProtocolSafety
  import Protocol

  /** The ring as it lies in memory. */
  function Memory(s: Protocol.State): (r: Ring<nat>) {
    Wrapped(|s.sent|, s.taken, s.ring)
  }

  ghost predicate Fits(c: Protocol.Config, s: Protocol.State) {
    Shape(c, s) && |s.sent| - s.taken <= c.buckets
  }

  /** The ring's own operation for a step of the protocol, and the answer it gives. */
  ghost predicate RingMoves(s: Protocol.State, s': Protocol.State, step: Protocol.Step)
    requires Memory(s).WellFormed()
  {
    match step
    case ServerSend =>
      s.server.Send? && Step(Memory(s), Enqueue(s.server.page)) == (Memory(s'), Accepted(|s.sent| % WRAP))
    case KernelTake =>
      s'.kernel.Busy? && Step(Memory(s), Dequeue) == (Memory(s'), Item(s'.kernel.page))
    case _ => Memory(s') == Memory(s)
  }

  lemma SendMoves(c: Protocol.Config, s: Protocol.State, s': Protocol.State)
    requires Fits(c, s) && Protocol.IsNext(c, s, s', Protocol.ServerSend)
    ensures Fits(c, s') && RingMoves(s, s', Protocol.ServerSend)
  {
    WrappedEnqueue(|s.sent|, s.taken, s.ring, s.server.page);
  }

  lemma TakeMoves(c: Protocol.Config, s: Protocol.State, s': Protocol.State)
    requires Fits(c, s) && Protocol.IsNext(c, s, s', Protocol.KernelTake)
    ensures Fits(c, s') && RingMoves(s, s', Protocol.KernelTake)
  {
    WrappedDequeue(|s.sent|, s.taken, s.ring);
  }

  lemma RingStep(c: Protocol.Config, s: Protocol.State, s': Protocol.State, step: Protocol.Step)
    requires Fits(c, s) && Protocol.IsNext(c, s, s', step)
    ensures Fits(c, s') && RingMoves(s, s', step)
  {
    if step.ServerSend? {
      SendMoves(c, s, s');
    } else if step.KernelTake? {
      TakeMoves(c, s, s');
    } else {
      ShapeStep(c, s, s', step);
    }
  }

  /** The ring refuses exactly where the protocol blocks. */
  lemma RefusesWhereBlocked(c: Protocol.Config, s: Protocol.State, page: nat)
    requires Fits(c, s)
    ensures Step(Memory(s), Enqueue(page)).1.Full? <==> |s.sent| - s.taken >= c.buckets
    ensures Step(Memory(s), Dequeue).1.Empty? <==> s.taken >= |s.sent|
  {
    WrappedEnqueue(|s.sent|, s.taken, s.ring, page);
    WrappedDequeue(|s.sent|, s.taken, s.ring);
  }

  ghost predicate Moves(c: Protocol.Config, s: Protocol.State, s': Protocol.State)
    requires c.Valid()
  {
    Fits(c, s) && exists step :: Protocol.IsNext(c, s, s', step) && RingMoves(s, s', step)
  }

  /** Every run of the protocol is a run of the ring in memory. */
  lemma {:induction false} RunOfTheRing(c: Protocol.Config, run: seq<Protocol.State>)
    requires c.Valid() && Protocol.IsRun(c, run)
    ensures Fresh(Memory(run[0])) && Fits(c, run[|run| - 1])
    ensures forall i :: 0 <= i < |run| - 1 ==> Moves(c, run[i], run[i + 1])
    decreases |run|
  {
    var n := |run| - 1;
    if n > 0 {
      var before := run[..n];
      RunOfTheRing(c, before);
      var step :| Protocol.IsNext(c, run[n - 1], run[n], step);
      RingStep(c, run[n - 1], run[n], step);
      forall i | 0 <= i < n ensures Moves(c, run[i], run[i + 1]) {
        if i < n - 1 {
          assert Moves(c, before[i], before[i + 1]);
        }
      }
    }
  }

  /** As long as ids can be told apart, the ring holds the pages that were sent and not taken, in order. */
  lemma RingIsFifo(c: Protocol.Config, s: Protocol.State)
    requires c.Valid() && Legible(c, s)
    ensures Represents(Memory(s), Fifo(s.sent, s.taken))
  {
    ReachableInv(c, s);
    var run :| Protocol.IsRun(c, run) && run[|run| - 1] == s;
    RunOfTheRing(c, run);
    forall i | s.taken <= i < |s.sent| ensures s.ring[Slot(i, c.buckets)] == s.sent[i] {
      assert Lies(c, s, i);
    }
  }
}
