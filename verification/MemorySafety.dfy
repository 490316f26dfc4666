/**
 The theorems of the request protocol for the whole system in memory: client rings, completion
 maps, kernel ring and kernel completion map, all with wrapping ids.
 */
module MemorySafety {
  import opened Words
  import opened Protocol
  import opened ProtocolSteps
  import opened ProtocolWitness
  import opened ProtocolSafety
  import opened ClientMemory
  import opened ClientWitness
  import QueuePair

  /** The client queues' depth divides 2^32, as it must for requests to be served in order at all. */
  ghost predicate Sound(c: Config, at: Assignment) {
    c.Valid() && QueuePair.InMemory(at) && at.depth == c.depth && WRAP % c.depth == 0
  }

  lemma {:induction false} RunShaped(c: Config, at: Assignment, p: Policy, run: seq<Mem>)
    requires ClientMemory.IsRun(c, at, p, run)
    ensures Shaped(c, at, run[|run| - 1])
    decreases |run|
  {
    var n := |run| - 1;
    if n > 0 {
      var move :| CanMove(c, at, run[n - 1], move) && p(run[n - 1], move) && run[n] == After(c, at, run[n - 1], move);
      ShapedStep(c, at, run[n - 1], move);
    }
  }

  lemma InProtocol(c: Config, at: Assignment, m: Mem)
    requires Sound(c, at) && Arises(c, at, m)
    ensures Protocol.Reachable(c, m.s)
  {
    var run :| ClientMemory.IsRun(c, at, Anything(), run) && run[|run| - 1] == m;
    RunShaped(c, at, Anything(), run);
    RefinesProtocol(c, at, Anything(), m);
  }

  /** Runs with one request at a time reach memory. */
  lemma SingleRuns(c: Config, at: Assignment) returns (P: State -> bool)
    requires Sound(c, at)
    ensures Closed(Single(c), P) && P(Initial(c)) && forall s :: P(s) ==> exists m :: Arises(c, at, m) && m.s == s
  {
    var R := ArisesSteady(c, at);
    P := Lifted(c, at, R);
    forall s | P(s) ensures exists m :: Arises(c, at, m) && m.s == s {
      var m :| Tidy(c, at, R, m) && m.s == s;
      assert Arises(c, at, m);
    }
  }

  /** In memory, too, every request picks up its own kernel completion exactly when there are enough buckets. */
  lemma MatchingInMemory(c: Config, at: Assignment)
    requires Sound(c, at) && c.queues <= c.pages
    ensures (forall m :: Arises(c, at, m) ==> !Mixup(m.s)) <==> c.queues <= Window(c.buckets)
  {
    if c.queues <= Window(c.buckets) {
      MatchingIffEnoughBuckets(c);
      forall m | Arises(c, at, m) ensures !Mixup(m.s) {
        InProtocol(c, at, m);
      }
    } else {
      var P := SingleRuns(c, at);
      GroundAtWrap(Single(c));
      var s := MixupRun(Single(c), P, GroundOf(Single(c)));
      var m :| Arises(c, at, m) && m.s == s;
    }
  }

  /** And the kernel worker never finds a bucket taken exactly when there are enough for 2Q - 1 ids. */
  lemma NeverSpinsInMemory(c: Config, at: Assignment)
    requires Sound(c, at) && c.queues <= c.pages
    ensures (forall m :: Arises(c, at, m) ==> !Spins(m.s)) <==> 2 * c.queues - 1 <= Window(c.buckets)
  {
    if 2 * c.queues - 1 <= Window(c.buckets) {
      NeverSpinsIffEnoughBuckets(c);
      forall m | Arises(c, at, m) ensures !Spins(m.s) {
        InProtocol(c, at, m);
      }
    } else {
      var P := SingleRuns(c, at);
      GroundAtWrap(Single(c));
      var s := SpinRun(Single(c), P, GroundOf(Single(c)));
      var m :| Arises(c, at, m) && m.s == s;
    }
  }

  /** A client I/O is completed only after the device has finished it. */
  lemma CompletedAfterDeviceInMemory(c: Config, at: Assignment, m: Mem, q: nat, k: nat)
    requires Sound(c, at) && c.queues <= Window(c.buckets) && Arises(c, at, m) && q < |m.s.queues|
    requires k in m.s.queues[q].done && k < |m.s.queues[q].rqs| && m.s.queues[q].rqs[k].kind == MqIo
    ensures (q, k) in m.s.ioDone
  {
    InProtocol(c, at, m);
    CompletedAfterDevice(c, m.s, q, k);
  }
}
