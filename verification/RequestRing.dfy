/**
 The single-producer single-consumer request ring, with its 32-bit wrapping
 counters, and the exact condition under which it is a bounded FIFO.
 */
module RequestRing {
  import opened Words

  /** The ring as it lies in memory: two wrapped counters and the slot array. */
  datatype Ring<T> = Ring(enqueued: nat, dequeued: nat, queue: seq<T>) {
    predicate WellFormed() {
      enqueued < WRAP && dequeued < WRAP && 0 < |queue| < WRAP
    }
  }

  datatype Op<T> = Enqueue(data: T) | Peek | Dequeue

  /** What the caller sees; an accepted request learns its id. */
  datatype Reply<T> = Accepted(reqId: nat) | Full | Item(data: T) | Empty

  function Step<T>(r: Ring<T>, op: Op<T>): (o: (Ring<T>, Reply<T>))
    requires r.WellFormed()
    ensures o.0.WellFormed() && |o.0.queue| == |r.queue|
  {
    match op
    case Enqueue(data) =>
      if Minus(r.enqueued, r.dequeued) == |r.queue| then (r, Full)
      else (Ring((r.enqueued + 1) % WRAP, r.dequeued, r.queue[r.enqueued % |r.queue| := data]),
            Accepted(r.enqueued))
    case Peek =>
      if r.enqueued == r.dequeued then (r, Empty)
      else (r, Item(r.queue[r.dequeued % |r.queue|]))
    case Dequeue =>
      if r.enqueued == r.dequeued then (r, Empty)
      else (r.(dequeued := (r.dequeued + 1) % WRAP), Item(r.queue[r.dequeued % |r.queue|]))
  }

  function After<T>(r: Ring<T>, ops: seq<Op<T>>): (r': Ring<T>)
    requires r.WellFormed()
    ensures r'.WellFormed() && |r'.queue| == |r.queue|
  {
    if ops == [] then r else Step(After(r, ops[..|ops| - 1]), ops[|ops| - 1]).0
  }

  function Replies<T>(r: Ring<T>, ops: seq<Op<T>>): (o: seq<Reply<T>>)
    requires r.WellFormed()
    ensures |o| == |ops|
  {
    if ops == [] then []
    else Replies(r, ops[..|ops| - 1]) + [Step(After(r, ops[..|ops| - 1]), ops[|ops| - 1]).1]
  }

  // The reference: a bounded FIFO that remembers everything ever sent.

  datatype Fifo<T> = Fifo(sent: seq<T>, taken: nat) {
    predicate WellFormed() { taken <= |sent| }
  }

  function FifoStep<T>(f: Fifo<T>, depth: nat, op: Op<T>): (o: (Fifo<T>, Reply<T>))
    requires f.WellFormed()
    ensures o.0.WellFormed() && f.sent <= o.0.sent
  {
    match op
    case Enqueue(data) =>
      if |f.sent| - f.taken == depth then (f, Full)
      else (f.(sent := f.sent + [data]), Accepted(|f.sent| % WRAP))
    case Peek =>
      if |f.sent| == f.taken then (f, Empty) else (f, Item(f.sent[f.taken]))
    case Dequeue =>
      if |f.sent| == f.taken then (f, Empty) else (f.(taken := f.taken + 1), Item(f.sent[f.taken]))
  }

  function FifoAfter<T>(depth: nat, ops: seq<Op<T>>): (f: Fifo<T>)
    ensures f.WellFormed()
  {
    if ops == [] then Fifo([], 0)
    else FifoStep(FifoAfter(depth, ops[..|ops| - 1]), depth, ops[|ops| - 1]).0
  }

  function FifoReplies<T>(depth: nat, ops: seq<Op<T>>): (o: seq<Reply<T>>)
    ensures |o| == |ops|
  {
    if ops == [] then []
    else FifoReplies(depth, ops[..|ops| - 1])
         + [FifoStep(FifoAfter(depth, ops[..|ops| - 1]), depth, ops[|ops| - 1]).1]
  }

  /** The ring holds exactly the FIFO's pending items, each in the slot its count selects. */
  ghost predicate Represents<T>(r: Ring<T>, f: Fifo<T>)
  {
    && r.WellFormed() && f.WellFormed()
    && |f.sent| - f.taken <= |r.queue|
    && r.enqueued == |f.sent| % WRAP
    && r.dequeued == f.taken % WRAP
    && forall i :: f.taken <= i < |f.sent| ==> r.queue[Slot(i, |r.queue|)] == f.sent[i]
  }

  predicate Fresh<T>(r: Ring<T>) {
    r.WellFormed() && r.enqueued == 0 && r.dequeued == 0
  }

  lemma EnqueueRefines<T>(r: Ring<T>, f: Fifo<T>, data: T)
    requires Represents(r, f)
    requires Cyclic(|r.queue|, |f.sent| + 1)
    ensures Step(r, Enqueue(data)).1 == FifoStep(f, |r.queue|, Enqueue(data)).1
    ensures Represents(Step(r, Enqueue(data)).0, FifoStep(f, |r.queue|, Enqueue(data)).0)
  {
    var m, n := |r.queue|, |f.sent|;
    MinusIsDistance(n, f.taken);
    if n - f.taken < m {
      CountStep(n);
      forall i | f.taken <= i < n ensures Slot(i, m) != Slot(n, m) {
        SlotsDistinct(i, n, m);
      }
    }
  }

  lemma DequeueRefines<T>(r: Ring<T>, f: Fifo<T>)
    requires Represents(r, f)
    ensures r.enqueued == r.dequeued <==> |f.sent| == f.taken
    ensures Step(r, Dequeue).1 == FifoStep(f, |r.queue|, Dequeue).1
    ensures Represents(Step(r, Dequeue).0, FifoStep(f, |r.queue|, Dequeue).0)
  {
    MinusIsDistance(|f.sent|, f.taken);
    CountStep(f.taken);
  }

  lemma StepRefines<T>(r: Ring<T>, f: Fifo<T>, op: Op<T>)
    requires Represents(r, f)
    requires Cyclic(|r.queue|, |FifoStep(f, |r.queue|, op).0.sent|)
    ensures Step(r, op).1 == FifoStep(f, |r.queue|, op).1
    ensures Represents(Step(r, op).0, FifoStep(f, |r.queue|, op).0)
  {
    match op
    case Enqueue(data) =>
      if |f.sent| - f.taken < |r.queue| {
        EnqueueRefines(r, f, data);
      } else {
        MinusIsDistance(|f.sent|, f.taken);
      }
    case Peek =>
      DequeueRefines(r, f);
    case Dequeue =>
      DequeueRefines(r, f);
  }

  lemma SentGrows<T>(depth: nat, ops: seq<Op<T>>, n: nat)
    requires n <= |ops|
    ensures FifoAfter(depth, ops[..n]).sent <= FifoAfter(depth, ops).sent
    decreases |ops|
  {
    if n < |ops| {
      SentGrows(depth, ops[..|ops| - 1], n);
      assert ops[..|ops| - 1][..n] == ops[..n];
    } else {
      assert ops[..n] == ops;
    }
  }

  /**
   Every run that has not wrapped the counter, and every run at all when the depth
   divides 2^32, is indistinguishable from the bounded FIFO.
   */
  lemma {:induction false} RunRefines<T>(r: Ring<T>, ops: seq<Op<T>>)
    requires Fresh(r)
    requires Cyclic(|r.queue|, |FifoAfter(|r.queue|, ops).sent|)
    ensures Replies(r, ops) == FifoReplies(|r.queue|, ops)
    ensures Represents(After(r, ops), FifoAfter(|r.queue|, ops))
  {
    if ops != [] {
      var n := |ops| - 1;
      SentGrows(|r.queue|, ops, n);
      RunRefines(r, ops[..n]);
      StepRefines(After(r, ops[..n]), FifoAfter(|r.queue|, ops[..n]), ops[n]);
    }
  }

  // The other direction: a depth that does not divide 2^32 loses a request at the wrap.

  function Pairs(n: nat): (ops: seq<Op<int>>)
    ensures |ops| == 2 * n
  {
    if n == 0 then [] else Pairs(n - 1) + [Enqueue(0)] + [Dequeue]
  }

  function Fill(n: nat): (ops: seq<Op<int>>)
    ensures |ops| == n
  {
    if n == 0 then [] else Fill(n - 1) + [Enqueue(2)]
  }

  lemma AfterSnoc(r: Ring<int>, ops: seq<Op<int>>, op: Op<int>)
    requires r.WellFormed()
    ensures After(r, ops + [op]) == Step(After(r, ops), op).0
    ensures Replies(r, ops + [op]) == Replies(r, ops) + [Step(After(r, ops), op).1]
    ensures FifoAfter(|r.queue|, ops + [op]) == FifoStep(FifoAfter(|r.queue|, ops), |r.queue|, op).0
    ensures FifoReplies(|r.queue|, ops + [op])
         == FifoReplies(|r.queue|, ops) + [FifoStep(FifoAfter(|r.queue|, ops), |r.queue|, op).1]
  {
    assert (ops + [op])[..|ops + [op]| - 1] == ops;
  }

  lemma PairStep(r: Ring<int>, f: Fifo<int>)
    requires r.WellFormed() && f.WellFormed()
    requires r.enqueued == r.dequeued == |f.sent| == f.taken && r.enqueued + 1 < WRAP
    ensures var r' := Step(Step(r, Enqueue(0)).0, Dequeue).0;
            var f' := FifoStep(FifoStep(f, |r.queue|, Enqueue(0)).0, |r.queue|, Dequeue).0;
            r'.enqueued == r'.dequeued == |f'.sent| == f'.taken == r.enqueued + 1
  {
  }

  lemma {:induction false} AfterPairs(r: Ring<int>, n: nat)
    requires Fresh(r) && n < WRAP
    ensures var r' := After(r, Pairs(n)); r'.enqueued == n == r'.dequeued
    ensures var f := FifoAfter(|r.queue|, Pairs(n)); |f.sent| == n == f.taken
  {
    if n > 0 {
      AfterPairs(r, n - 1);
      AfterSnoc(r, Pairs(n - 1), Enqueue(0));
      AfterSnoc(r, Pairs(n - 1) + [Enqueue(0)], Dequeue);
      PairStep(After(r, Pairs(n - 1)), FifoAfter(|r.queue|, Pairs(n - 1)));
    }
  }

  /** Just past the wrap: the oldest request was sent last before it, k more came after. */
  ghost predicate Straddles(r: Ring<int>, f: Fifo<int>, k: nat)
  {
    && r.WellFormed() && f.WellFormed() && k < |r.queue|
    && r.enqueued == k && r.dequeued == WRAP - 1
    && (forall j: nat :: j < k ==> r.queue[j] == 2)
    && |f.sent| == WRAP + k && f.taken == WRAP - 1 && f.sent[WRAP - 1] == 1
  }

  lemma FillFirst(r: Ring<int>, f: Fifo<int>)
    requires r.WellFormed() && f.WellFormed()
    requires r.enqueued == r.dequeued == |f.sent| == f.taken == WRAP - 1
    ensures Straddles(Step(r, Enqueue(1)).0, FifoStep(f, |r.queue|, Enqueue(1)).0, 0)
  {
  }

  lemma FillStep(r: Ring<int>, f: Fifo<int>, k: nat)
    requires Straddles(r, f, k) && k + 1 < |r.queue|
    ensures Straddles(Step(r, Enqueue(2)).0, FifoStep(f, |r.queue|, Enqueue(2)).0, k + 1)
  {
    assert Minus(k, WRAP - 1) == k + 1;
    DivModUnique(k, |r.queue|, 0, k);
    assert (k + 1) % WRAP == k + 1;
  }

  lemma {:induction false} AfterFill(r: Ring<int>, ops: seq<Op<int>>, k: nat)
    requires r.WellFormed() && k < |r.queue|
    requires var r' := After(r, ops); r'.enqueued == WRAP - 1 == r'.dequeued
    requires var f := FifoAfter(|r.queue|, ops); |f.sent| == WRAP - 1 == f.taken
    ensures var run := ops + [Enqueue(1)] + Fill(k);
            Straddles(After(r, run), FifoAfter(|r.queue|, run), k)
  {
    var run := ops + [Enqueue(1)];
    if k == 0 {
      AfterSnoc(r, ops, Enqueue(1));
      FillFirst(After(r, ops), FifoAfter(|r.queue|, ops));
      assert run + Fill(0) == run;
    } else {
      AfterFill(r, ops, k - 1);
      AfterSnoc(r, run + Fill(k - 1), Enqueue(2));
      FillStep(After(r, run + Fill(k - 1)), FifoAfter(|r.queue|, run + Fill(k - 1)), k - 1);
      assert run + Fill(k) == run + Fill(k - 1) + [Enqueue(2)];
    }
  }

  /** The run that exposes the wrap: its last Dequeue returns the wrong request. */
  function Exposing(n: nat, k: nat): (ops: seq<Op<int>>)
  {
    Pairs(n) + [Enqueue(1)] + Fill(k) + [Dequeue]
  }

  lemma WrongHead(r: Ring<int>, f: Fifo<int>, k: nat)
    requires Straddles(r, f, k) && 0 < k == WRAP % |r.queue|
    ensures Step(r, Dequeue).1 == Item(2) && FifoStep(f, |r.queue|, Dequeue).1 == Item(1)
  {
    SlotsCollideAtWrap(|r.queue|);
    assert (WRAP - 1) % |r.queue| == k - 1;
  }

  lemma WrapLosesARequest(r: Ring<int>, n: nat, k: nat)
    requires Fresh(r) && WRAP % |r.queue| != 0
    requires n == WRAP - 1 && k == WRAP % |r.queue|
    ensures var ops := Exposing(n, k);
            && FifoReplies(|r.queue|, ops)[|ops| - 1] == Item(1)
            && Replies(r, ops)[|ops| - 1] == Item(2)
  {
    AfterPairs(r, n);
    AfterFill(r, Pairs(n), k);
    var run := Pairs(n) + [Enqueue(1)] + Fill(k);
    AfterSnoc(r, run, Dequeue);
    WrongHead(After(r, run), FifoAfter(|r.queue|, run), k);
  }

  /**
   The ring answers every run as a bounded FIFO if and only if its depth divides 2^32.
   */
  lemma FifoIffDepthDivides(r: Ring<int>)
    requires Fresh(r)
    ensures (forall ops: seq<Op<int>> :: Replies(r, ops) == FifoReplies(|r.queue|, ops))
       <==> WRAP % |r.queue| == 0
  {
    if WRAP % |r.queue| == 0 {
      forall ops: seq<Op<int>> ensures Replies(r, ops) == FifoReplies(|r.queue|, ops) {
        RunRefines(r, ops);
      }
    } else {
      var n, k := WRAP - 1, WRAP % |r.queue|;
      WrapLosesARequest(r, n, k);
      var ops := Exposing(n, k);
      assert Replies(r, ops) != FifoReplies(|r.queue|, ops);
    }
  }

  // The ring with true counts.

  function Wrapped<T>(sent: nat, taken: nat, queue: seq<T>): (r: Ring<T>) {
    Ring(sent % WRAP, taken % WRAP, queue)
  }

  lemma WrappedDequeue<T>(sent: nat, taken: nat, queue: seq<T>)
    requires taken <= sent <= taken + |queue| && 0 < |queue| < WRAP
    ensures Wrapped(sent, taken, queue).WellFormed()
    ensures Step(Wrapped(sent, taken, queue), Dequeue) ==
              if taken == sent then (Wrapped(sent, taken, queue), Empty)
              else (Wrapped(sent, taken + 1, queue), Item(queue[Slot(taken, |queue|)]))
    ensures Step(Wrapped(sent, taken, queue), Peek).1 == if taken == sent then Empty else Item(queue[Slot(taken, |queue|)])
  {
    MinusIsDistance(sent, taken);
    CountStep(taken);
  }

  lemma WrappedEnqueue<T>(sent: nat, taken: nat, queue: seq<T>, x: T)
    requires taken <= sent <= taken + |queue| && 0 < |queue| < WRAP
    ensures Wrapped(sent, taken, queue).WellFormed()
    ensures Step(Wrapped(sent, taken, queue), Enqueue(x)) ==
              if sent == taken + |queue| then (Wrapped(sent, taken, queue), Full)
              else (Wrapped(sent + 1, taken, queue[Slot(sent, |queue|) := x]), Accepted(sent % WRAP))
  {
    MinusIsDistance(sent, taken);
    CountStep(sent);
  }

  /** Reading i places behind the head finds the i-th pending request. */
  lemma PeekBehindHead<T>(r: Ring<T>, f: Fifo<T>, i: nat)
    requires Represents(r, f) && i < |f.sent| - f.taken
    ensures r.queue[(r.dequeued + i) % WRAP % |r.queue|] == f.sent[f.taken + i]
  {
    CountAdd(f.taken, i);
    assert (r.dequeued + i) % WRAP % |r.queue| == Slot(f.taken + i, |r.queue|);
  }

  lemma PeeksBehindHead<T>(r: Ring<T>, i: nat, data: T)
    requires r.WellFormed() && data == r.queue[(r.dequeued + i) % WRAP % |r.queue|]
    ensures forall f: Fifo<T> :: Represents(r, f) && i < |f.sent| - f.taken ==> data == f.sent[f.taken + i]
  {
    forall f: Fifo<T> | Represents(r, f) && i < |f.sent| - f.taken ensures data == f.sent[f.taken + i] {
      PeekBehindHead(r, f, i);
    }
  }

  /** The ring object: header counters and the offset array, updated in place. */
  class RequestRingBuffer {
    var enqueued: nat
    var dequeued: nat
    var queue: array<int>

    ghost predicate Valid()
      reads this, queue
    {
      Model().WellFormed()
    }

    ghost function Model(): (r: Ring<int>)
      reads this, queue
    {
      Ring(enqueued, dequeued, queue[..])
    }

    /** Init on a region that leaves room for `depth` offsets. */
    constructor (depth: nat)
      requires 0 < depth < WRAP
      ensures Valid() && Fresh(Model()) && queue.Length == depth && fresh(queue)
    {
      enqueued, dequeued := 0, 0;
      queue := new int[depth];
    }

    method GetDepth() returns (depth: nat)
      requires Valid()
      ensures forall f: Fifo<int> :: Represents(Model(), f) ==> depth == |f.sent| - f.taken
    {
      depth := Minus(enqueued, dequeued);
      forall f: Fifo<int> | Represents(Model(), f) ensures depth == |f.sent| - f.taken {
        MinusIsDistance(|f.sent|, f.taken);
      }
    }

    method Enqueue(data: int) returns (ok: bool, reqId: nat)
      requires Valid()
      modifies this`enqueued, queue
      ensures Valid() && queue == old(queue)
      ensures Model() == Step(old(Model()), Op.Enqueue(data)).0
      ensures Step(old(Model()), Op.Enqueue(data)).1 == if ok then Accepted(reqId) else Full
    {
      if Minus(enqueued, dequeued) == queue.Length {
        return false, 0;
      }
      var entry := enqueued % queue.Length;
      reqId := enqueued;
      queue[entry] := data;
      enqueued := (enqueued + 1) % WRAP;
      ok := true;
    }

    /** Reads `i` places behind the head; only an empty ring is refused. */
    method Peek(i: nat) returns (ok: bool, data: int)
      requires Valid() && i < WRAP
      ensures i == 0 ==> Step(Model(), Op.Peek).1 == if ok then Item(data) else Empty
      ensures ok ==> forall f: Fifo<int> :: Represents(Model(), f) && i < |f.sent| - f.taken ==> data == f.sent[f.taken + i]
    {
      if enqueued == dequeued {
        return false, 0;
      }
      var entry := (dequeued + i) % WRAP % queue.Length;
      data := queue[entry];
      ok := true;
      PeeksBehindHead(Model(), i, data);
    }

    method Dequeue() returns (ok: bool, data: int)
      requires Valid()
      modifies this`dequeued
      ensures Valid()
      ensures Model() == Step(old(Model()), Op.Dequeue).0
      ensures Step(old(Model()), Op.Dequeue).1 == if ok then Item(data) else Empty
    {
      if enqueued == dequeued {
        return false, 0;
      }
      var entry := dequeued % queue.Length;
      data := queue[entry];
      dequeued := (dequeued + 1) % WRAP;
      ok := true;
    }
  }
}
