/**
 Runs that show the bucket counts of the matching theorems cannot be lowered.

 They use one polled I/O per queue. Kernel ids are issued by the queues in order, the
 kernel worker takes an id as soon as there is one, and completes it when asked to.

 The same run works from the first id on, where ids repeat their buckets after the number of
 buckets, and from shortly before the wrap on, where they do so after the remainder of 2^32.
 */
module ProtocolWitness {
  import opened Words
  import opened RequestMap
  import opened Protocol
  import opened ProtocolSteps

  /** From id `base` on the buckets are used in order, and again from the first one after `slots` ids. */
  datatype Ground = Ground(base: nat, slots: nat)

  function At(c: Config, g: Ground, x: nat): (b: nat)
    requires c.Valid()
  {
    Slot(g.base + x, c.buckets)
  }

  ghost predicate Grounded(c: Config, g: Ground) {
    && c.Valid() && 0 < g.slots <= c.buckets
    && (forall x: nat :: x < g.slots ==> At(c, g, x) == x) && At(c, g, g.slots) == 0
  }

  /** The first id, or the last multiple of the buckets before the wrap. */
  function GroundOf(c: Config): (g: Ground)
    requires c.Valid()
  {
    Ground(if WRAP % c.buckets == 0 then 0 else WRAP - Window(c.buckets), Window(c.buckets))
  }

  lemma GroundAtWrap(c: Config)
    requires c.Valid()
    ensures Grounded(c, GroundOf(c))
  {
    if WRAP % c.buckets == 0 {
      GroundAtStart(c);
    } else {
      var g := GroundOf(c);
      forall x: nat | x < g.slots ensures At(c, g, x) == x {
        WindowIsTight(c.buckets, x);
      }
      WindowIsTight(c.buckets, 0);
    }
  }

  lemma GroundAtStart(c: Config)
    requires c.Valid()
    ensures Grounded(c, Ground(0, c.buckets))
  {
    var g := Ground(0, c.buckets);
    forall x: nat | x < c.buckets ensures At(c, g, x) == x {
      DivModUnique(x, c.buckets, 0, x);
    }
    DivModUnique(c.buckets, c.buckets, 1, 0);
  }

  /** Requests that queue q had before. */
  function Before(g: Ground, q: nat): (d: nat) {
    if q == 0 then g.base else 0
  }

  /** The id queue q waits for after n queues have submitted and queues 1..r polled once. */
  function TokOf(n: nat, r: nat, q: nat): (x: nat) {
    if 1 <= q <= r then n + q - 1 else q
  }

  ghost predicate QueueAt(s: State, g: Ground, n: nat, r: nat, q: nat)
    requires q < |s.queues|
  {
    var cl, d := s.queues[q], Before(g, q);
    && cl.dequeued == d
    && if q < n then |cl.rqs| == d + 1 && cl.rqs[d].kind == MqIo
                     && cl.rqs[d].code == (if 1 <= q <= r then 2 else 1)
                     && cl.rqs[d].tok == g.base + TokOf(n, r, q)
       else |cl.rqs| == d
  }

  /** Page q belongs to queue q; polling was enabled when the kernel submitted it. */
  ghost predicate PageAt(s: State, g: Ground, n: nat, k: nat, r: nat, q: nat)
    requires q < |s.mem| == |s.owner|
  {
    && (q < n ==> s.owner[q] == (q, Before(g, q)) && s.mem[q].reqId == g.base + TokOf(n, r, q))
    && (q < n && q < k ==> s.mem[q].polled)
    && (k <= q < n ==> s.mem[q].op == SubmitIo)
    && (q in s.free <==> n <= q)
  }

  /** What bucket b holds after k completions of which those of queues 1..r were reaped. */
  function BucketAt(n: nat, k: nat, r: nat, b: nat): (off: int) {
    if b < n && b < k && !(1 <= b <= r) then b
    else if n <= b < k then b - n + 1
    else INVALID
  }

  /** The page of the x-th id. */
  function PageOf(n: nat, x: nat): (p: nat) {
    if x < n then x else x - n + 1
  }

  ghost predicate InPlace(s: State, i: nat) {
    i < |s.sent| && 0 < |s.ring| && s.ring[Slot(i, |s.ring|)] == s.sent[i]
  }

  /** n queues have submitted, the kernel completed k ids, and queues 1..r submitted a poll. */
  ghost predicate World(c: Config, P: State -> bool, s: State, g: Ground, n: nat, k: nat, r: nat) {
    && Closed(c, P) && P(s) && Grounded(c, g) && Usual(c, s)
    && n <= c.queues && n <= c.pages
    && (r == 0 || (r < n <= k)) && k <= n + r && |s.sent| == g.base + n + r && k <= g.slots
    && (forall i :: g.base <= i < |s.sent| ==> s.sent[i] == PageOf(n, i - g.base))
    && s.taken == g.base + (if k < n + r then k + 1 else k)
    && s.kernel == (if k < n + r then Busy(s.sent[g.base + k]) else Idle)
    && (forall i :: s.taken <= i < |s.sent| ==> InPlace(s, i))
    && (forall q :: 0 <= q < c.queues ==> QueueAt(s, g, n, r, q))
    && (forall q :: 0 <= q < c.pages ==> PageAt(s, g, n, k, r, q))
    && (forall b :: 0 <= b < c.buckets ==> s.cq[b] == BucketAt(n, k, r, b))
  }

  lemma Start(c: Config, P: State -> bool, s: State, g: Ground)
    requires Closed(c, P) && P(s) && Grounded(c, g) && Quiet(c, s, g.base)
    ensures World(c, P, s, g, 0, 0, 0)
  {
    forall q: nat | q < c.queues ensures QueueAt(s, g, 0, 0, q) {
      assert 1 <= q ==> s.queues[q] == ClientQueue([], 0, []);
    }
  }

  // --- Which buckets the ids of a world use ---------------------------------------------

  /** A new id takes no slot of the kernel ring that is still in use. */
  lemma NewSlot(c: Config, g: Ground, x: nat, y: nat)
    requires Grounded(c, g) && 0 < x < y <= g.slots
    ensures Slot(g.base + x, c.buckets) != Slot(g.base + y, c.buckets)
  {
    assert At(c, g, x) == x;
    assert y < g.slots ==> At(c, g, y) == y;
  }

  lemma BucketIs(c: Config, P: State -> bool, s: State, g: Ground, n: nat, k: nat, r: nat, x: nat)
    requires World(c, P, s, g, n, k, r) && x < g.slots
    ensures Slot(g.base + x, c.buckets) == x && Lookup(s.cq, g.base + x) == BucketAt(n, k, r, x)
  {
    assert At(c, g, x) == x;
  }

  /** The first id beyond shares its bucket with id 0. */
  lemma BucketWraps(c: Config, P: State -> bool, s: State, g: Ground, n: nat, k: nat, r: nat)
    requires World(c, P, s, g, n, k, r)
    ensures Lookup(s.cq, g.base + g.slots) == BucketAt(n, k, r, 0)
  {
    assert At(c, g, g.slots) == 0;
  }

  // --- Steps of a world ------------------------------------------------------------------

  /** After a submission and perhaps a take, the ring still holds what was not taken. */
  lemma StillInPlace(c: Config, P: State -> bool, s: State, s': State, g: Ground, n: nat, k: nat, r: nat, page: nat)
    requires World(c, P, s, g, n, k, r) && n + r <= g.slots
    requires s'.sent == s.sent + [page] && s'.ring == s.ring[Slot(|s.sent|, c.buckets) := page] && s.taken <= s'.taken
    ensures forall i :: s'.taken <= i < |s'.sent| ==> InPlace(s', i)
  {
    forall i | s'.taken <= i < |s'.sent| ensures InPlace(s', i) {
      if i < |s.sent| {
        assert InPlace(s, i);
        NewSlot(c, g, i - g.base, n + r);
      }
    }
  }

  lemma Submit(c: Config, P: State -> bool, s: State, g: Ground, n: nat) returns (s': State)
    requires World(c, P, s, g, n, 0, 0) && s.server == Visit(n) && n < c.queues && n < c.pages && n <= g.slots
    ensures World(c, P, s', g, n + 1, 0, 0) && s'.server == Visit(c.After(n))
  {
    assert QueueAt(s, g, n, 0, n) && PageAt(s, g, n, 0, 0, n);
    var s1 := StartSteps(c, P, s, n, n, MqIo);
    var s2 := SendStep(c, P, s1, n, n, 1);
    s' := TakeIfIdle(c, P, s2);
    StillInPlace(c, P, s, s', g, n, 0, 0, n);
    var m := n + 1;
    forall q: nat | q < c.queues ensures QueueAt(s', g, m, 0, q) {
      assert QueueAt(s, g, n, 0, q);
    }
    forall q: nat | q < c.pages ensures PageAt(s', g, m, 0, 0, q) {
      assert PageAt(s, g, n, 0, 0, q);
    }
  }

  lemma SameWorld(c: Config, P: State -> bool, s: State, s': State, g: Ground, n: nat, k: nat, r: nat)
    requires World(c, P, s, g, n, k, r) && P(s') && s' == s.(server := s'.server) && s'.server.q < c.queues
    ensures World(c, P, s', g, n, k, r)
  {
    forall q | 0 <= q < c.queues ensures QueueAt(s', g, n, r, q) {
      assert QueueAt(s, g, n, r, q);
    }
    forall q | 0 <= q < c.pages ensures PageAt(s', g, n, k, r, q) {
      assert PageAt(s, g, n, k, r, q);
    }
    forall i | s'.taken <= i < |s'.sent| ensures InPlace(s', i) {
      assert InPlace(s, i);
    }
  }

  /** The server looks at a queue without requests. */
  lemma Skip(c: Config, P: State -> bool, s: State, g: Ground, n: nat, k: nat, r: nat, q: nat) returns (s': State)
    requires World(c, P, s, g, n, k, r) && s.server == Visit(q) && n <= q < c.queues
    ensures World(c, P, s', g, n, k, r) && s'.server == Visit(c.After(q))
  {
    assert QueueAt(s, g, n, r, q);
    var s1 := Do(c, P, s, ServerVisit);
    s' := Do(c, P, s1, ServerPeek);
    SameWorld(c, P, s, s', g, n, k, r);
  }

  /** The server comes to the point of looking up the completion of queue q. */
  lemma Look(c: Config, P: State -> bool, s: State, g: Ground, n: nat, k: nat, r: nat, q: nat) returns (s': State)
    requires World(c, P, s, g, n, k, r) && s.server == Visit(q) && q < n
    ensures World(c, P, s', g, n, k, r) && s' == s.(server := Run(q, 1))
    ensures s'.HasHead(q) && ChecksKernel(s'.Head(q)) && s'.Head(q).tok == g.base + TokOf(n, r, q)
  {
    assert QueueAt(s, g, n, r, q);
    s' := Enter(c, P, s, q);
    SameWorld(c, P, s, s', g, n, k, r);
  }

  /** The server looks for a completion that is not there. */
  lemma Miss(c: Config, P: State -> bool, s: State, g: Ground, n: nat, k: nat, r: nat, q: nat) returns (s': State)
    requires World(c, P, s, g, n, k, r) && s.server == Visit(q) && q < n
    requires Lookup(s.cq, g.base + TokOf(n, r, q)) == INVALID
    ensures World(c, P, s', g, n, k, r) && s'.server == Visit(c.After(q))
  {
    var s1 := Look(c, P, s, g, n, k, r, q);
    s' := Do(c, P, s1, ServerCheck);
    SameWorld(c, P, s1, s', g, n, k, r);
  }

  /** The kernel worker completes the id it holds and takes the next one. */
  lemma CompleteNext(c: Config, P: State -> bool, s: State, g: Ground, n: nat, k: nat, r: nat) returns (s': State)
    requires World(c, P, s, g, n, k, r) && k < n + r && k < g.slots
    ensures World(c, P, s', g, n, k + 1, r) && s'.server == s.server
  {
    var p := s.sent[g.base + k];
    assert PageAt(s, g, n, k, r, p);
    BucketIs(c, P, s, g, n, k, r, k);
    var s1 := PostSteps(c, P, s);
    s' := TakeIfIdle(c, P, s1);
    if k + 1 < n + r {
      assert InPlace(s, g.base + k + 1);
    }
    WorldAfterPost(c, P, s, s', g, n, k, r);
  }

  lemma WorldAfterPost(c: Config, P: State -> bool, s: State, s': State, g: Ground, n: nat, k: nat, r: nat)
    requires World(c, P, s, g, n, k, r) && k < n + r && k < g.slots && P(s')
    requires s' == s.(mem := s'.mem, cq := s.cq[k := s.kernel.page], taken := s'.taken, kernel := s'.kernel, polls := s'.polls)
    requires s'.taken == g.base + (if k + 1 < n + r then k + 2 else k + 1)
    requires s'.kernel == if k + 1 < n + r then Busy(s.sent[g.base + k + 1]) else Idle
    requires var p := s.kernel.page;
             p < |s.mem| && s'.mem == s.mem[p := s.mem[p].(polled := s.mem[p].polled || s.mem[p].op == SubmitIo)]
    ensures World(c, P, s', g, n, k + 1, r)
  {
    var l := k + 1;
    forall i | s'.taken <= i < |s'.sent| ensures InPlace(s', i) {
      assert InPlace(s, i);
    }
    forall q: nat | q < c.queues ensures QueueAt(s', g, n, r, q) {
      assert QueueAt(s, g, n, r, q);
    }
    forall q: nat | q < c.pages ensures PageAt(s', g, n, l, r, q) {
      assert PageAt(s, g, n, k, r, q);
    }
  }

  /** The server finds the completion of queue r + 1 and submits a poll for it. */
  lemma Resubmit(c: Config, P: State -> bool, s: State, g: Ground, n: nat, k: nat, r: nat) returns (s': State)
    requires World(c, P, s, g, n, k, r) && s.server == Visit(r + 1) && r + 1 < n == k && n + r <= g.slots
    ensures World(c, P, s', g, n, k, r + 1) && s'.server == Visit(c.After(r + 1))
  {
    var q := r + 1;
    assert PageAt(s, g, n, k, r, q) && QueueAt(s, g, n, r, q);
    var s1 := Look(c, P, s, g, n, k, r, q);
    BucketIs(c, P, s, g, n, k, r, q);
    s' := PollSteps(c, P, s1, q);
    StillInPlace(c, P, s, s', g, n, k, r, q);
    forall p: nat | p < c.queues ensures QueueAt(s', g, n, q, p) {
      assert QueueAt(s, g, n, r, p);
    }
    forall p: nat | p < c.pages ensures PageAt(s', g, n, k, q, p) {
      assert PageAt(s, g, n, k, r, p);
    }
  }

  /** The server takes the completion of queue q, submits a poll, and the kernel worker takes that. */
  lemma PollSteps(c: Config, P: State -> bool, s: State, q: nat) returns (s': State)
    requires Closed(c, P) && P(s) && Usual(c, s) && s.server == Run(q, 1) && q < c.pages
    requires s.HasHead(q) && |s.queues[q].rqs| == s.queues[q].dequeued + 1
    requires s.Head(q).kind == MqIo && s.Head(q).code == 1 && Lookup(s.cq, s.Head(q).tok) == q && s.mem[q].polled
    requires |s.sent| < s.taken + c.buckets && (s.kernel.Idle? ==> s.taken == |s.sent|)
    ensures P(s')
    ensures var cl := s.queues[q];
            var d := cl.dequeued;
            && s'.cq == Put(s.cq, s.Head(q).tok, INVALID) && s'.server == Visit(c.After(q)) && s'.sent == s.sent + [q]
            && s'.ring == s.ring[Slot(|s.sent|, c.buckets) := q] && s'.free == s.free && s'.owner == s.owner
            && s'.queues == s.queues[q := cl.(rqs := cl.rqs[d := cl.rqs[d].(tok := |s.sent|, code := 2)])]
            && s'.mem == s.mem[q := s.mem[q].(op := PollCompletion, reqId := |s.sent|)]
            && s'.taken == (if s.kernel.Idle? then s.taken + 1 else s.taken)
            && s'.kernel == (if s.kernel.Idle? then Busy(q) else s.kernel)
  {
    var s2 := Do(c, P, s, ServerCheck);
    assert s2 == s.(cq := Put(s.cq, s.Head(q).tok, INVALID), server := Got(q, 1, q));
    var s3 := Do(c, P, s2, ServerGot);
    assert s3 == s2.(mem := s2.mem[q := s2.mem[q].(op := PollCompletion)], server := Send(q, q, 2));
    var s4 := SendStep(c, P, s3, q, q, 2);
    s' := TakeIfIdle(c, P, s4);
  }

  // --- The same, repeated --------------------------------------------------------------

  lemma {:induction false} SubmitAll(c: Config, P: State -> bool, g: Ground, n: nat) returns (s: State)
    requires Closed(c, P) && P(Initial(c)) && Grounded(c, g) && 0 < c.pages && n <= c.queues <= c.pages && n <= g.slots + 1
    ensures World(c, P, s, g, n, 0, 0) && s.server == Visit(if n == c.queues then 0 else n)
    decreases n
  {
    if n == 0 {
      s := QuietAfter(c, P, g.base);
      Start(c, P, s, g);
    } else {
      s := SubmitAll(c, P, g, n - 1);
      s := Submit(c, P, s, g, n - 1);
    }
  }

  lemma {:induction false} SkipRest(c: Config, P: State -> bool, s: State, g: Ground, n: nat, q: nat) returns (s': State)
    requires World(c, P, s, g, n, 0, 0) && s.server == Visit(q) && (q == 0 || n <= q)
    ensures World(c, P, s', g, n, 0, 0) && s'.server == Visit(0)
    decreases if q == 0 then 0 else c.queues - q
  {
    s' := s;
    if q != 0 {
      s' := Skip(c, P, s, g, n, 0, 0, q);
      s' := SkipRest(c, P, s', g, n, c.After(q));
    }
  }

  lemma {:induction false} MissUpTo(c: Config, P: State -> bool, s: State, g: Ground, n: nat, q: nat, last: nat)
    returns (s': State)
    requires World(c, P, s, g, n, 1, 0) && s.server == Visit(q) && 1 <= q <= last < n && last <= g.slots
    ensures World(c, P, s', g, n, 1, 0) && s'.server == Visit(last)
    decreases last - q
  {
    s' := s;
    if q < last {
      BucketIs(c, P, s, g, n, 1, 0, q);
      s' := Miss(c, P, s, g, n, 1, 0, q);
      s' := MissUpTo(c, P, s', g, n, q + 1, last);
    }
  }

  lemma {:induction false} CompleteUpTo(c: Config, P: State -> bool, s: State, g: Ground, n: nat, k: nat, r: nat, last: nat)
    returns (s': State)
    requires World(c, P, s, g, n, k, r) && k <= last <= n + r && last <= g.slots
    ensures World(c, P, s', g, n, last, r) && s'.server == s.server
    decreases last - k
  {
    s' := s;
    if k < last {
      s' := CompleteNext(c, P, s, g, n, k, r);
      s' := CompleteUpTo(c, P, s', g, n, k + 1, r, last);
    }
  }

  lemma {:induction false} ResubmitUpTo(c: Config, P: State -> bool, s: State, g: Ground, n: nat, r: nat, last: nat)
    returns (s': State)
    requires World(c, P, s, g, n, n, r) && s.server == Visit(r + 1) && r < last < n == c.queues && n + last <= g.slots + 1
    ensures World(c, P, s', g, n, n, last)
    decreases last - r
  {
    s' := Resubmit(c, P, s, g, n, n, r);
    if r + 1 < last {
      s' := ResubmitUpTo(c, P, s', g, n, r + 1, last);
    }
  }

  // --- Too few buckets for the queues: the wrong completion -------------------------------

  /** The server is about to take the completion of another client request. */
  ghost predicate Mixup(s: State) {
    && s.server.Run? && s.HasHead(s.server.q) && ChecksKernel(s.Head(s.server.q))
    && 0 < |s.cq| && 0 <= Lookup(s.cq, s.Head(s.server.q).tok) < |s.owner|
    && s.owner[Lookup(s.cq, s.Head(s.server.q).tok)] != (s.server.q, s.queues[s.server.q].dequeued)
  }

  /** The id after `slots` others is looked up where the first was posted. */
  lemma LookMixup(c: Config, P: State -> bool, s: State, g: Ground) returns (s': State)
    requires World(c, P, s, g, g.slots + 1, 1, 0) && s.server == Visit(g.slots)
    ensures P(s') && Mixup(s') && s'.sent == s.sent
  {
    var B := g.slots;
    s' := Look(c, P, s, g, B + 1, 1, 0, B);
    BucketWraps(c, P, s', g, B + 1, 1, 0);
    assert PageAt(s', g, B + 1, 1, 0, 0) && QueueAt(s', g, B + 1, 0, B);
  }

  /** The server misses the first completion, which the kernel worker then posts. */
  lemma PostFirst(c: Config, P: State -> bool, s: State, g: Ground, n: nat) returns (s': State)
    requires World(c, P, s, g, n, 0, 0) && s.server == Visit(0) && 1 < n
    ensures World(c, P, s', g, n, 1, 0) && s'.server == Visit(1)
  {
    BucketIs(c, P, s, g, n, 0, 0, 0);
    s' := Miss(c, P, s, g, n, 0, 0, 0);
    s' := CompleteNext(c, P, s', g, n, 0, 0);
  }

  lemma MixupRun(c: Config, P: State -> bool, g: Ground) returns (s: State)
    requires Closed(c, P) && P(Initial(c)) && Grounded(c, g) && g.slots < c.queues <= c.pages
    ensures P(s) && Mixup(s) && |s.sent| == g.base + g.slots + 1
  {
    var n := g.slots + 1;
    s := SubmitAll(c, P, g, n);
    s := SkipRest(c, P, s, g, n, s.server.q);
    s := PostFirst(c, P, s, g, n);
    s := MissUpTo(c, P, s, g, n, 1, g.slots);
    s := LookMixup(c, P, s, g);
  }

  // --- Fewer than 2Q - 1 buckets: the kernel worker spins --------------------------------

  /** The kernel worker cannot post its completion: the bucket is taken. */
  ghost predicate Spins(s: State) {
    s.kernel.Post? && s.kernel.page < |s.mem| && 0 < |s.cq| && Lookup(s.cq, s.mem[s.kernel.page].reqId) != INVALID
  }

  /** Once as many ids as there are slots are posted and the first is not reaped, the next has no place. */
  lemma SpinFrom(c: Config, P: State -> bool, s: State, g: Ground, n: nat, r: nat) returns (s': State)
    requires World(c, P, s, g, n, g.slots, r) && g.slots < n + r
    ensures P(s') && Spins(s') && |s'.sent| == g.base + n + r
  {
    var B := g.slots;
    var p := s.sent[g.base + B];
    assert PageAt(s, g, n, B, r, p);
    BucketWraps(c, P, s, g, n, B, r);
    s' := Do(c, P, s, KernelRun(true, false));
    assert s'.mem[p].reqId == g.base + B && s'.cq == s.cq;
  }

  lemma SpinRun(c: Config, P: State -> bool, g: Ground) returns (s: State)
    requires Closed(c, P) && P(Initial(c)) && Grounded(c, g) && g.slots < 2 * c.queues - 1 && c.queues <= c.pages
    ensures P(s) && Spins(s) && |s.sent| == g.base + g.slots + 1
  {
    if g.slots < c.queues {
      s := SubmitAll(c, P, g, g.slots + 1);
      s := CompleteUpTo(c, P, s, g, g.slots + 1, 0, 0, g.slots);
      s := SpinFrom(c, P, s, g, g.slots + 1, 0);
    } else {
      s := SpinAfterPolls(c, P, g);
    }
  }

  lemma SpinAfterPolls(c: Config, P: State -> bool, g: Ground) returns (s: State)
    requires Closed(c, P) && P(Initial(c)) && Grounded(c, g) && c.queues <= g.slots < 2 * c.queues - 1 && c.queues <= c.pages
    ensures P(s) && Spins(s) && |s.sent| == g.base + g.slots + 1
  {
    var Q, B := c.queues, g.slots;
    s := SubmitAll(c, P, g, Q);
    BucketIs(c, P, s, g, Q, 0, 0, 0);
    s := Miss(c, P, s, g, Q, 0, 0, 0);
    s := CompleteUpTo(c, P, s, g, Q, 0, 0, Q);
    s := ResubmitUpTo(c, P, s, g, Q, 0, B - Q + 1);
    s := CompleteUpTo(c, P, s, g, Q, Q, B - Q + 1, B);
    s := SpinFrom(c, P, s, g, Q, B - Q + 1);
  }
}
