/**
 One client and one server over a queue pair: requests go out on the submission ring, the server
 completes what it has taken in any order, and the client waits on tokens. A completion is found
 by id modulo the number of buckets and nothing checks whose it is, and the ring's counters wrap.
 */
module QueuePair {
  import opened Words
  import opened RequestMap
  import RequestRing

  /** One assignment is for both the slots of the ring and the buckets of the map. */
  ghost predicate Valid(at: Assignment) {
    0 < at.depth && forall n :: at.slot(n) < at.depth
  }

  /** The assignment of slots and buckets in memory. */
  ghost predicate InMemory(at: Assignment) {
    0 < at.depth < WRAP && at == Slots(at.depth)
  }

  /**
   Requests are named by their true id. `sent` ids were enqueued and `taken` dequeued; `slots` is
   the ring's array. `held` lists what the server got from the ring and has not completed,
   `waiting` are tokens not yet waited for, and `reaped` lists every wait that returned, as the
   token and the request it got.
   */
  datatype Pair = Pair(
    sent: nat,
    taken: nat,
    slots: seq<nat>,
    held: seq<nat>,
    cq: seq<int>,
    waiting: set<nat>,
    reaped: seq<(nat, nat)>)

  /** `Complete(i)` is of the i-th request that the server holds. */
  datatype Step = Enqueue | Take | Complete(i: nat) | Reap(tok: nat)

  ghost predicate Init(at: Assignment, s: Pair) {
    && |s.slots| == at.depth == |s.cq| && (forall b :: 0 <= b < at.depth ==> s.cq[b] == INVALID)
    && s == Pair(0, 0, s.slots, [], s.cq, {}, [])
  }

  ghost predicate Enabled(at: Assignment, s: Pair, step: Step) {
    && Valid(at) && |s.cq| == at.depth == |s.slots|
    && match step
       case Enqueue => s.sent < s.taken + at.depth
       case Take => s.taken < s.sent
       case Complete(i) => i < |s.held| && s.cq[at.slot(s.held[i])] == INVALID
       case Reap(tok) => tok in s.waiting && 0 <= s.cq[at.slot(tok)]
  }

  function Without(xs: seq<nat>, i: nat): (ys: seq<nat>)
    requires i < |xs|
  {
    xs[..i] + xs[i + 1..]
  }

  function Apply(at: Assignment, s: Pair, step: Step): (s': Pair)
    requires Enabled(at, s, step)
  {
    match step
    case Enqueue =>
      s.(sent := s.sent + 1, slots := s.slots[at.slot(s.sent) := s.sent], waiting := s.waiting + {s.sent})
    case Take =>
      s.(taken := s.taken + 1, held := s.held + [s.slots[at.slot(s.taken)]])
    case Complete(i) =>
      s.(held := Without(s.held, i), cq := s.cq[at.slot(s.held[i]) := s.held[i]])
    case Reap(tok) =>
      s.(waiting := s.waiting - {tok}, cq := s.cq[at.slot(tok) := INVALID],
         reaped := s.reaped + [(tok, s.cq[at.slot(tok)])])
  }

  /** Enqueue is the ring's operation, blocked where that is refused. */
  lemma EnqueueIsRingStep(at: Assignment, s: Pair)
    requires InMemory(at) && |s.slots| == at.depth == |s.cq| && s.taken <= s.sent <= s.taken + at.depth
    ensures var r := RequestRing.Wrapped(s.sent, s.taken, s.slots);
            && r.WellFormed()
            && RequestRing.Step(r, RequestRing.Enqueue(s.sent)) ==
                 if Enabled(at, s, Enqueue)
                 then (RequestRing.Wrapped(s.sent + 1, s.taken, Apply(at, s, Enqueue).slots), RequestRing.Accepted(s.sent % WRAP))
                 else (r, RequestRing.Full)
  {
    RequestRing.WrappedEnqueue(s.sent, s.taken, s.slots, s.sent);
  }

  /** Take is the ring's Dequeue, blocked where that is refused. */
  lemma TakeIsRingStep(at: Assignment, s: Pair)
    requires InMemory(at) && |s.slots| == at.depth == |s.cq| && s.taken <= s.sent <= s.taken + at.depth
    ensures var r := RequestRing.Wrapped(s.sent, s.taken, s.slots);
            && r.WellFormed()
            && RequestRing.Step(r, RequestRing.Dequeue) ==
                 if Enabled(at, s, Take)
                 then (RequestRing.Wrapped(s.sent, s.taken + 1, s.slots), RequestRing.Item(Apply(at, s, Take).held[|s.held|]))
                 else (r, RequestRing.Empty)
  {
    RequestRing.WrappedDequeue(s.sent, s.taken, s.slots);
  }

  /** Complete and Reap are the operations of the map. */
  lemma StepsOfTheMap(at: Assignment, s: Pair, step: Step)
    requires InMemory(at) && Enabled(at, s, step)
    ensures step.Complete? ==>
              Lookup(s.cq, s.held[step.i]) == INVALID && Apply(at, s, step).cq == Put(s.cq, s.held[step.i], s.held[step.i])
    ensures step.Reap? ==>
              && Apply(at, s, step).reaped == s.reaped + [(step.tok, Lookup(s.cq, step.tok))]
              && Apply(at, s, step).cq == Put(s.cq, step.tok, INVALID)
  {
  }

  /** The server can complete any request it holds whose bucket is free, and a wait returns whenever its bucket is taken. */
  lemma MapBlocksIff(at: Assignment, s: Pair, i: nat, tok: nat)
    requires InMemory(at) && |s.slots| == at.depth == |s.cq|
    ensures Enabled(at, s, Complete(i)) <==> i < |s.held| && Lookup(s.cq, s.held[i]) == INVALID
    ensures Enabled(at, s, Reap(tok)) <==> tok in s.waiting && 0 <= Lookup(s.cq, tok)
  {
  }

  /** What the client and the server choose to do. */
  type Policy = (Pair, Step) -> bool

  ghost predicate Next(at: Assignment, p: Policy, s: Pair, s': Pair) {
    exists step :: Enabled(at, s, step) && p(s, step) && s' == Apply(at, s, step)
  }

  ghost predicate IsRun(at: Assignment, p: Policy, run: seq<Pair>) {
    && 0 < |run|
    && if |run| == 1 then Init(at, run[0])
       else IsRun(at, p, run[..|run| - 1]) && Next(at, p, run[|run| - 2], run[|run| - 1])
  }

  ghost predicate Reachable(at: Assignment, p: Policy, s: Pair) {
    exists run :: IsRun(at, p, run) && run[|run| - 1] == s
  }

  // --- Conservation: when no request is lost, whatever the parties do ---------------------------

  predicate InMap(at: Assignment, s: Pair, id: nat) {
    at.slot(id) < |s.cq| && s.cq[at.slot(id)] == id
  }

  function Gots(reaped: seq<(nat, nat)>): (ids: seq<nat>) {
    seq(|reaped|, i requires 0 <= i < |reaped| => reaped[i].1)
  }

  /** What the server would get from the ring, one Take after the other. */
  ghost function Pending(at: Assignment, s: Pair): (ids: seq<nat>)
    requires Valid(at) && s.taken <= s.sent && |s.slots| == at.depth
  {
    seq(s.sent - s.taken, i requires 0 <= i < s.sent - s.taken => s.slots[at.slot(s.taken + i)])
  }

  /** The number of times a request is with the server, in the map, or was returned. */
  function Beyond(at: Assignment, s: Pair, id: nat): (n: nat) {
    multiset(s.held)[id] + (if InMap(at, s, id) then 1 else 0) + multiset(Gots(s.reaped))[id]
  }

  /** A request is once in the ring, with the server, in the map, or was returned once. */
  ghost predicate OnePlace(at: Assignment, s: Pair, id: nat) {
    Valid(at) && s.taken <= s.sent && |s.slots| == at.depth && multiset(Pending(at, s))[id] + Beyond(at, s, id) == 1
  }

  /** A bucket holds only a request that belongs in it. */
  ghost predicate Placed(at: Assignment, s: Pair)
    requires 0 < |s.cq| == at.depth
  {
    forall b :: 0 <= b < at.depth ==> s.cq[b] == INVALID || (0 <= s.cq[b] < s.taken && at.slot(s.cq[b]) == b)
  }

  ghost predicate InSlot(at: Assignment, s: Pair, i: nat)
    requires Valid(at) && |s.slots| == at.depth
  {
    s.slots[at.slot(i)] == i
  }

  ghost predicate Delivered(at: Assignment, s: Pair) {
    && Valid(at) && |s.cq| == at.depth == |s.slots| && s.taken <= s.sent <= s.taken + at.depth
    && forall i: nat :: s.taken <= i < s.sent ==> InSlot(at, s, i)
  }

  ghost predicate Conserved(at: Assignment, s: Pair) {
    && Delivered(at, s) && Placed(at, s)
    && (forall id: nat :: Beyond(at, s, id) == if id < s.taken then 1 else 0)
  }

  /** The slot for the next request is not in use. */
  ghost predicate SlotFree(at: Assignment, s: Pair)
    requires Valid(at)
  {
    forall i: nat :: s.taken <= i < s.sent ==> at.slot(i) != at.slot(s.sent)
  }

  lemma EnqueueDelivers(at: Assignment, s: Pair)
    requires Valid(at) && Delivered(at, s) && Enabled(at, s, Enqueue) && SlotFree(at, s)
    ensures Delivered(at, Apply(at, s, Enqueue))
  {
    var s' := Apply(at, s, Enqueue);
    forall i: nat | s'.taken <= i < s'.sent ensures InSlot(at, s', i) {
      assert i < s.sent ==> InSlot(at, s, i);
    }
  }

  lemma OtherDelivers(at: Assignment, s: Pair, step: Step)
    requires Valid(at) && Delivered(at, s) && Enabled(at, s, step) && !step.Enqueue?
    ensures Delivered(at, Apply(at, s, step))
  {
    var s' := Apply(at, s, step);
    forall i: nat | s'.taken <= i < s'.sent ensures InSlot(at, s', i) {
      assert InSlot(at, s, i);
    }
  }

  lemma ConservedStep(at: Assignment, s: Pair, step: Step)
    requires Valid(at) && Conserved(at, s) && Enabled(at, s, step) && (step.Enqueue? ==> SlotFree(at, s))
    ensures Conserved(at, Apply(at, s, step))
  {
    match step
    case Enqueue =>
      EnqueueDelivers(at, s);
      assert forall id: nat :: Beyond(at, Apply(at, s, Enqueue), id) == Beyond(at, s, id);
    case Take => TakeConserves(at, s);
    case Complete(i) => CompleteConserves(at, s, i);
    case Reap(tok) => ReapConserves(at, s, tok);
  }

  lemma TakeConserves(at: Assignment, s: Pair)
    requires Valid(at) && Conserved(at, s) && Enabled(at, s, Take)
    ensures Conserved(at, Apply(at, s, Take))
  {
    var s' := Apply(at, s, Take);
    OtherDelivers(at, s, Take);
    assert InSlot(at, s, s.taken);
    forall id: nat ensures Beyond(at, s', id) == if id < s'.taken then 1 else 0 {
      assert Beyond(at, s', id) == Beyond(at, s, id) + if id == s.taken then 1 else 0;
    }
  }

  lemma WithoutOnce(xs: seq<nat>, i: nat, x: nat)
    requires i < |xs|
    ensures multiset(xs)[x] == multiset(Without(xs, i))[x] + if x == xs[i] then 1 else 0
  {
    assert xs == xs[..i] + [xs[i]] + xs[i + 1..];
  }

  lemma CompleteConserves(at: Assignment, s: Pair, i: nat)
    requires Valid(at) && Conserved(at, s) && Enabled(at, s, Complete(i))
    ensures Conserved(at, Apply(at, s, Complete(i)))
  {
    var s', done := Apply(at, s, Complete(i)), s.held[i];
    OtherDelivers(at, s, Complete(i));
    WithoutOnce(s.held, i, done);
    assert Beyond(at, s, done) >= 1;
    forall id: nat ensures Beyond(at, s', id) == Beyond(at, s, id) {
      WithoutOnce(s.held, i, id);
    }
  }

  lemma ReapConserves(at: Assignment, s: Pair, tok: nat)
    requires Valid(at) && Conserved(at, s) && Enabled(at, s, Reap(tok))
    ensures Conserved(at, Apply(at, s, Reap(tok)))
  {
    var s', got := Apply(at, s, Reap(tok)), s.cq[at.slot(tok)];
    OtherDelivers(at, s, Reap(tok));
    assert InMap(at, s, got) && Gots(s'.reaped) == Gots(s.reaped) + [got];
    forall id: nat ensures Beyond(at, s', id) == Beyond(at, s, id) {
    }
  }

  lemma ConservedIsOnePlace(at: Assignment, s: Pair, id: nat)
    requires Valid(at) && Conserved(at, s) && id < s.sent
    ensures OnePlace(at, s, id)
  {
    var ids := Pending(at, s);
    forall i | 0 <= i < |ids| ensures ids[i] == s.taken + i {
      assert InSlot(at, s, s.taken + i);
    }
    OnceInARow(ids, s.taken, id);
  }

  lemma OnceInARow(ids: seq<nat>, lo: nat, id: nat)
    requires forall i :: 0 <= i < |ids| ==> ids[i] == lo + i
    ensures multiset(ids)[id] == if lo <= id < lo + |ids| then 1 else 0
  {
    if lo <= id < lo + |ids| {
      var k := id - lo;
      assert ids == ids[..k] + [id] + ids[k + 1..];
      assert id !in ids[..k] && id !in ids[k + 1..];
    } else {
      assert id !in ids;
    }
  }

  /** Counts below n that can be in the ring together use different slots. */
  ghost predicate DistinctBelow(at: Assignment, n: nat) {
    forall x: nat, y: nat {:trigger at.slot(x), at.slot(y)} :: x < y < n && y < x + at.depth ==> at.slot(x) != at.slot(y)
  }

  /** That is so before the wrap, and for ever if the size divides 2^32. */
  lemma CyclicIsDistinct(at: Assignment, n: nat)
    requires InMemory(at) && Cyclic(at.depth, n)
    ensures Valid(at) && DistinctBelow(at, n)
  {
    forall x: nat, y: nat | x < y < n && y < x + at.depth ensures at.slot(x) != at.slot(y) {
      SlotsDistinct(x, y, at.depth);
    }
  }

  lemma ConservedNext(at: Assignment, p: Policy, s: Pair, s': Pair)
    requires Valid(at) && Next(at, p, s, s') && DistinctBelow(at, s'.sent)
    ensures DistinctBelow(at, s.sent) && (Conserved(at, s) ==> Conserved(at, s'))
  {
    var step :| Enabled(at, s, step) && p(s, step) && s' == Apply(at, s, step);
    if Conserved(at, s) {
      assert step.Enqueue? ==> SlotFree(at, s);
      ConservedStep(at, s, step);
    }
  }

  lemma ConservedInit(at: Assignment, s: Pair)
    requires Valid(at) && Init(at, s)
    ensures Conserved(at, s)
  {
    assert Gots([]) == [];
  }

  lemma {:induction false} ConservedHolds(at: Assignment, p: Policy, run: seq<Pair>)
    requires Valid(at) && IsRun(at, p, run) && DistinctBelow(at, run[|run| - 1].sent)
    ensures Conserved(at, run[|run| - 1])
    decreases |run|
  {
    var n := |run| - 1;
    if n > 0 {
      ConservedNext(at, p, run[n - 1], run[n]);
      ConservedHolds(at, p, run[..n]);
    } else {
      ConservedInit(at, run[0]);
    }
  }

  /**
   Whatever the client and the server do, no request is lost or duplicated before the ids wrap, or
   ever if the size divides 2^32: each is once in the ring, with the server, in its bucket, or was
   returned by one wait.
   */
  lemma NoRequestIsLost(at: Assignment, p: Policy, s: Pair, id: nat)
    requires InMemory(at) && Reachable(at, p, s) && Cyclic(at.depth, s.sent) && id < s.sent
    ensures OnePlace(at, s, id)
  {
    var run :| IsRun(at, p, run) && run[|run| - 1] == s;
    CyclicIsDistinct(at, s.sent);
    ConservedHolds(at, p, run);
    ConservedIsOnePlace(at, s, id);
  }

  function Anything(): (p: Policy) { (_, _) => true }

  /** That is exact. */
  lemma NeverLostIff(at: Assignment)
    requires InMemory(at)
    ensures (forall s, id: nat :: Reachable(at, Anything(), s) && id < s.sent ==> OnePlace(at, s, id)) <==> WRAP % at.depth == 0
  {
    if WRAP % at.depth == 0 {
      forall s, id: nat | Reachable(at, Anything(), s) && id < s.sent ensures OnePlace(at, s, id) {
        NoRequestIsLost(at, Anything(), s, id);
      }
    } else {
      var s, id := Lost(at);
    }
  }

  // --- The discipline that makes every wait return its own request ----------------------------

  /** No two tokens still waited for share a bucket. */
  ghost predicate Spread(at: Assignment, s: Pair)
    requires Valid(at)
  {
    forall x, y :: x in s.waiting && y in s.waiting && x != y ==> at.slot(x) != at.slot(y)
  }

  ghost predicate Correct(s: Pair) {
    forall i :: 0 <= i < |s.reaped| ==> s.reaped[i].0 == s.reaped[i].1
  }

  ghost predicate Matched(at: Assignment, s: Pair) {
    && Conserved(at, s) && Correct(s)
    && (forall id: nat :: id in s.held || (id < s.taken && InMap(at, s, id)) ==> id in s.waiting)
    && (forall id: nat :: s.taken <= id < s.sent ==> id in s.waiting)
    && (forall id: nat :: id in s.waiting ==> id < s.sent)
  }

  /** The request found for a token is the token's own. */
  lemma OwnRequest(at: Assignment, s: Pair, tok: nat)
    requires Valid(at) && Matched(at, s) && Spread(at, s) && tok in s.waiting && s.cq[at.slot(tok)] != INVALID
    ensures s.cq[at.slot(tok)] == tok
  {
    var got := s.cq[at.slot(tok)];
    assert InMap(at, s, got);
  }

  lemma HeldIsBeyond(at: Assignment, s: Pair, id: nat)
    requires id in s.held
    ensures 1 <= Beyond(at, s, id)
  {
    assert multiset(s.held)[id] >= 1;
  }

  lemma MatchedStep(at: Assignment, s: Pair, step: Step)
    requires Valid(at) && Matched(at, s) && Spread(at, s) && Enabled(at, s, step) && Spread(at, Apply(at, s, step))
    ensures Matched(at, Apply(at, s, step))
  {
    var s' := Apply(at, s, step);
    ConservedStep(at, s, step);
    match step
    case Reap(tok) => MatchedReap(at, s, tok);
    case Complete(i) =>
      var done := s.held[i];
      assert done in s.held;
      forall id: nat | id in s'.held || (id < s'.taken && InMap(at, s', id)) ensures id in s'.waiting {
        assert id in s.held || InMap(at, s, id) || id == done;
      }
    case Take =>
      assert InSlot(at, s, s.taken);
      forall id: nat | id in s'.held || (id < s'.taken && InMap(at, s', id)) ensures id in s'.waiting {
        assert id in s.held || id == s.taken || (InMap(at, s, id) && id < s.taken);
      }
    case Enqueue =>
      assert forall id: nat :: InMap(at, s', id) <==> InMap(at, s, id);
  }

  lemma MatchedReap(at: Assignment, s: Pair, tok: nat)
    requires Valid(at) && Matched(at, s) && Spread(at, s) && Enabled(at, s, Reap(tok))
    requires Conserved(at, Apply(at, s, Reap(tok)))
    ensures Matched(at, Apply(at, s, Reap(tok)))
  {
    var s' := Apply(at, s, Reap(tok));
    OwnRequest(at, s, tok);
    assert InMap(at, s, tok) && tok < s.taken;
    forall id: nat | id in s'.held || (id < s'.taken && InMap(at, s', id)) ensures id in s'.waiting {
      if id in s.held {
        HeldIsBeyond(at, s, id);
        assert Beyond(at, s, tok) == 1;
      } else {
        assert InMap(at, s, id);
      }
    }
  }

  lemma {:induction false} MatchedHolds(at: Assignment, p: Policy, run: seq<Pair>)
    requires Valid(at) && IsRun(at, p, run) && forall k :: 0 <= k < |run| ==> Spread(at, run[k])
    ensures Matched(at, run[|run| - 1])
    decreases |run|
  {
    var n := |run| - 1;
    if n > 0 {
      MatchedHolds(at, p, run[..n]);
      var step :| Enabled(at, run[n - 1], step) && p(run[n - 1], step) && run[n] == Apply(at, run[n - 1], step);
      MatchedStep(at, run[n - 1], step);
    } else {
      ConservedInit(at, run[0]);
    }
  }

  /**
   If no two tokens waited for ever share a bucket, every wait returns exactly the request enqueued
   under its token, each token returns once, and the server's Complete never finds its bucket taken.
   */
  lemma DisciplineSuffices(at: Assignment, p: Policy, run: seq<Pair>, s: Pair)
    requires Valid(at) && IsRun(at, p, run) && s == run[|run| - 1]
    requires forall k :: 0 <= k < |run| ==> Spread(at, run[k])
    ensures Correct(s)
    ensures forall i, j :: 0 <= i < j < |s.reaped| ==> s.reaped[i].0 != s.reaped[j].0
    ensures |s.cq| == at.depth && forall id :: id in s.held ==> s.cq[at.slot(id)] == INVALID
  {
    MatchedHolds(at, p, run);
    forall i, j | 0 <= i < j < |s.reaped| ensures s.reaped[i].0 != s.reaped[j].0 {
      ReturnedOnce(at, s, i, j);
    }
    forall id | id in s.held ensures s.cq[at.slot(id)] == INVALID {
      HeldBucketIsFree(at, s, id);
    }
  }

  lemma TwiceIn(ids: seq<nat>, i: nat, j: nat)
    requires i < j < |ids| && ids[i] == ids[j]
    ensures 2 <= multiset(ids)[ids[i]]
  {
    var id := ids[i];
    assert ids == ids[..j] + ids[j..];
    assert ids[..j][i] == id && ids[j..][0] == id;
    assert id in ids[..j] && id in ids[j..];
  }

  lemma ReturnedOnce(at: Assignment, s: Pair, i: nat, j: nat)
    requires i < j < |s.reaped| && forall id: nat :: Beyond(at, s, id) <= 1
    ensures s.reaped[i].1 != s.reaped[j].1
  {
    var ids := Gots(s.reaped);
    assert Beyond(at, s, ids[i]) <= 1;
    if ids[i] == ids[j] {
      TwiceIn(ids, i, j);
    }
  }

  lemma HeldBucketIsFree(at: Assignment, s: Pair, id: nat)
    requires Valid(at) && Matched(at, s) && Spread(at, s) && id in s.held
    ensures s.cq[at.slot(id)] == INVALID
  {
    assert multiset(s.held)[id] >= 1 && Beyond(at, s, id) <= 1;
    if s.cq[at.slot(id)] != INVALID {
      OwnRequest(at, s, id);
    }
  }

  // --- Clients that send and wait in turns -----------------------------------------------------

  /**
   After w waits the client sends requests up to number `ends(w)`, and waits on tokens in order
   only when it has sent them all.
   */
  type Turns = nat -> nat

  ghost predicate Growing(ends: Turns) {
    && (forall w: nat :: w < ends(w))
    && (forall v: nat, w: nat :: v <= w ==> ends(v) <= ends(w))
  }

  /** The requests from `lo` to `hi` make up a turn. */
  ghost predicate IsTurn(ends: Turns, lo: nat, hi: nat) {
    (lo == 0 || ends(lo - 1) == lo) && lo < hi && forall w: nat :: lo <= w < hi ==> ends(w) == hi
  }

  predicate TurnStep(ends: Turns, s: Pair, step: Step) {
    match step
    case Enqueue => s.sent < ends(|s.reaped|)
    case Reap(tok) => tok == |s.reaped| && s.sent == ends(|s.reaped|)
    case _ => true
  }

  /** Such a client, with any server. */
  function InTurns(ends: Turns): (p: Policy) {
    (s, step) => TurnStep(ends, s, step)
  }

  /** Such a client, with a server that always completes the oldest request it holds. */
  function InOrder(ends: Turns): (p: Policy) {
    (s, step) => TurnStep(ends, s, step) && (step.Complete? ==> step.i == 0)
  }

  /** The requests of a turn that can be in the ring together use different slots. */
  ghost predicate KeepsApart(at: Assignment, ends: Turns)
    requires Valid(at)
  {
    forall w: nat, x: nat, y: nat {:trigger ends(w), at.slot(x), at.slot(y)} ::
      w <= x < y < ends(w) && y < x + at.depth ==> at.slot(x) != at.slot(y)
  }

  ghost predicate TurnInv(ends: Turns, s: Pair) {
    && |s.reaped| <= s.sent <= ends(|s.reaped|)
    && (forall id: nat :: id in s.waiting <==> |s.reaped| <= id < s.sent)
  }

  lemma TurnInvStep(at: Assignment, ends: Turns, s: Pair, step: Step)
    requires Growing(ends) && TurnInv(ends, s) && Enabled(at, s, step) && TurnStep(ends, s, step)
    ensures TurnInv(ends, Apply(at, s, step))
  {
  }

  lemma TurnSpread(at: Assignment, ends: Turns, s: Pair)
    requires Valid(at) && KeepsApart(at, ends) && TurnInv(ends, s) && ends(|s.reaped|) <= |s.reaped| + at.depth
    ensures Spread(at, s)
  {
    forall x, y | x in s.waiting && y in s.waiting && x != y ensures at.slot(x) != at.slot(y) {
      var w := |s.reaped|;
      assert w <= x < ends(w) && w <= y < ends(w);
    }
  }

  lemma {:induction false} TurnsMatch(at: Assignment, ends: Turns, run: seq<Pair>)
    requires Valid(at) && Growing(ends) && KeepsApart(at, ends) && IsRun(at, InTurns(ends), run)
    requires forall w: nat :: ends(w) <= w + at.depth
    ensures TurnInv(ends, run[|run| - 1]) && Matched(at, run[|run| - 1])
    decreases |run|
  {
    var n := |run| - 1;
    if n == 0 {
      ConservedInit(at, run[0]);
    } else {
      var step :| Enabled(at, run[n - 1], step) && InTurns(ends)(run[n - 1], step) && run[n] == Apply(at, run[n - 1], step);
      TurnsMatch(at, ends, run[..n]);
      TurnInvStep(at, ends, run[n - 1], step);
      TurnSpread(at, ends, run[n - 1]);
      TurnSpread(at, ends, run[n]);
      MatchedStep(at, run[n - 1], step);
    }
  }

  // --- A server that completes in order -------------------------------------------------------

  function From(lo: nat, hi: nat): (ids: seq<nat>)
    ensures |ids| == if lo <= hi then hi - lo else 0
    ensures forall i :: 0 <= i < |ids| ==> ids[i] == lo + i
  {
    if hi <= lo then [] else seq(hi - lo, i requires 0 <= i < hi - lo => lo + i)
  }

  /** `done` requests were completed, and the map holds exactly those not yet waited for. */
  ghost predicate OrderedInv(at: Assignment, ends: Turns, s: Pair, done: nat) {
    && Delivered(at, s) && Correct(s) && s.sent <= ends(|s.reaped|)
    && |s.reaped| <= done <= s.taken && s.held == From(done, s.taken)
    && (forall id: nat :: |s.reaped| <= id < done ==> s.cq[at.slot(id)] == id)
    && (forall b :: 0 <= b < at.depth ==> s.cq[b] == INVALID || |s.reaped| <= s.cq[b] < done)
    && Placed(at, s)
  }

  lemma OrderedComplete(at: Assignment, ends: Turns, s: Pair, done: nat)
    requires Valid(at) && OrderedInv(at, ends, s, done) && Enabled(at, s, Complete(0))
    ensures OrderedInv(at, ends, Apply(at, s, Complete(0)), done + 1)
  {
    var s' := Apply(at, s, Complete(0));
    OtherDelivers(at, s, Complete(0));
    assert s'.held == From(done + 1, s.taken);
    forall x: nat | |s.reaped| <= x < done + 1 ensures s'.cq[at.slot(x)] == x {
      assert x < done ==> s.cq[at.slot(x)] == x;
    }
    forall b | 0 <= b < at.depth ensures s'.cq[b] == INVALID || |s.reaped| <= s'.cq[b] < done + 1 {
      assert s'.cq[b] == s.cq[b] || s'.cq[b] == done;
    }
  }

  lemma OrderedReap(at: Assignment, ends: Turns, s: Pair, done: nat)
    requires Valid(at) && Growing(ends) && OrderedInv(at, ends, s, done) && Enabled(at, s, Reap(|s.reaped|))
    ensures OrderedInv(at, ends, Apply(at, s, Reap(|s.reaped|)), done)
  {
    var w := |s.reaped|;
    var s' := Apply(at, s, Reap(w));
    OtherDelivers(at, s, Reap(w));
    assert s.cq[at.slot(w)] == w;
    forall x: nat | w < x < done ensures s'.cq[at.slot(x)] == x {
      assert s.cq[at.slot(x)] == x;
    }
    forall b | 0 <= b < at.depth ensures s'.cq[b] == INVALID || w + 1 <= s'.cq[b] < done {
      OnlyItsOwn(at, ends, s, done, b);
    }
  }

  /** The next token's request is nowhere but in its own bucket. */
  lemma OnlyItsOwn(at: Assignment, ends: Turns, s: Pair, done: nat, b: nat)
    requires Valid(at) && OrderedInv(at, ends, s, done) && b < at.depth
    ensures s.cq[b] == |s.reaped| ==> b == at.slot(|s.reaped|)
  {
  }

  lemma OrderedEnqueue(at: Assignment, ends: Turns, s: Pair, done: nat)
    requires Valid(at) && KeepsApart(at, ends) && OrderedInv(at, ends, s, done)
    requires Enabled(at, s, Enqueue) && TurnStep(ends, s, Enqueue)
    ensures OrderedInv(at, ends, Apply(at, s, Enqueue), done)
  {
    forall i: nat | s.taken <= i < s.sent ensures at.slot(i) != at.slot(s.sent) {
      assert |s.reaped| <= i && s.sent < ends(|s.reaped|);
    }
    EnqueueDelivers(at, s);
  }

  lemma OrderedInvStep(at: Assignment, ends: Turns, s: Pair, done: nat, step: Step) returns (done': nat)
    requires Valid(at) && Growing(ends) && KeepsApart(at, ends)
    requires OrderedInv(at, ends, s, done) && Enabled(at, s, step) && InOrder(ends)(s, step)
    ensures OrderedInv(at, ends, Apply(at, s, step), done')
  {
    done' := if step.Complete? then done + 1 else done;
    match step
    case Enqueue => OrderedEnqueue(at, ends, s, done);
    case Complete(_) => OrderedComplete(at, ends, s, done);
    case Reap(_) => OrderedReap(at, ends, s, done);
    case Take => OrderedTake(at, ends, s, done);
  }

  lemma OrderedTake(at: Assignment, ends: Turns, s: Pair, done: nat)
    requires Valid(at) && OrderedInv(at, ends, s, done) && Enabled(at, s, Take)
    ensures OrderedInv(at, ends, Apply(at, s, Take), done)
  {
    OtherDelivers(at, s, Take);
    assert InSlot(at, s, s.taken);
    assert Apply(at, s, Take).held == From(done, s.taken + 1);
  }

  lemma {:induction false} OrderedHolds(at: Assignment, ends: Turns, run: seq<Pair>) returns (done: nat)
    requires Valid(at) && Growing(ends) && KeepsApart(at, ends) && IsRun(at, InOrder(ends), run)
    ensures OrderedInv(at, ends, run[|run| - 1], done)
    decreases |run|
  {
    var n := |run| - 1;
    if n == 0 {
      done := 0;
    } else {
      var step :| Enabled(at, run[n - 1], step) && InOrder(ends)(run[n - 1], step) && run[n] == Apply(at, run[n - 1], step);
      var before := OrderedHolds(at, ends, run[..n]);
      done := OrderedInvStep(at, ends, run[n - 1], before, step);
    }
  }

  // --- Runs that go wrong -----------------------------------------------------------------------

  /** P holds in all initial states, and no step that the parties choose leaves it. */
  ghost predicate Holds(at: Assignment, p: Policy, P: Pair -> bool) {
    && (forall s :: Init(at, s) ==> P(s))
    && (forall s, s' :: P(s) && Next(at, p, s, s') ==> P(s'))
  }

  lemma Do(at: Assignment, p: Policy, P: Pair -> bool, s: Pair, step: Step)
    requires Holds(at, p, P) && P(s) && Enabled(at, s, step) && p(s, step)
    ensures P(Apply(at, s, step))
  {
    assert Next(at, p, s, Apply(at, s, step));
  }

  lemma ReachableHolds(at: Assignment, p: Policy) returns (P: Pair -> bool)
    ensures Holds(at, p, P) && forall s :: P(s) <==> Reachable(at, p, s)
  {
    P := s => Reachable(at, p, s);
    forall s | Init(at, s) ensures P(s) {
      assert IsRun(at, p, [s]);
    }
    forall s, s' | P(s) && Next(at, p, s, s') ensures P(s') {
      var run :| IsRun(at, p, run) && run[|run| - 1] == s;
      assert (run + [s'])[..|run|] == run;
      assert IsRun(at, p, run + [s']);
    }
  }

  /** An orderly server is one of many. */
  lemma HoldsInOrder(at: Assignment, ends: Turns, P: Pair -> bool)
    requires Holds(at, InTurns(ends), P)
    ensures Holds(at, InOrder(ends), P)
  {
    forall s, s' | P(s) && Next(at, InOrder(ends), s, s') ensures P(s') {
      assert Next(at, InTurns(ends), s, s');
    }
  }

  lemma HoldsAnyway(at: Assignment, ends: Turns, P: Pair -> bool)
    requires Holds(at, Anything(), P)
    ensures Holds(at, InOrder(ends), P)
  {
    forall s, s' | P(s) && Next(at, InOrder(ends), s, s') ensures P(s') {
      assert Next(at, Anything(), s, s');
    }
  }

  function Clear(at: Assignment): (cq: seq<int>)
    ensures |cq| == at.depth
  {
    seq(at.depth, _ => INVALID)
  }

  function Range(lo: nat, hi: nat): (r: set<nat>)
    ensures forall id: nat :: id in r <==> lo <= id < hi
    decreases hi
  {
    if hi <= lo then {} else Range(lo, hi - 1) + {hi - 1}
  }

  function Diagonal(n: nat): (r: seq<(nat, nat)>)
    ensures |r| == n
    ensures forall i :: 0 <= i < n ==> r[i] == (i, i)
  {
    seq(n, i requires 0 <= i < n => (i, i))
  }

  /** Ids below `hi` were sent and those below `taken` taken; those below `lo` came back to their own tokens. */
  function Underway(at: Assignment, slots: seq<nat>, lo: nat, taken: nat, hi: nat): (s: Pair) {
    Pair(hi, taken, slots, From(lo, taken), Clear(at), Range(lo, hi), Diagonal(lo))
  }

  ghost predicate Reaches(at: Assignment, ends: Turns, P: Pair -> bool, slots: seq<nat>, lo: nat, taken: nat, hi: nat) {
    && Valid(at) && Growing(ends) && |slots| == at.depth && lo <= taken <= hi
    && Holds(at, InOrder(ends), P) && P(Underway(at, slots, lo, taken, hi))
  }

  /** Nothing was sent yet. */
  lemma AtFirst(at: Assignment, ends: Turns, P: Pair -> bool) returns (slots: seq<nat>)
    requires Valid(at) && Growing(ends) && Holds(at, InOrder(ends), P)
    ensures Reaches(at, ends, P, slots, 0, 0, 0)
  {
    slots := seq(at.depth, _ => 0);
    assert Init(at, Underway(at, slots, 0, 0, 0));
  }

  lemma UnderwayEnqueue(at: Assignment, slots: seq<nat>, lo: nat, taken: nat, hi: nat)
    requires Valid(at) && |slots| == at.depth && lo <= taken <= hi < taken + at.depth
    ensures Enabled(at, Underway(at, slots, lo, taken, hi), Enqueue)
    ensures Apply(at, Underway(at, slots, lo, taken, hi), Enqueue) == Underway(at, slots[at.slot(hi) := hi], lo, taken, hi + 1)
  {
    assert Range(lo, hi + 1) == Range(lo, hi) + {hi};
  }

  lemma UnderwayTake(at: Assignment, slots: seq<nat>, lo: nat, taken: nat, hi: nat)
    requires Valid(at) && |slots| == at.depth && lo <= taken < hi && slots[at.slot(taken)] == taken
    ensures Enabled(at, Underway(at, slots, lo, taken, hi), Take)
    ensures Apply(at, Underway(at, slots, lo, taken, hi), Take) == Underway(at, slots, lo, taken + 1, hi)
  {
    assert From(lo, taken + 1) == From(lo, taken) + [taken];
  }

  /** One more request of the turn is sent. */
  lemma SendOne(at: Assignment, ends: Turns, P: Pair -> bool, slots: seq<nat>, lo: nat, taken: nat, hi: nat) returns (slots': seq<nat>)
    requires Reaches(at, ends, P, slots, lo, taken, hi) && hi < ends(lo) && hi < taken + at.depth
    ensures Reaches(at, ends, P, slots', lo, taken, hi + 1) && slots'[at.slot(hi)] == hi
  {
    slots' := slots[at.slot(hi) := hi];
    UnderwayEnqueue(at, slots, lo, taken, hi);
    Do(at, InOrder(ends), P, Underway(at, slots, lo, taken, hi), Enqueue);
  }

  /** The next request is taken, if the ring holds it. */
  lemma TakeOne(at: Assignment, ends: Turns, P: Pair -> bool, slots: seq<nat>, lo: nat, taken: nat, hi: nat)
    requires Reaches(at, ends, P, slots, lo, taken, hi) && taken < hi && slots[at.slot(taken)] == taken
    ensures Reaches(at, ends, P, slots, lo, taken + 1, hi)
  {
    UnderwayTake(at, slots, lo, taken, hi);
    Do(at, InOrder(ends), P, Underway(at, slots, lo, taken, hi), Take);
  }

  /** Requests are sent and taken one by one. */
  lemma {:induction false} SendUpTo(at: Assignment, ends: Turns, P: Pair -> bool, slots: seq<nat>, lo: nat, hi: nat, last: nat)
    returns (slots': seq<nat>)
    requires Reaches(at, ends, P, slots, lo, hi, hi) && hi <= last <= ends(lo)
    ensures Reaches(at, ends, P, slots', lo, last, last)
    decreases last - hi
  {
    slots' := slots;
    if hi < last {
      slots' := SendOne(at, ends, P, slots, lo, hi, hi);
      TakeOne(at, ends, P, slots', lo, hi, hi + 1);
      slots' := SendUpTo(at, ends, P, slots', lo, hi + 1, last);
    }
  }

  /** A request is put in an empty map and taken out under a token of the same bucket. */
  lemma ClearAgain(at: Assignment, id: nat, tok: nat)
    requires Valid(at) && at.slot(id) == at.slot(tok)
    ensures Clear(at)[at.slot(id) := id][at.slot(tok) := INVALID] == Clear(at) && Clear(at)[at.slot(id) := id][at.slot(tok)] == id
    ensures Clear(at)[at.slot(id)] == INVALID
  {
  }

  /** What a request held by the server becomes when it is completed and found by the next wait. */
  function Reaped(s: Pair, i: nat): (s': Pair)
    requires i < |s.held|
  {
    s.(held := Without(s.held, i), waiting := s.waiting - {|s.reaped|}, reaped := s.reaped + [(|s.reaped|, s.held[i])])
  }

  lemma ReapedBySteps(at: Assignment, s: Pair, i: nat)
    requires Valid(at) && s.cq == Clear(at) && |s.slots| == at.depth
    requires i < |s.held| && at.slot(s.held[i]) == at.slot(|s.reaped|) && |s.reaped| in s.waiting
    ensures Enabled(at, s, Complete(i)) && Enabled(at, Apply(at, s, Complete(i)), Reap(|s.reaped|))
    ensures Apply(at, Apply(at, s, Complete(i)), Reap(|s.reaped|)) == Reaped(s, i)
  {
    ClearAgain(at, s.held[i], |s.reaped|);
  }

  /** When all is sent the server completes the i-th request it holds, and the client reaps it. */
  lemma CompleteAndReap(at: Assignment, ends: Turns, P: Pair -> bool, p: Policy, s: Pair, i: nat)
    requires Valid(at) && Holds(at, p, P) && P(s) && s.cq == Clear(at) && |s.slots| == at.depth
    requires p == InTurns(ends) || (p == InOrder(ends) && i == 0)
    requires i < |s.held| && at.slot(s.held[i]) == at.slot(|s.reaped|)
    requires s.sent == ends(|s.reaped|) && |s.reaped| in s.waiting
    ensures P(Reaped(s, i))
  {
    ReapedBySteps(at, s, i);
    Do(at, p, P, s, Complete(i));
    Do(at, p, P, Apply(at, s, Complete(i)), Reap(|s.reaped|));
  }

  lemma UnderwayReaped(at: Assignment, slots: seq<nat>, lo: nat, hi: nat)
    requires lo < hi
    ensures var s := Underway(at, slots, lo, hi, hi);
            s.held[0] == lo && lo in s.waiting && |s.reaped| == lo && Reaped(s, 0) == Underway(at, slots, lo + 1, hi, hi)
  {
    assert Without(From(lo, hi), 0) == From(lo + 1, hi);
    assert Range(lo + 1, hi) == Range(lo, hi) - {lo};
    assert Diagonal(lo + 1) == Diagonal(lo) + [(lo, lo)];
  }

  lemma ReapOne(at: Assignment, ends: Turns, P: Pair -> bool, slots: seq<nat>, lo: nat)
    requires Reaches(at, ends, P, slots, lo, ends(lo), ends(lo))
    ensures Reaches(at, ends, P, slots, lo + 1, ends(lo), ends(lo))
  {
    UnderwayReaped(at, slots, lo, ends(lo));
    CompleteAndReap(at, ends, P, InOrder(ends), Underway(at, slots, lo, ends(lo), ends(lo)), 0);
  }

  /** After `lo` waits in order the rest of the current turn is with the server. */
  lemma {:induction false} TurnReached(at: Assignment, ends: Turns, P: Pair -> bool, lo: nat) returns (slots: seq<nat>)
    requires Valid(at) && Growing(ends) && Holds(at, InOrder(ends), P)
    ensures Reaches(at, ends, P, slots, lo, ends(lo), ends(lo))
    decreases lo
  {
    if lo == 0 {
      slots := AtFirst(at, ends, P);
      slots := SendUpTo(at, ends, P, slots, 0, 0, ends(0));
    } else {
      slots := TurnReached(at, ends, P, lo - 1);
      ReapOne(at, ends, P, slots, lo - 1);
      slots := SendUpTo(at, ends, P, slots, lo, ends(lo - 1), ends(lo));
    }
  }

  /** A turn is about to begin. */
  lemma TurnStarts(at: Assignment, ends: Turns, P: Pair -> bool, lo: nat) returns (slots: seq<nat>)
    requires Valid(at) && Growing(ends) && Holds(at, InOrder(ends), P) && (lo == 0 || ends(lo - 1) == lo)
    ensures Reaches(at, ends, P, slots, lo, lo, lo)
  {
    if lo == 0 {
      slots := AtFirst(at, ends, P);
    } else {
      slots := TurnReached(at, ends, P, lo - 1);
      ReapOne(at, ends, P, slots, lo - 1);
    }
  }

  /** If two ids of a turn share a bucket, waiting on the first can return the second. */
  lemma WrongRequest(at: Assignment, ends: Turns, P: Pair -> bool, x: nat, y: nat) returns (s: Pair)
    requires Valid(at) && Growing(ends) && x < y < ends(x) && at.slot(x) == at.slot(y) && Holds(at, InTurns(ends), P)
    ensures P(s) && s.reaped == Diagonal(x) + [(x, y)] && !Correct(s)
  {
    HoldsInOrder(at, ends, P);
    var slots := TurnReached(at, ends, P, x);
    s := Underway(at, slots, x, ends(x), ends(x));
    assert s.held[y - x] == y && x in s.waiting;
    CompleteAndReap(at, ends, P, InTurns(ends), s, y - x);
    s := Reaped(s, y - x);
    assert s.reaped[x] == (x, y);
  }

  // --- A request overwritten in the ring --------------------------------------------------------------

  /** Requests are sent while request `taken` is the next to be taken. */
  lemma {:induction false} Jam(at: Assignment, ends: Turns, P: Pair -> bool, slots: seq<nat>, lo: nat, taken: nat, hi: nat, last: nat)
    returns (slots': seq<nat>)
    requires Reaches(at, ends, P, slots, lo, taken, hi) && hi < last <= ends(lo) && last <= taken + at.depth
    ensures Reaches(at, ends, P, slots', lo, taken, last) && slots'[at.slot(last - 1)] == last - 1
    decreases last - hi
  {
    slots' := SendOne(at, ends, P, slots, lo, taken, hi);
    if hi + 1 < last {
      slots' := Jam(at, ends, P, slots', lo, taken, hi + 1, last);
    }
  }

  /** If two ids of a turn share a slot, the second can overwrite the first in the ring. */
  lemma Overwritten(at: Assignment, ends: Turns, P: Pair -> bool, lo: nat, hi: nat, x: nat, y: nat) returns (slots: seq<nat>)
    requires Valid(at) && Growing(ends) && Holds(at, InOrder(ends), P) && IsTurn(ends, lo, hi) && lo <= x < y < hi && y < x + at.depth
    requires at.slot(x) == at.slot(y)
    ensures Reaches(at, ends, P, slots, lo, x, y + 1) && slots[at.slot(x)] == y
  {
    slots := TurnStarts(at, ends, P, lo);
    slots := SendUpTo(at, ends, P, slots, lo, lo, x);
    slots := Jam(at, ends, P, slots, lo, x, x, y + 1);
  }

  /** A slot in use holds an id that belongs in it. */
  ghost predicate Belongs(at: Assignment, s: Pair, i: nat) {
    Valid(at) && |s.slots| == at.depth && at.slot(s.slots[at.slot(i)]) == at.slot(i)
  }

  lemma BelongsStep(at: Assignment, s: Pair, step: Step, i: nat)
    requires Valid(at) && Enabled(at, s, step) && i < Apply(at, s, step).sent && (i < s.sent ==> Belongs(at, s, i))
    ensures Belongs(at, Apply(at, s, step), i)
  {
  }

  ghost predicate AllBelong(at: Assignment, s: Pair) {
    forall i: nat :: i < s.sent ==> Belongs(at, s, i)
  }

  lemma BelongHolds(at: Assignment, p: Policy)
    requires Valid(at)
    ensures Holds(at, p, s => AllBelong(at, s))
  {
    forall s, s' | AllBelong(at, s) && Next(at, p, s, s') ensures AllBelong(at, s') {
      var step :| Enabled(at, s, step) && p(s, step) && s' == Apply(at, s, step);
      forall i: nat | i < s'.sent ensures Belongs(at, s', i) {
        BelongsStep(at, s, step, i);
      }
    }
  }

  /** Then the first is nowhere. */
  lemma Nowhere(at: Assignment, slots: seq<nat>, lo: nat, x: nat, y: nat)
    requires Valid(at) && |slots| == at.depth && lo <= x < y && slots[at.slot(x)] == y
    requires AllBelong(at, Underway(at, slots, lo, x, y + 1))
    ensures !OnePlace(at, Underway(at, slots, lo, x, y + 1), x)
  {
    var s := Underway(at, slots, lo, x, y + 1);
    assert x !in s.held && x !in Gots(s.reaped);
    NotPending(at, s, x, y);
  }

  lemma NotPending(at: Assignment, s: Pair, x: nat, y: nat)
    requires Valid(at) && |s.slots| == at.depth && s.taken <= s.sent && AllBelong(at, s)
    requires s.slots[at.slot(x)] == y != x
    ensures x !in Pending(at, s)
  {
    var ids := Pending(at, s);
    forall i | 0 <= i < |ids| ensures ids[i] != x {
      assert Belongs(at, s, s.taken + i);
    }
  }

  lemma Lost(at: Assignment) returns (s: Pair, id: nat)
    requires InMemory(at) && WRAP % at.depth != 0
    ensures Reachable(at, Anything(), s) && id < s.sent && !OnePlace(at, s, id)
  {
    var k := WRAP - 1;
    DivModUnique(WRAP, k, 1, 1);
    EndsGrow(k);
    EndsOf(k, 1);
    var x, y := SharedAcrossWrap(at.depth, k, 1, 1, WRAP % at.depth);
    var slots := LostIn(at, Ends(k), k, 2 * k, x, y);
    s, id := Underway(at, slots, k, x, y + 1), x;
  }

  lemma LostIn(at: Assignment, ends: Turns, lo: nat, hi: nat, x: nat, y: nat) returns (slots: seq<nat>)
    requires Valid(at) && Growing(ends) && IsTurn(ends, lo, hi) && lo <= x < y < hi && y < x + at.depth
    requires at.slot(x) == at.slot(y)
    ensures var s := Underway(at, slots, lo, x, y + 1); Reachable(at, Anything(), s) && !OnePlace(at, s, x)
  {
    var R := ReachableHolds(at, Anything());
    BelongHolds(at, Anything());
    var P := s => R(s) && AllBelong(at, s);
    HoldsAnyway(at, ends, P);
    slots := Overwritten(at, ends, P, lo, hi, x, y);
    Nowhere(at, slots, lo, x, y);
  }

  /** The server holds the requests from `lo` on in order up to x, and then y. */
  ghost predicate Poised(at: Assignment, s: Pair, lo: nat, x: nat, y: nat) {
    && Valid(at) && lo <= x && |s.slots| == at.depth && s.cq == Clear(at) && s.reaped == Diagonal(lo)
    && From(lo, x) + [y] <= s.held && Range(lo, s.sent) <= s.waiting && s.taken <= s.sent && x < s.sent
  }

  lemma PoisedTake(at: Assignment, s: Pair, lo: nat, x: nat, y: nat)
    requires Poised(at, s, lo, x, y) && s.taken < s.sent
    ensures Enabled(at, s, Take) && Poised(at, Apply(at, s, Take), lo, x, y)
  {
  }

  lemma PoisedSend(at: Assignment, s: Pair, lo: nat, x: nat, y: nat)
    requires Poised(at, s, lo, x, y) && s.taken == s.sent
    ensures Enabled(at, s, Enqueue) && Poised(at, Apply(at, s, Enqueue), lo, x, y)
  {
    assert Range(lo, s.sent + 1) == Range(lo, s.sent) + {s.sent};
  }

  /** The rest of the turn is sent and taken. */
  lemma {:induction false} PoisedFull(at: Assignment, ends: Turns, P: Pair -> bool, s: Pair, lo: nat, x: nat, y: nat) returns (s': Pair)
    requires Poised(at, s, lo, x, y) && Holds(at, InOrder(ends), P) && P(s) && s.sent <= ends(lo)
    ensures Poised(at, s', lo, x, y) && P(s') && s'.taken == s'.sent == ends(lo)
    decreases ends(lo) - s.sent, s.sent - s.taken
  {
    s' := s;
    if s.taken < s.sent {
      PoisedTake(at, s, lo, x, y);
      Do(at, InOrder(ends), P, s, Take);
      s' := PoisedFull(at, ends, P, Apply(at, s, Take), lo, x, y);
    } else if s.sent < ends(lo) {
      PoisedSend(at, s, lo, x, y);
      Do(at, InOrder(ends), P, s, Enqueue);
      s' := PoisedFull(at, ends, P, Apply(at, s, Enqueue), lo, x, y);
    }
  }

  /** The next wait is on `lo`, and after it on the request behind. */
  lemma PoisedNext(at: Assignment, s: Pair, lo: nat, x: nat, y: nat)
    requires Poised(at, s, lo, x, y)
    ensures s.held != [] && |s.reaped| == lo && lo in s.waiting && s.held[0] == if lo < x then lo else y
    ensures lo < x ==> Poised(at, Reaped(s, 0), lo + 1, x, y)
  {
    var ids := From(lo, x) + [y];
    assert ids[0] == s.held[0] && lo in Range(lo, s.sent);
    if lo < x {
      assert Diagonal(lo + 1) == Diagonal(lo) + [(lo, lo)];
      assert From(lo + 1, x) + [y] == ids[1..];
      assert Without(s.held, 0) == s.held[1..];
    }
  }

  /** The waits come to x, and the wait on x returns y. */
  lemma {:induction false} PoisedReap(at: Assignment, ends: Turns, P: Pair -> bool, s: Pair, lo: nat, x: nat, y: nat) returns (s': Pair)
    requires Poised(at, s, lo, x, y) && Holds(at, InOrder(ends), P) && P(s)
    requires forall w: nat :: lo <= w <= x ==> ends(w) == s.sent
    requires at.slot(x) == at.slot(y) && x != y
    ensures P(s') && !Correct(s')
    decreases x - lo
  {
    PoisedNext(at, s, lo, x, y);
    CompleteAndReap(at, ends, P, InOrder(ends), s, 0);
    s' := Reaped(s, 0);
    if lo < x {
      s' := PoisedReap(at, ends, P, s', lo + 1, x, y);
    } else {
      assert s'.reaped[x] == (x, y);
    }
  }

  lemma PoisedFirst(at: Assignment, slots: seq<nat>, lo: nat, x: nat, y: nat)
    requires Valid(at) && |slots| == at.depth && lo <= x < y && slots[at.slot(x)] == y
    ensures Enabled(at, Underway(at, slots, lo, x, y + 1), Take)
    ensures Poised(at, Apply(at, Underway(at, slots, lo, x, y + 1), Take), lo, x, y)
  {
  }

  /** If two ids of a turn that can be in the ring together share a slot, even an orderly server mixes them up. */
  lemma WrongInOrder(at: Assignment, ends: Turns, P: Pair -> bool, lo: nat, hi: nat, x: nat, y: nat) returns (s: Pair)
    requires Valid(at) && Growing(ends) && Holds(at, InOrder(ends), P) && IsTurn(ends, lo, hi) && lo <= x < y < hi && y < x + at.depth
    requires at.slot(x) == at.slot(y)
    ensures P(s) && !Correct(s)
  {
    var slots := Overwritten(at, ends, P, lo, hi, x, y);
    s := Underway(at, slots, lo, x, y + 1);
    PoisedFirst(at, slots, lo, x, y);
    Do(at, InOrder(ends), P, s, Take);
    s := Apply(at, s, Take);
    s := PoisedFull(at, ends, P, s, lo, x, y);
    s := PoisedReap(at, ends, P, s, lo, x, y);
  }

  // --- The batch client -----------------------------------------------------------------------

  /** Enqueue k requests, then wait on their tokens in order, again and again. */
  function Ends(k: nat): (ends: Turns)
    requires 0 < k
  {
    w => (w / k + 1) * k
  }

  lemma BatchWindow(k: nat, w: nat)
    requires 0 < k
    ensures w < (w / k + 1) * k <= w + k
  {
    assert w == (w / k) * k + w % k;
    assert (w / k + 1) * k == (w / k) * k + k;
  }

  lemma LaterEnds(k: nat, v: nat, w: nat)
    requires 0 < k && v <= w
    ensures (v / k + 1) * k <= (w / k + 1) * k
  {
    BatchWindow(k, v);
    BatchWindow(k, w);
    MulStep(w / k + 1, v / k + 1, k);
  }

  lemma EndsGrow(k: nat)
    requires 0 < k
    ensures Growing(Ends(k)) && forall w: nat :: Ends(k)(w) <= w + k
  {
    forall w: nat ensures w < Ends(k)(w) <= w + k {
      BatchWindow(k, w);
    }
    forall v: nat, w: nat | v <= w ensures Ends(k)(v) <= Ends(k)(w) {
      LaterEnds(k, v, w);
    }
  }

  /** The j-th batch. */
  lemma EndsOf(k: nat, j: nat)
    requires 0 < k
    ensures IsTurn(Ends(k), j * k, j * k + k)
  {
    forall w: nat | j * k <= w < j * k + k ensures Ends(k)(w) == j * k + k {
      DivModUnique(w, k, j, w - j * k);
      assert (j + 1) * k == j * k + k;
    }
    if 0 < j {
      assert (j - 1) * k + k == j * k;
      DivModUnique(j * k - 1, k, j - 1, k - 1);
    }
  }

  lemma Regroup(t: nat, q: nat, u: nat, k: nat)
    ensures (t * q + u) * k == t * (q * k) + u * k
  {
    assert (t * q + u) * k == (t * q) * k + u * k;
    assert (t * q) * k == t * (q * k);
  }

  /** The j-th batch lies in epoch j / q when q batches make up 2^32 ids. */
  lemma EpochOf(x: nat, j: nat, k: nat, q: nat)
    requires 0 < q && WRAP == q * k && j * k <= x < j * k + k
    ensures x / WRAP == j / q
  {
    var t, u := j / q, j % q;
    Regroup(t, q, u, k);
    MulStep(u, q, k);
    assert j == t * q + u;
    DivModUnique(x, WRAP, t, u * k + (x - j * k));
  }

  /** If batches divide 2^32, none crosses a wrap. */
  lemma SameEpoch(w: nat, x: nat, y: nat, k: nat)
    requires 0 < k && WRAP % k == 0 && w <= x <= y < (w / k + 1) * k
    ensures x / WRAP == y / WRAP
  {
    var j, q := w / k, WRAP / k;
    assert w == j * k + w % k && (j + 1) * k == j * k + k;
    assert WRAP == q * k;
    EpochOf(x, j, k, q);
    EpochOf(y, j, k, q);
  }

  /** The wrap does no harm to batches of k: there is none to see, or it is never inside a batch that is too long. */
  predicate SurvivesWrap(size: nat, k: nat)
    requires 0 < size && 0 < k
  {
    WRAP % size == 0 || k <= Window(size) || WRAP % k == 0
  }

  lemma BatchSlots(size: nat, k: nat, w: nat, x: nat, y: nat)
    requires 0 < size < WRAP && 0 < k && SurvivesWrap(size, k) && w <= x < y < (w / k + 1) * k && y < x + size
    ensures Slot(x, size) != Slot(y, size)
  {
    BatchWindow(k, w);
    if WRAP % size == 0 {
      SlotsDistinct(x, y, size);
    } else if k <= Window(size) {
      SlotsDistinctInWindow(x, y, size);
    } else {
      SameEpoch(w, x, y, k);
      ResiduesDistinct(x % WRAP, y % WRAP, size);
    }
  }

  lemma BatchesKeepApart(at: Assignment, k: nat)
    requires InMemory(at) && 0 < k && SurvivesWrap(at.depth, k)
    ensures KeepsApart(at, Ends(k))
  {
    var ends := Ends(k);
    forall w: nat, x: nat, y: nat | w <= x < y < ends(w) && y < x + at.depth ensures at.slot(x) != at.slot(y) {
      BatchSlots(at.depth, k, w, x, y);
    }
  }

  /** In the batch that crosses the wrap: the a-th id before it and the b-th after, with a + b the remainder. */
  lemma SharedAcrossWrap(size: nat, k: nat, j: nat, before: nat, r: nat) returns (x: nat, y: nat)
    requires 0 < size < WRAP && r == WRAP % size && 0 < r < k && WRAP == j * k + before && 0 < before < k
    ensures j * k <= x < y < j * k + k && y < x + size && Slot(x, size) == Slot(y, size)
  {
    var a := if r <= before then r else before;
    var b := r - a;
    x, y := WRAP - a, WRAP + b;
    BeforeWrap(WRAP, a, size, WRAP / size, r);
    DivModUnique(x, WRAP, 0, x);
    DivModUnique(y, WRAP, 1, b);
    DivModUnique(b, size, 0, b);
  }

  /**
   With any server every wait of the batch client returns its own request, in all runs, exactly
   when no batch has two ids for one bucket: a batch has at most as many requests as there are
   buckets, and the wrap of the ids does no harm, because the size divides 2^32, or a batch is no
   larger than the remainder, or batches divide 2^32.
   */
  lemma BatchCorrectIff(at: Assignment, k: nat)
    requires InMemory(at) && 0 < k
    ensures (forall s :: Reachable(at, InTurns(Ends(k)), s) ==> Correct(s)) <==> k <= at.depth && SurvivesWrap(at.depth, k)
  {
    var ends := Ends(k);
    EndsGrow(k);
    if k <= at.depth && SurvivesWrap(at.depth, k) {
      BatchesKeepApart(at, k);
      forall s | Reachable(at, InTurns(ends), s) ensures Correct(s) {
        var run :| IsRun(at, InTurns(ends), run) && run[|run| - 1] == s;
        TurnsMatch(at, ends, run);
      }
    } else {
      var x, y := SharedBucket(at, k);
      var P := ReachableHolds(at, InTurns(ends));
      var s := WrongRequest(at, ends, P, x, y);
    }
  }

  lemma SharedBucket(at: Assignment, k: nat) returns (x: nat, y: nat)
    requires InMemory(at) && 0 < k && !(k <= at.depth && SurvivesWrap(at.depth, k))
    ensures x < y < Ends(k)(x) && at.slot(x) == at.slot(y)
  {
    if at.depth < k {
      x, y := 0, at.depth;
      EndsOf(k, 0);
      DivModUnique(at.depth, at.depth, 1, 0);
      DivModUnique(0, at.depth, 0, 0);
    } else {
      var j := WRAP / k;
      x, y := SharedAcrossWrap(at.depth, k, j, WRAP % k, WRAP % at.depth);
      EndsOf(k, j);
    }
  }

  /**
   With a server that completes in order that is so, for every batch size, exactly when no batch
   overwrites one of its own requests in the ring: the size divides 2^32, or a batch is no larger
   than the remainder, or batches divide 2^32.
   */
  lemma InOrderCorrectIff(at: Assignment, k: nat)
    requires InMemory(at) && 0 < k
    ensures (forall s :: Reachable(at, InOrder(Ends(k)), s) ==> Correct(s)) <==> SurvivesWrap(at.depth, k)
  {
    var ends := Ends(k);
    EndsGrow(k);
    if SurvivesWrap(at.depth, k) {
      BatchesKeepApart(at, k);
      forall s | Reachable(at, InOrder(ends), s) ensures Correct(s) {
        var run :| IsRun(at, InOrder(ends), run) && run[|run| - 1] == s;
        var done := OrderedHolds(at, ends, run);
      }
    } else {
      var j := WRAP / k;
      var x, y := SharedAcrossWrap(at.depth, k, j, WRAP % k, WRAP % at.depth);
      EndsOf(k, j);
      var P := ReachableHolds(at, InOrder(ends));
      var s := WrongInOrder(at, ends, P, j * k, j * k + k, x, y);
    }
  }
}
