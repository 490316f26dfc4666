/**
 A fixed stock of items handed out from and returned to a ring whose counters wrap at 2^32: the
 pages of one core, or the blocks of one size.

 When does every item stay in exactly one place? A returned item is written to the slot that its
 count selects. That slot is free unless a pending item's count selects it too, which can only
 happen across a wrap.

 The proofs are about any assignment `at` of slots to counts; `Slots` is the one of the ring.
 */
module RingPool {
  import opened Words
  import opened RequestRing

  /** The true counts, the slots, and the items handed out and not yet returned. */
  datatype Stock<T> = Stock(sent: nat, taken: nat, slots: seq<T>, live: multiset<T>) {
    ghost predicate Shaped(at: Assignment) {
      && |slots| == at.depth && taken <= sent <= taken + |slots|
      && forall j :: at.slot(j) < at.depth
    }

    ghost function Item(at: Assignment, j: nat): (x: T)
      requires at.slot(j) < |slots|
    {
      slots[at.slot(j)]
    }

    /** The items in the ring, oldest first. */
    ghost function Pending(at: Assignment): (items: seq<T>)
      requires Shaped(at)
      ensures |items| == sent - taken
      ensures forall i :: 0 <= i < sent - taken ==> items[i] == Item(at, taken + i)
    {
      seq(sent - taken, i requires 0 <= i < sent - taken => Item(at, taken + i))
    }
  }

  ghost function Take<T>(at: Assignment, st: Stock<T>): (st': Stock<T>)
    requires st.Shaped(at) && st.taken < st.sent
    ensures st'.Shaped(at)
  {
    st.(taken := st.taken + 1, live := st.live + multiset{st.Item(at, st.taken)})
  }

  ghost function Give<T>(at: Assignment, st: Stock<T>, x: T): (st': Stock<T>)
    requires st.Shaped(at) && st.sent < st.taken + |st.slots|
    ensures st'.Shaped(at)
  {
    st.(sent := st.sent + 1, slots := st.slots[at.slot(st.sent) := x], live := st.live - multiset{x})
  }

  // --- Runs ------------------------------------------------------------------------------------

  ghost predicate Distinct<T>(all: seq<T>) {
    forall i, j :: 0 <= i < j < |all| ==> all[i] != all[j]
  }

  /** All items were enqueued into a new ring. */
  ghost predicate Init<T>(at: Assignment, all: seq<T>, st: Stock<T>) {
    && |all| <= |st.slots| && st.Shaped(at)
    && st.sent == |all| && st.taken == 0 && st.live == multiset{}
    && forall i :: 0 <= i < |all| ==> st.Item(at, i) == all[i]
  }

  ghost predicate Gives<T>(at: Assignment, st: Stock<T>, st': Stock<T>, x: T)
    requires st.Shaped(at)
  {
    x in st.live && st.sent < st.taken + |st.slots| && st' == Give(at, st, x)
  }

  ghost predicate Next<T(!new)>(at: Assignment, st: Stock<T>, st': Stock<T>) {
    && st.Shaped(at)
    && ((st.taken < st.sent && st' == Take(at, st)) || exists x :: Gives(at, st, st', x))
  }

  ghost predicate IsRun<T(!new)>(at: Assignment, all: seq<T>, run: seq<Stock<T>>) {
    && 0 < |run|
    && if |run| == 1 then Init(at, all, run[0])
       else IsRun(at, all, run[..|run| - 1]) && Next(at, run[|run| - 2], run[|run| - 1])
  }

  ghost predicate Reachable<T(!new)>(at: Assignment, all: seq<T>, st: Stock<T>) {
    exists run :: IsRun(at, all, run) && run[|run| - 1] == st
  }

  lemma ReachableInit<T(!new)>(at: Assignment, all: seq<T>, st: Stock<T>)
    requires Init(at, all, st)
    ensures Reachable(at, all, st)
  {
    assert IsRun(at, all, [st]);
  }

  lemma ReachableNext<T(!new)>(at: Assignment, all: seq<T>, st: Stock<T>, st': Stock<T>)
    requires Reachable(at, all, st) && Next(at, st, st')
    ensures Reachable(at, all, st')
  {
    var run :| IsRun(at, all, run) && run[|run| - 1] == st;
    assert (run + [st'])[..|run|] == run;
    assert IsRun(at, all, run + [st']);
  }

  lemma {:induction false} StartsWithInit<T(!new)>(at: Assignment, all: seq<T>, run: seq<Stock<T>>)
    requires IsRun(at, all, run)
    ensures Init(at, all, run[0])
    decreases |run|
  {
    if 1 < |run| {
      StartsWithInit(at, all, run[..|run| - 1]);
    }
  }

  // --- What holds in any case ------------------------------------------------------------------

  /** The numbers add up, and nothing but items of the stock is ever in a pending slot or live. */
  ghost predicate Counted<T>(at: Assignment, all: seq<T>, st: Stock<T>) {
    && st.Shaped(at) && |all| <= |st.slots|
    && st.sent - st.taken + |st.live| == |all|
    && (forall j :: st.taken <= j < st.sent ==> st.Item(at, j) in all)
    && (forall x :: x in st.live ==> x in all)
  }

  lemma TakeCounted<T>(at: Assignment, all: seq<T>, st: Stock<T>)
    requires Counted(at, all, st) && st.taken < st.sent
    ensures Counted(at, all, Take(at, st))
  {
    var st' := Take(at, st);
    assert st.Item(at, st.taken) in all;
    forall j | st'.taken <= j < st'.sent ensures st'.Item(at, j) in all {
      assert st.Item(at, j) in all;
    }
  }

  /** An item that is out leaves room in the ring: returning it is never refused. */
  lemma RoomToReturn<T>(at: Assignment, all: seq<T>, st: Stock<T>, x: T)
    requires Counted(at, all, st) && x in st.live
    ensures st.sent - st.taken < |all| <= |st.slots|
    ensures |st.live - multiset{x}| == |st.live| - 1
  {
    assert st.live == (st.live - multiset{x}) + multiset{x};
  }

  lemma GiveCounted<T>(at: Assignment, all: seq<T>, st: Stock<T>, x: T)
    requires Counted(at, all, st) && x in st.live
    ensures st.sent < st.taken + |st.slots| && Counted(at, all, Give(at, st, x))
  {
    RoomToReturn(at, all, st, x);
    var st' := Give(at, st, x);
    forall j | st'.taken <= j < st'.sent ensures st'.Item(at, j) in all {
      assert j < st.sent ==> st.Item(at, j) in all;
    }
    forall y | y in st'.live ensures y in all {
      assert y in st.live;
    }
  }

  lemma CountedNext<T(!new)>(at: Assignment, all: seq<T>, st: Stock<T>, st': Stock<T>)
    requires Counted(at, all, st) && Next(at, st, st')
    ensures Counted(at, all, st')
  {
    if st.taken < st.sent && st' == Take(at, st) {
      TakeCounted(at, all, st);
    } else {
      var x :| Gives(at, st, st', x);
      GiveCounted(at, all, st, x);
    }
  }

  lemma {:induction false} CountedHolds<T(!new)>(at: Assignment, all: seq<T>, run: seq<Stock<T>>)
    requires IsRun(at, all, run)
    ensures Counted(at, all, run[|run| - 1])
    decreases |run|
  {
    var n := |run| - 1;
    if n > 0 {
      CountedHolds(at, all, run[..n]);
      CountedNext(at, all, run[n - 1], run[n]);
    }
  }

  lemma ReachableCounted<T(!new)>(at: Assignment, all: seq<T>, st: Stock<T>)
    requires Reachable(at, all, st)
    ensures Counted(at, all, st)
  {
    var run :| IsRun(at, all, run) && run[|run| - 1] == st;
    CountedHolds(at, all, run);
  }

  // --- When every item is in one place -----------------------------------------------------------

  /** The pending items and the live ones are together the whole stock, each item once. */
  ghost predicate Stocked<T>(at: Assignment, all: seq<T>, st: Stock<T>)
    requires st.Shaped(at)
  {
    multiset(st.Pending(at)) + st.live == multiset(all)
  }

  /** Any n consecutive counts get n different slots. */
  ghost predicate Separate(at: Assignment, n: nat) {
    forall x: nat, y: nat :: x < y < x + n ==> at.slot(x) != at.slot(y)
  }

  lemma TakeStocked<T>(at: Assignment, all: seq<T>, st: Stock<T>)
    requires st.Shaped(at) && st.taken < st.sent && Stocked(at, all, st)
    ensures Stocked(at, all, Take(at, st))
  {
    var x := st.Item(at, st.taken);
    assert st.Pending(at) == [x] + Take(at, st).Pending(at);
  }

  lemma GiveStocked<T>(at: Assignment, all: seq<T>, st: Stock<T>, x: T)
    requires Counted(at, all, st) && x in st.live && Stocked(at, all, st) && Separate(at, |all|)
    ensures st.sent < st.taken + |st.slots| && Stocked(at, all, Give(at, st, x))
  {
    RoomToReturn(at, all, st, x);
    forall j | st.taken <= j < st.sent ensures at.slot(j) != at.slot(st.sent) {
    }
    assert Give(at, st, x).Pending(at) == st.Pending(at) + [x];
    assert st.live == (st.live - multiset{x}) + multiset{x};
  }

  lemma StockedNext<T(!new)>(at: Assignment, all: seq<T>, st: Stock<T>, st': Stock<T>)
    requires Counted(at, all, st) && Stocked(at, all, st) && Separate(at, |all|) && Next(at, st, st')
    ensures st'.Shaped(at) && Stocked(at, all, st')
  {
    if st.taken < st.sent && st' == Take(at, st) {
      TakeStocked(at, all, st);
    } else {
      var x :| Gives(at, st, st', x);
      GiveStocked(at, all, st, x);
    }
  }

  lemma {:induction false} StockedHolds<T(!new)>(at: Assignment, all: seq<T>, run: seq<Stock<T>>)
    requires IsRun(at, all, run) && Separate(at, |all|)
    ensures Counted(at, all, run[|run| - 1]) && Stocked(at, all, run[|run| - 1])
    decreases |run|
  {
    var n := |run| - 1;
    if n == 0 {
      assert run[0].Pending(at) == all;
    } else {
      StockedHolds(at, all, run[..n]);
      CountedNext(at, all, run[n - 1], run[n]);
      StockedNext(at, all, run[n - 1], run[n]);
    }
  }

  lemma ReachableStocked<T(!new)>(at: Assignment, all: seq<T>, st: Stock<T>)
    requires Reachable(at, all, st) && Separate(at, |all|)
    ensures Counted(at, all, st) && Stocked(at, all, st)
  {
    var run :| IsRun(at, all, run) && run[|run| - 1] == st;
    StockedHolds(at, all, run);
  }

  /** Each item is pending once or live once, and not both. */
  lemma OnePlace<T>(at: Assignment, all: seq<T>, st: Stock<T>, x: T)
    requires st.Shaped(at) && Stocked(at, all, st) && Distinct(all)
    ensures x in all <==> x in st.Pending(at) || x in st.live
    ensures !(x in st.Pending(at) && x in st.live)
    ensures multiset(st.Pending(at))[x] <= 1 && st.live[x] <= 1
  {
    var items := st.Pending(at);
    assert multiset(items)[x] + st.live[x] == multiset(all)[x];
    AtMostOnce(all, x);
    assert x in all <==> 0 < multiset(all)[x];
    assert x in items <==> 0 < multiset(items)[x];
  }

  lemma {:induction false} AtMostOnce<T>(all: seq<T>, x: T)
    requires Distinct(all)
    ensures multiset(all)[x] <= 1
    decreases |all|
  {
    if all != [] {
      var n := |all| - 1;
      AtMostOnce(all[..n], x);
      assert all == all[..n] + [all[n]];
      assert all[n] !in all[..n];
    }
  }

  // --- The run that loses an item ------------------------------------------------------------------

  /** After m items were taken and returned one at a time, the ring holds the whole stock. */
  ghost predicate Rotated<T>(at: Assignment, all: seq<T>, st: Stock<T>, m: nat) {
    st.Shaped(at) && 0 < |all| <= |st.slots| && st.sent == m + |all| && st.taken == m && st.live == multiset{}
  }

  /** Take the oldest item and return it. */
  lemma RotateOnce<T(!new)>(at: Assignment, all: seq<T>, st: Stock<T>, m: nat) returns (st': Stock<T>)
    requires Reachable(at, all, st) && Rotated(at, all, st, m)
    ensures Reachable(at, all, st') && Rotated(at, all, st', m + 1)
    ensures st'.Item(at, st.sent) == st.Item(at, m)
  {
    var x := st.Item(at, m);
    var mid := Take(at, st);
    ReachableNext(at, all, st, mid);
    st' := Give(at, mid, x);
    assert Gives(at, mid, st', x);
    ReachableNext(at, all, mid, st');
    assert st'.live == multiset{};
  }

  lemma {:induction false} RotateTo<T(!new)>(at: Assignment, all: seq<T>, st: Stock<T>, m: nat) returns (st': Stock<T>)
    requires Init(at, all, st) && 0 < |all|
    ensures Reachable(at, all, st') && Rotated(at, all, st', m)
    decreases m
  {
    if m == 0 {
      st' := st;
      ReachableInit(at, all, st);
    } else {
      var before := RotateTo(at, all, st, m - 1);
      st' := RotateOnce(at, all, before, m - 1);
    }
  }

  /** If counts j and k share a slot, returning the k-th item overwrites the j-th while it is pending. */
  lemma Overwrites<T(!new)>(at: Assignment, all: seq<T>, st: Stock<T>, j: nat, k: nat) returns (st': Stock<T>)
    requires Init(at, all, st) && |all| <= k && j < k < j + |all| && at.slot(j) == at.slot(k)
    ensures Reachable(at, all, st') && st'.Shaped(at)
    ensures st'.taken <= j && k < st'.sent && st'.Item(at, j) == st'.Item(at, k)
  {
    var m := k - |all|;
    var full := RotateTo(at, all, st, m);
    st' := RotateOnce(at, all, full, m);
  }

  lemma NotStocked<T>(at: Assignment, all: seq<T>, st: Stock<T>, j: nat, k: nat)
    requires st.Shaped(at) && Distinct(all) && st.taken <= j < k < st.sent && st.Item(at, j) == st.Item(at, k)
    ensures !Stocked(at, all, st)
  {
    var x, items := st.Item(at, j), st.Pending(at);
    var a, b := j - st.taken, k - st.taken;
    assert items == items[..b] + items[b..];
    assert items[..b][a] == x && items[b..][0] == x;
    assert x in items[..b] && x in items[b..];
    assert multiset(items)[x] >= 2;
    AtMostOnce(all, x);
  }

  /** R is kept by every call. */
  ghost predicate Keeps<T(!new)>(at: Assignment, R: Stock<T> -> bool) {
    forall st, st' {:trigger R(st'), Next(at, st, st')} :: R(st) && Next(at, st, st') ==> R(st')
  }

  /** Taking on and on: everything up to the k-th count becomes live. */
  lemma {:induction false} TakeUpTo<T(!new)>(at: Assignment, R: Stock<T> -> bool, st: Stock<T>, k: nat) returns (st': Stock<T>)
    requires Keeps(at, R) && R(st) && st.Shaped(at) && st.taken <= k <= st.sent
    ensures R(st') && st'.Shaped(at) && st'.taken == k && st'.sent == st.sent && st'.slots == st.slots
    ensures forall x :: x in st.live ==> x in st'.live
    ensures forall j :: st.taken <= j < k ==> st.Item(at, j) in st'.live
    decreases k - st.taken
  {
    st' := st;
    if st.taken < k {
      var next := Take(at, st);
      assert Next(at, st, next);
      st' := TakeUpTo(at, R, next, k);
      assert st.Item(at, st.taken) in next.live;
      forall j | st.taken <= j < k ensures st.Item(at, j) in st'.live {
        assert next.Item(at, j) == st.Item(at, j);
      }
    }
  }

  /** In all runs every item is in exactly one place. */
  ghost predicate AlwaysStocked<T(!new)>(at: Assignment, all: seq<T>) {
    forall st :: Reachable(at, all, st) ==> st.Shaped(at) && Stocked(at, all, st)
  }

  ghost predicate Repeats<T>(at: Assignment, st: Stock<T>) {
    st.Shaped(at) && st.taken < st.sent && st.Item(at, st.taken) in st.live
  }

  /** In all runs the next item to be handed out is not one that is out already. */
  ghost predicate NeverTwice<T(!new)>(at: Assignment, all: seq<T>) {
    forall st :: Reachable(at, all, st) ==> !Repeats(at, st)
  }

  lemma HandedOutTwice<T(!new)>(at: Assignment, all: seq<T>, st: Stock<T>, j: nat, k: nat) returns (st': Stock<T>)
    requires Init(at, all, st) && |all| <= k && j < k < j + |all| && at.slot(j) == at.slot(k)
    ensures Reachable(at, all, st') && Repeats(at, st')
  {
    var bad := Overwrites(at, all, st, j, k);
    var R := (x: Stock<T>) => Reachable(at, all, x);
    forall x, y | R(x) && Next(at, x, y) ensures R(y) {
      ReachableNext(at, all, x, y);
    }
    st' := TakeUpTo(at, R, bad, k);
    assert bad.Item(at, j) in st'.live && st'.Item(at, k) == bad.Item(at, k);
  }

  lemma SeparateSuffices<T(!new)>(at: Assignment, all: seq<T>)
    requires Distinct(all) && Separate(at, |all|)
    ensures AlwaysStocked(at, all) && NeverTwice(at, all)
  {
    forall st | Reachable(at, all, st) ensures st.Shaped(at) && Stocked(at, all, st) && !Repeats(at, st) {
      ReachableStocked(at, all, st);
      if st.taken < st.sent {
        var x := st.Item(at, st.taken);
        assert st.Pending(at)[0] == x;
        OnePlace(at, all, st, x);
      }
    }
  }

  // --- The ring's own assignment ---------------------------------------------------------------------

  lemma SeparateInWindow(depth: nat, n: nat)
    requires 0 < depth < WRAP && n <= Window(depth)
    ensures Separate(Slots(depth), n)
  {
    forall x: nat, y: nat | x < y < x + n ensures Slots(depth).slot(x) != Slots(depth).slot(y) {
      SlotsDistinctInWindow(x, y, depth);
    }
  }

  /**
   In all runs every item is in exactly one place, and no item is handed out twice, if and only
   if the depth divides 2^32 or the stock is no larger than the remainder.
   */
  lemma SoundIff<T(!new)>(all: seq<T>, depth: nat, junk: T)
    requires 0 < depth < WRAP && |all| <= depth && Distinct(all)
    ensures AlwaysStocked(Slots(depth), all) <==> |all| <= Window(depth)
    ensures NeverTwice(Slots(depth), all) <==> |all| <= Window(depth)
  {
    var at := Slots(depth);
    if |all| <= Window(depth) {
      SeparateInWindow(depth, |all|);
      SeparateSuffices(at, all);
    } else {
      WindowIsTight(depth, 0);
      var j := WRAP - Window(depth);
      assert at.slot(j) == at.slot(WRAP);
      var init := NewStock(all, depth, junk);
      NewStockIsInit(all, depth, junk);
      var bad := Overwrites(at, all, init, j, WRAP);
      NotStocked(at, all, bad, j, WRAP);
      var twice := HandedOutTwice(at, all, init, j, WRAP);
    }
  }

  /** A ring into which all items were enqueued, with `junk` in the slots not used yet. */
  ghost function NewStock<T>(all: seq<T>, depth: nat, junk: T): (st: Stock<T>)
    requires |all| <= depth
  {
    Stock(|all|, 0, all + seq(depth - |all|, _ => junk), multiset{})
  }

  lemma NewStockIsInit<T>(all: seq<T>, depth: nat, junk: T)
    requires 0 < depth < WRAP && |all| <= depth
    ensures Init(Slots(depth), all, NewStock(all, depth, junk))
  {
    forall j | 0 <= j < |all| ensures Slots(depth).slot(j) == j {
      DivModUnique(j, depth, 0, j);
    }
  }

  // --- The ring in memory ------------------------------------------------------------------------------

  /** The counters as the ring stores them. */
  function Memory<T>(st: Stock<T>): (r: Ring<T>) {
    Wrapped(st.sent, st.taken, st.slots)
  }

  /** Taking is Dequeue. */
  lemma TakeIsDequeue<T>(st: Stock<T>)
    requires 0 < |st.slots| < WRAP && st.Shaped(Slots(|st.slots|))
    ensures Memory(st).WellFormed() && (Memory(st).enqueued == Memory(st).dequeued <==> st.taken == st.sent)
    ensures st.taken < st.sent ==>
              && Step(Memory(st), Dequeue).0 == Memory(Take(Slots(|st.slots|), st))
              && Step(Memory(st), Dequeue).1 == RequestRing.Item(st.Item(Slots(|st.slots|), st.taken))
  {
    WrappedDequeue(st.sent, st.taken, st.slots);
  }

  /** Giving is Enqueue. */
  lemma GiveIsEnqueue<T>(st: Stock<T>, x: T)
    requires 0 < |st.slots| < WRAP && st.Shaped(Slots(|st.slots|))
    ensures Memory(st).WellFormed()
    ensures Step(Memory(st), Enqueue(x)).1.Full? <==> st.sent == st.taken + |st.slots|
    ensures st.sent < st.taken + |st.slots| ==>
              Step(Memory(st), Enqueue(x)).0 == Memory(Give(Slots(|st.slots|), st, x))
  {
    WrappedEnqueue(st.sent, st.taken, st.slots, x);
  }

  /** A new ring into which the first n of these items were enqueued. */
  ghost predicate Filled<T>(items: seq<T>, depth: nat, ring: Ring<T>, n: nat) {
    && ring.WellFormed() && |ring.queue| == depth && ring.enqueued == n && ring.dequeued == 0
    && n <= |items| <= depth
    && forall j :: 0 <= j < n ==> ring.queue[j] == items[j]
  }

  lemma EnqueueFills<T>(items: seq<T>, depth: nat, ring: Ring<T>, n: nat)
    requires Filled(items, depth, ring, n) && n < |items|
    ensures Step(ring, Enqueue(items[n])).1.Accepted?
    ensures Filled(items, depth, Step(ring, Enqueue(items[n])).0, n + 1)
  {
    DivModUnique(n, depth, 0, n);
    assert Minus(ring.enqueued, ring.dequeued) == n;
  }

  function StockOf<T>(ring: Ring<T>): (st: Stock<T>) {
    Stock(ring.enqueued, 0, ring.queue, multiset{})
  }

  lemma FilledIsInit<T>(items: seq<T>, depth: nat, ring: Ring<T>)
    requires 0 < depth < WRAP && Filled(items, depth, ring, |items|)
    ensures Init(Slots(depth), items, StockOf(ring)) && Memory(StockOf(ring)) == ring
  {
    forall j | 0 <= j < |items| ensures Slots(depth).slot(j) == j {
      DivModUnique(j, depth, 0, j);
    }
    DivModUnique(0, WRAP, 0, 0);
  }
}
