/**
 The pools of the page allocator over whole runs: one ring of free pages per core, stealing from
 the next cores when a ring is empty, and pages that go back to the ring they came from.
 */
module PagePools {
  import opened Words
  import opened RingPool

  /** The rings' assignment of slots, and the pages of every core as its ring stores them. */
  datatype View = View(at: Assignment, all: seq<seq<int>>)

  type Pools = seq<Stock<int>>

  ghost predicate Fits(v: View, w: Pools) {
    0 < |w| == |v.all|
  }

  /** The core after this one. */
  function Following(core: nat, cores: nat): (r: nat)
    ensures core < cores ==> r == (core + 1) % cores
  {
    if core + 1 < cores then core + 1 else 0
  }

  /** d cores further round. */
  function Round(core: nat, d: nat, cores: nat): (r: nat)
    requires core < cores
    ensures r < cores
    ensures d <= cores ==> r == if core + d < cores then core + d else core + d - cores
  {
    if d == 0 then core else Following(Round(core, d - 1, cores), cores)
  }

  /** The first pool that is not empty, going round from pool c, is d pools further. */
  ghost predicate FirstStocked(w: Pools, c: nat, d: nat)
    requires c < |w|
  {
    && d < |w| && w[Round(c, d, |w|)].taken < w[Round(c, d, |w|)].sent
    && forall k: nat :: k < d ==> w[Round(c, k, |w|)].taken == w[Round(c, k, |w|)].sent
  }

  /** Alloc by a caller on core c took a page of the first stocked pool. */
  ghost predicate Allocates(v: View, w: Pools, w': Pools, c: nat, d: nat) {
    && c < |w| && FirstStocked(w, c, d)
    && var p := Round(c, d, |w|);
    && w[p].Shaped(v.at) && w' == w[p := Take(v.at, w[p])]
  }

  /** Free put the live page x of pool c back. */
  ghost predicate Frees(v: View, w: Pools, w': Pools, c: nat, x: int) {
    && c < |w| == |w'| && w[c].Shaped(v.at) && Gives(v.at, w[c], w'[c], x) && w' == w[c := w'[c]]
  }

  ghost predicate Called(v: View, w: Pools, w': Pools) {
    && Fits(v, w)
    && ((exists c: nat, d: nat :: Allocates(v, w, w', c, d)) || exists c: nat, x :: Frees(v, w, w', c, x))
  }

  ghost predicate Fresh(v: View, w: Pools) {
    Fits(v, w) && forall i :: 0 <= i < |w| ==> Init(v.at, v.all[i], w[i])
  }

  /** Init, then any calls of Alloc and Free by any process. */
  ghost predicate IsHistory(v: View, run: seq<Pools>) {
    && 0 < |run|
    && if |run| == 1 then Fresh(v, run[0])
       else IsHistory(v, run[..|run| - 1]) && Called(v, run[|run| - 2], run[|run| - 1])
  }

  ghost predicate Arises(v: View, w: Pools) {
    exists run :: IsHistory(v, run) && run[|run| - 1] == w
  }

  lemma ArisesFresh(v: View, w: Pools)
    requires Fresh(v, w)
    ensures Arises(v, w)
  {
    assert IsHistory(v, [w]);
  }

  lemma ArisesNext(v: View, w: Pools, w': Pools)
    requires Arises(v, w) && Called(v, w, w')
    ensures Arises(v, w')
  {
    var run :| IsHistory(v, run) && run[|run| - 1] == w;
    assert (run + [w'])[..|run|] == run;
    assert IsHistory(v, run + [w']);
  }

  // --- Each pool goes through a run of its own ---------------------------------------------------------

  ghost predicate PoolReachable(v: View, w: Pools, i: nat)
    requires i < |w| == |v.all|
  {
    Reachable(v.at, v.all[i], w[i])
  }

  ghost predicate EachReachable(v: View, w: Pools) {
    Fits(v, w) && forall i: nat :: i < |w| ==> PoolReachable(v, w, i)
  }

  /** A step of the allocator is a step of one pool. */
  lemma PoolStep(v: View, w: Pools, w': Pools) returns (c: nat)
    requires Called(v, w, w')
    ensures c < |w| == |w'| && Next(v.at, w[c], w'[c]) && w' == w[c := w'[c]]
  {
    if i: nat, d: nat :| Allocates(v, w, w', i, d) {
      c := Round(i, d, |w|);
    } else {
      var k: nat, x :| Frees(v, w, w', k, x);
      c := k;
    }
  }

  lemma EachReachableNext(v: View, w: Pools, w': Pools)
    requires EachReachable(v, w) && Called(v, w, w')
    ensures EachReachable(v, w')
  {
    var c := PoolStep(v, w, w');
    forall i: nat | i < |w'| ensures PoolReachable(v, w', i) {
      assert PoolReachable(v, w, i);
      if i == c {
        ReachableNext(v.at, v.all[i], w[i], w'[i]);
      }
    }
  }

  lemma {:induction false} EachReachableHolds(v: View, run: seq<Pools>)
    requires IsHistory(v, run)
    ensures EachReachable(v, run[|run| - 1])
    decreases |run|
  {
    var n := |run| - 1;
    if n == 0 {
      forall i: nat | i < |run[0]| ensures PoolReachable(v, run[0], i) {
        ReachableInit(v.at, v.all[i], run[0][i]);
      }
    } else {
      EachReachableHolds(v, run[..n]);
      EachReachableNext(v, run[n - 1], run[n]);
    }
  }

  lemma ArisesReachable(v: View, w: Pools)
    requires Arises(v, w)
    ensures EachReachable(v, w)
  {
    var run :| IsHistory(v, run) && run[|run| - 1] == w;
    EachReachableHolds(v, run);
  }

  /** In every history the numbers add up, and only pages of a core are in its pool or live for it. */
  ghost predicate Sane(v: View, w: Pools) {
    Fits(v, w) && forall i: nat :: i < |w| ==> Counted(v.at, v.all[i], w[i])
  }

  lemma ArisesSane(v: View, w: Pools)
    requires Arises(v, w)
    ensures Sane(v, w)
  {
    ArisesReachable(v, w);
    forall i: nat | i < |w| ensures Counted(v.at, v.all[i], w[i]) {
      assert PoolReachable(v, w, i);
      ReachableCounted(v.at, v.all[i], w[i]);
    }
  }

  // --- When no page is lost ------------------------------------------------------------------------------

  ghost predicate PoolStocked(v: View, w: Pools, i: nat)
    requires i < |w| == |v.all|
  {
    w[i].Shaped(v.at) && Stocked(v.at, v.all[i], w[i])
  }

  /** In all histories each page of each core is free once or live once. */
  ghost predicate AlwaysConserved(v: View) {
    forall w :: Arises(v, w) ==> Fits(v, w) && forall i: nat :: i < |w| ==> PoolStocked(v, w, i)
  }

  /** Alloc is about to hand out a page that is live. */
  ghost predicate AllocRepeats(v: View, w: Pools) {
    exists c: nat, d: nat, w' :: Allocates(v, w, w', c, d) && Repeats(v.at, w[Round(c, d, |w|)])
  }

  lemma Conserved(v: View, w: Pools, i: nat)
    requires Arises(v, w) && i < |w| == |v.all| && Distinct(v.all[i]) && Separate(v.at, |v.all[i]|)
    ensures PoolStocked(v, w, i) && !Repeats(v.at, w[i])
  {
    ArisesReachable(v, w);
    assert PoolReachable(v, w, i);
    SeparateSuffices(v.at, v.all[i]);
  }

  lemma SeparateConserves(v: View, n: nat)
    requires Separate(v.at, n) && forall i :: 0 <= i < |v.all| ==> |v.all[i]| == n && Distinct(v.all[i])
    ensures AlwaysConserved(v) && forall w :: Arises(v, w) ==> !AllocRepeats(v, w)
  {
    forall w | Arises(v, w)
      ensures Fits(v, w) && !AllocRepeats(v, w) && forall i: nat :: i < |w| ==> PoolStocked(v, w, i)
    {
      ArisesReachable(v, w);
      forall i: nat | i < |w| ensures PoolStocked(v, w, i) && !Repeats(v.at, w[i]) {
        Conserved(v, w, i);
      }
    }
  }

  /** Any run of the first pool is a history of the allocator, by callers on the first core. */
  lemma {:induction false} Lifted(v: View, w0: Pools, run: seq<Stock<int>>) returns (w: Pools)
    requires Fresh(v, w0) && IsRun(v.at, v.all[0], run) && run[0] == w0[0]
    ensures Arises(v, w) && Fits(v, w) && w[0] == run[|run| - 1]
    decreases |run|
  {
    var n := |run| - 1;
    if n == 0 {
      w := w0;
      ArisesFresh(v, w0);
    } else {
      var before := Lifted(v, w0, run[..n]);
      w := before[0 := run[n]];
      LiftedStep(v, before, run[n]);
      ArisesNext(v, before, w);
    }
  }

  lemma LiftedStep(v: View, w: Pools, st: Stock<int>)
    requires Fits(v, w) && Next(v.at, w[0], st)
    ensures Called(v, w, w[0 := st])
  {
    if w[0].taken < w[0].sent && st == Take(v.at, w[0]) {
      assert Allocates(v, w, w[0 := st], 0, 0);
    } else {
      var x :| Gives(v.at, w[0], st, x);
      assert Frees(v, w, w[0 := st], 0, x);
    }
  }

  lemma LiftedState(v: View, w0: Pools, st: Stock<int>) returns (w: Pools)
    requires Fresh(v, w0) && Reachable(v.at, v.all[0], st)
    ensures Arises(v, w) && Fits(v, w) && w[0] == st
  {
    var run :| IsRun(v.at, v.all[0], run) && run[|run| - 1] == st;
    StartsWithInit(v.at, v.all[0], run);
    w := Lifted(v, w0[0 := run[0]], run);
  }

  /** If two counts within a pool's length share a slot, some history loses a page and hands one out twice. */
  lemma SharedSlotLosesAPage(v: View, w0: Pools, j: nat, k: nat)
    requires Fresh(v, w0) && Distinct(v.all[0])
    requires |v.all[0]| <= k && j < k < j + |v.all[0]| && v.at.slot(j) == v.at.slot(k)
    ensures !AlwaysConserved(v) && exists w :: Arises(v, w) && AllocRepeats(v, w)
  {
    var bad := Overwrites(v.at, v.all[0], w0[0], j, k);
    var lost := LiftedState(v, w0, bad);
    NotStocked(v.at, v.all[0], bad, j, k);
    assert !PoolStocked(v, lost, 0);
    var st := HandedOutTwice(v.at, v.all[0], w0[0], j, k);
    var twice := LiftedState(v, w0, st);
    assert Allocates(v, twice, twice[0 := Take(v.at, st)], 0, 0);
    assert Repeats(v.at, twice[Round(0, 0, |twice|)]);
  }
}
