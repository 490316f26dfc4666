/**
 The page allocator as each process runs it. The rings hold offsets, so every process works on
 them through its own mapping; a process that attaches learns the layout from the header that
 Init left in the region.
 */
module PageAllocator {
  import opened Words
  import opened Wrappers
  import opened PageLayout
  import opened RequestRing
  import opened RingPool
  import opened PagePools

  // --- The pools that a layout gives -----------------------------------------------------------------

  /** The pages of core i, as its ring stores them. */
  function All(lay: Layout, i: nat): (pages: seq<int>)
    requires lay.Accepted()
    ensures |pages| == lay.Count()
  {
    seq(lay.Count(), j requires 0 <= j < lay.Count() => Stored(lay.Page(i, j)))
  }

  ghost function ViewOf(lay: Layout): (v: View)
    requires lay.Accepted()
  {
    View(Slots(lay.Depth()), seq(lay.cores, i requires 0 <= i < lay.cores => All(lay, i)))
  }

  lemma AllDistinct(lay: Layout, i: nat)
    requires lay.Accepted() && i < lay.cores
    ensures Distinct(All(lay, i))
  {
    forall j, k | 0 <= j < k < lay.Count() ensures All(lay, i)[j] != All(lay, i)[k] {
      PagesStoredApart(lay, i, j, i, k);
    }
  }

  /** A page belongs to one core only. */
  lemma AllApart(lay: Layout, i: nat, k: nat, x: int)
    requires lay.Accepted() && i < lay.cores && k < lay.cores && i != k && x in All(lay, i)
    ensures x !in All(lay, k)
  {
    var j :| 0 <= j < lay.Count() && x == All(lay, i)[j];
    forall l | 0 <= l < lay.Count() ensures All(lay, k)[l] != x {
      PagesStoredApart(lay, i, j, k, l);
    }
  }

  /** No page overlaps a ring, and every offset fits the signed 32 bits it is stored in. */
  ghost predicate Exact(lay: Layout) {
    lay.Sound() && OffsetsExact(lay)
  }

  /**
   In all histories of Alloc and Free by any processes no page is lost or duplicated, and Alloc
   never hands out a live page, if and only if the rings' depth divides 2^32 or a pool has no more
   pages than the remainder.
   */
  lemma ConservedIff(lay: Layout)
    requires Exact(lay)
    ensures AlwaysConserved(ViewOf(lay)) <==> lay.Count() <= Window(lay.Depth())
    ensures (forall w :: Arises(ViewOf(lay), w) ==> !AllocRepeats(ViewOf(lay), w))
            <==> lay.Count() <= Window(lay.Depth())
  {
    var v, depth, n := ViewOf(lay), lay.Depth(), lay.Count();
    DepthFits(lay);
    CountFits(lay);
    forall i | 0 <= i < lay.cores ensures Distinct(v.all[i]) {
      AllDistinct(lay, i);
    }
    if n <= Window(depth) {
      SeparateInWindow(depth, n);
      SeparateConserves(v, n);
    } else {
      WindowIsTight(depth, 0);
      var j := WRAP - Window(depth);
      assert v.at.slot(j) == v.at.slot(WRAP);
      var w0 := FreshPools(lay);
      SharedSlotLosesAPage(v, w0, j, WRAP);
    }
  }

  /** What Init leaves in the pools. */
  lemma FreshPools(lay: Layout) returns (w: Pools)
    requires lay.Accepted()
    ensures PagePools.Fresh(ViewOf(lay), w)
  {
    DepthFits(lay);
    CountFits(lay);
    w := seq(lay.cores, i requires 0 <= i < lay.cores => NewStock(All(lay, i), lay.Depth(), 0));
    forall i | 0 <= i < lay.cores ensures RingPool.Init(Slots(lay.Depth()), All(lay, i), w[i]) {
      NewStockIsInit(All(lay, i), lay.Depth(), 0);
    }
  }

  /** A region of 332 bytes, with pages of 98 bytes, has three pages in a ring of depth three, and loses one. */
  lemma LosingRegion() returns (lay: Layout)
    ensures Exact(lay) && lay.Depth() == 3 == lay.Count() && !AlwaysConserved(ViewOf(lay))
  {
    lay := ThreePages();
    OffsetsExactIff(lay);
    ConservedIff(lay);
  }

  /** Live pages share no byte with each other, with the allocator header, or with any core's header and ring. */
  lemma LivePagesApart(lay: Layout, w: Pools, i: nat, x: int, k: nat, y: int)
    requires Exact(lay) && Arises(ViewOf(lay), w)
    requires i < |w| && k < |w| && x in w[i].live && y in w[k].live
    ensures 0 <= x && 0 <= y && ((i, x) != (k, y) ==> Apart(x, lay.Unit(), y, lay.Unit()))
    ensures (i, x) != (k, y) && lay.requestUnit + lay.z.entry < WRAP ==> RequestApart(lay, x, y)
    ensures Apart(x, lay.Unit(), lay.CoreStart(k), lay.z.coreHeader + lay.RingBytes()) && lay.start + lay.z.header <= x
  {
    var v := ViewOf(lay);
    ArisesSane(v, w);
    assert Counted(v.at, v.all[i], w[i]) && Counted(v.at, v.all[k], w[k]);
    var j :| 0 <= j < lay.Count() && x == All(lay, i)[j];
    var l :| 0 <= l < lay.Count() && y == All(lay, k)[l];
    assert lay.IsPage(i, j) && lay.IsPage(k, l);
    PagesMissMetadata(lay, i, j, k);
    if (i, j) != (k, l) {
      PagesApart(lay, i, j, k, l);
      RequestFitsIff(lay);
    }
  }

  /** And each of them is out once, when pages are conserved. */
  lemma LiveOnce(lay: Layout, w: Pools, i: nat, x: int)
    requires Exact(lay) && Arises(ViewOf(lay), w) && lay.Count() <= Window(lay.Depth()) && i < |w| && x in w[i].live
    ensures w[i].live[x] == 1 && w[i].Shaped(Slots(lay.Depth())) && x !in w[i].Pending(Slots(lay.Depth()))
  {
    var v := ViewOf(lay);
    ArisesReachable(v, w);
    DepthFits(lay);
    CountFits(lay);
    AllDistinct(lay, i);
    SeparateInWindow(lay.Depth(), lay.Count());
    Conserved(v, w, i);
    OnePlace(v.at, v.all[i], w[i], x);
  }

  // --- Which ring a page is freed to ---------------------------------------------------------------------

  /** The core number that fits a page has 16 bits. */
  const CORES: nat := 0x1_0000

  function CoreWord(c: nat): (n: nat)
    ensures n <= c && (c < CORES ==> n == c) && (c == CORES ==> n == 0)
  {
    c % CORES
  }

  /** Cores share a number exactly when they are a multiple of 2^16 apart. */
  lemma CoreWordsCollideIff(c: nat, d: nat)
    requires c <= d
    ensures CoreWord(c) == CoreWord(d) <==> exists k: nat :: d == c + k * CORES
  {
    if CoreWord(c) == CoreWord(d) {
      assert d == c + (d / CORES - c / CORES) * CORES;
    }
    if k: nat :| d == c + k * CORES {
      DivModUnique(d, CORES, c / CORES + k, c % CORES);
    }
  }

  ghost predicate HasRoom(w: Pools, c: nat) {
    c < |w| && w[c].sent < w[c].taken + |w[c].slots|
  }

  /** The first ring with room, going round from ring c, is d rings further. */
  ghost predicate FirstRoomy(w: Pools, c: nat, d: nat) {
    c < |w| && HasRoom(w, Round(c, d, |w|)) && FullUpTo(w, c, d)
  }

  /** The d rings from ring c on are full. */
  ghost predicate FullUpTo(w: Pools, c: nat, d: nat)
    requires c < |w|
  {
    forall k: nat :: k < d ==> !HasRoom(w, Round(c, k, |w|))
  }

  /** How far round it is from one ring to another. */
  function Distance(first: nat, home: nat, cores: nat): (d: nat)
    requires first < cores && home < cores
    ensures home == Round(first, d, cores)
  {
    if first <= home then home - first else home + cores - first
  }

  /** Going on past a full ring, but not past the ring `home` that has room. */
  lemma NextRing(w: Pools, c: nat, d: nat, home: nat, last: nat)
    requires c < |w| && FullUpTo(w, c, d) && !HasRoom(w, Round(c, d, |w|)) && d <= last
    requires HasRoom(w, home) && home == Round(c, last, |w|)
    ensures FullUpTo(w, c, d + 1) && d < last && Round(c, d + 1, |w|) == Following(Round(c, d, |w|), |w|)
  {
  }

  /** In all histories the ring that Free finds for a live page is the one the page came from. */
  ghost predicate FreesGoHome(v: View) {
    forall w: Pools, i: nat, x, d: nat ::
      Arises(v, w) && i < |w| && x in w[i].live && FirstRoomy(w, CoreWord(i), d) ==> Round(CoreWord(i), d, |w|) == i
  }

  /** That is so exactly when the cores can be numbered with 16 bits. */
  lemma FreesHomeIff(lay: Layout)
    requires Exact(lay) && 0 < lay.Count()
    ensures FreesGoHome(ViewOf(lay)) <==> lay.cores <= CORES
  {
    var v := ViewOf(lay);
    if lay.cores <= CORES {
      forall w: Pools, i: nat, x, d: nat | Arises(v, w) && i < |w| && x in w[i].live && FirstRoomy(w, CoreWord(i), d)
        ensures Round(CoreWord(i), d, |w|) == i
      {
        ArisesSane(v, w);
        assert Counted(v.at, v.all[i], w[i]);
        RoomAtHome(v, w, i, x, d);
      }
    } else {
      var w, x := Misfiled(lay);
    }
  }

  /** A live page's own ring has room, so a search that starts there ends there. */
  lemma RoomAtHome(v: View, w: Pools, i: nat, x: int, d: nat)
    requires i < |w| == |v.all| && Counted(v.at, v.all[i], w[i]) && x in w[i].live && FirstRoomy(w, i, d)
    ensures d == 0 && Round(i, d, |w|) == i
  {
    RoomToReturn(v.at, v.all[i], w[i], x);
    assert HasRoom(w, Round(i, 0, |w|));
  }

  /** A page of core 65536 is out while ring 0 has room. */
  lemma Misfiled(lay: Layout) returns (w: Pools, x: int)
    requires Exact(lay) && 0 < lay.Count() && CORES < lay.cores
    ensures Arises(ViewOf(lay), w) && CORES < |w| && x in w[CORES].live && FirstRoomy(w, CoreWord(CORES), 0)
  {
    var v := ViewOf(lay);
    var w0 := FreshPools(lay);
    ArisesFresh(v, w0);
    var w1 := TakeAt(v, w0, CORES);
    w := TakeAt(v, w1, 0);
    x := w0[CORES].Item(v.at, 0);
  }

  /** 65537 cores with a page each. */
  lemma ManyCores() returns (lay: Layout)
    ensures Exact(lay) && 0 < lay.Count() && !FreesGoHome(ViewOf(lay))
  {
    lay := Layout(PageSizes(8, 8, 12, 4, 2), 0, 3276850, 24, 65537);
    assert lay.PerCore() == 50 && lay.Unit() == 26 && lay.Depth() == 1 && lay.Metadata() == 24 && lay.Count() == 1;
    OffsetsExactIff(lay);
    FreesHomeIff(lay);
  }

  /** A caller on core c takes a page of its own pool. */
  lemma TakeAt(v: View, w: Pools, c: nat) returns (w': Pools)
    requires Arises(v, w) && Fits(v, w) && c < |w| && w[c].Shaped(v.at) && w[c].taken < w[c].sent
    ensures Arises(v, w') && w' == w[c := Take(v.at, w[c])]
  {
    w' := w[c := Take(v.at, w[c])];
    assert Round(c, 0, |w|) == c;
    assert Allocates(v, w, w', c, 0);
    assert Called(v, w, w');
    ArisesNext(v, w, w');
  }

  // --- The region --------------------------------------------------------------------------------------

  /** What Init leaves at the front of the region. */
  datatype Header = Header(regionSize: nat, cores: nat)

  /** Operations on the ring in memory are steps of the stock. */
  ghost predicate DequeueTakes(at: Assignment, st: Stock<int>)
    requires st.Shaped(at)
  {
    && Memory(st).WellFormed() && (Memory(st).enqueued == Memory(st).dequeued <==> st.taken == st.sent)
    && (st.taken < st.sent ==> Step(Memory(st), Dequeue) == (Memory(Take(at, st)), Item(st.Item(at, st.taken))))
  }

  ghost predicate EnqueueGives(at: Assignment, st: Stock<int>, x: int)
    requires st.Shaped(at)
  {
    && Memory(st).WellFormed()
    && (Step(Memory(st), Enqueue(x)).1.Accepted? <==> st.sent < st.taken + |st.slots|)
    && (st.sent < st.taken + |st.slots| ==> Step(Memory(st), Enqueue(x)).0 == Memory(Give(at, st, x)))
  }

  ghost predicate RingLike(at: Assignment) {
    && (forall st: Stock<int> {:trigger DequeueTakes(at, st)} :: st.Shaped(at) ==> DequeueTakes(at, st))
    && (forall st: Stock<int>, x {:trigger EnqueueGives(at, st, x)} :: st.Shaped(at) ==> EnqueueGives(at, st, x))
  }

  lemma SlotsRingLike(depth: nat)
    requires 0 < depth < WRAP
    ensures RingLike(Slots(depth))
  {
    var at := Slots(depth);
    forall st: Stock<int> | st.Shaped(at) ensures DequeueTakes(at, st) {
      TakeIsDequeue(st);
    }
    forall st: Stock<int>, x | st.Shaped(at) ensures EnqueueGives(at, st, x) {
      GiveIsEnqueue(st, x);
    }
  }

  /** A set of states of the pools that calls do not leave. */
  ghost predicate Steady(v: View, P: Pools -> bool) {
    && (forall w :: P(w) ==> Sane(v, w))
    && (forall w, w' :: P(w) && Called(v, w, w') ==> P(w'))
  }

  /** Pages of different cores are different, and each fits the 32 bits it is stored in. */
  ghost predicate Homes(v: View) {
    && (forall i, k, x :: 0 <= i < |v.all| && 0 <= k < |v.all| && i != k && x in v.all[i] ==> x !in v.all[k])
    && (forall i, x :: 0 <= i < |v.all| && x in v.all[i] ==> Stored(x) == x)
  }

  /** The ring of every pool lies at its place. */
  ghost predicate Placed(places: seq<nat>, pools: Pools, rings: map<nat, Ring<int>>) {
    && |places| == |pools| && (forall i, k :: 0 <= i < k < |places| ==> places[i] != places[k])
    && (forall i :: 0 <= i < |places| ==> places[i] in rings && rings[places[i]] == Memory(pools[i]))
  }

  lemma PlacedUpdate(places: seq<nat>, pools: Pools, rings: map<nat, Ring<int>>, c: nat, st: Stock<int>)
    requires Placed(places, pools, rings) && c < |pools|
    ensures Placed(places, pools[c := st], rings[places[c] := Memory(st)])
  {
    forall i | 0 <= i < |places| && i != c ensures places[i] != places[c] {
      var a, b := if i < c then i else c, if i < c then c else i;
      assert places[a] != places[b];
    }
  }

  /** The word in front of every live page holds the low bits of the pool it came from. */
  ghost predicate AtHome(pools: Pools, coreOf: map<int, nat>) {
    forall i, x :: 0 <= i < |pools| && x in pools[i].live ==> x in coreOf && coreOf[x] == CoreWord(i)
  }

  lemma TakeAtHome(v: View, pools: Pools, coreOf: map<int, nat>, c: nat)
    requires Sane(v, pools) && Homes(v) && AtHome(pools, coreOf) && c < |pools| && pools[c].taken < pools[c].sent
    requires pools[c].Shaped(v.at)
    ensures AtHome(pools[c := Take(v.at, pools[c])], coreOf[pools[c].Item(v.at, pools[c].taken) := CoreWord(c)])
  {
    var page, w := pools[c].Item(v.at, pools[c].taken), pools[c := Take(v.at, pools[c])];
    assert Counted(v.at, v.all[c], pools[c]) && page in v.all[c];
    forall i, x | 0 <= i < |w| && x in w[i].live
      ensures x in coreOf[page := CoreWord(c)] && coreOf[page := CoreWord(c)][x] == CoreWord(i)
    {
      if i != c {
        assert Counted(v.at, v.all[i], pools[i]) && x in v.all[i];
      } else if x != page {
        assert x in pools[c].live;
      }
    }
  }

  lemma GiveAtHome(v: View, pools: Pools, coreOf: map<int, nat>, c: nat, x: int)
    requires AtHome(pools, coreOf) && c < |pools| && pools[c].Shaped(v.at) && pools[c].sent < pools[c].taken + |pools[c].slots|
    ensures AtHome(pools[c := Give(v.at, pools[c], x)], coreOf)
  {
    var w := pools[c := Give(v.at, pools[c], x)];
    forall i, y | 0 <= i < |w| && y in w[i].live ensures y in coreOf && coreOf[y] == CoreWord(i) {
      assert y in pools[i].live;
    }
  }

  /** The shared region: its header, the ring at each core's offset, and the word in front of each page. */
  class SharedMemory {
    var header: Header
    var rings: map<nat, Ring<int>>
    var coreOf: map<int, nat>

    ghost var lay: Layout
    ghost var v: View
    ghost var places: seq<nat>
    ghost var P: Pools -> bool
    ghost var pools: Pools

    constructor () {
      header, rings, coreOf := Header(0, 0), map[], map[];
      P := (_ => false);
    }

    /** The fields say what the layout says. */
    ghost predicate LaidOut()
      reads this`header, this`lay, this`v, this`places, this`P
    {
      && Exact(lay) && header == Header(lay.regionSize, lay.cores) && v == ViewOf(lay)
      && |places| == lay.cores && (forall i: nat :: i < |places| ==> places[i] == lay.CoreStart(i))
      && forall w :: P(w) <==> Arises(v, w)
    }

    /** Init writes the header and the rings. */
    method Write(lay: Layout, rings: map<nat, Ring<int>>, ghost pools: Pools, ghost places: seq<nat>)
      requires Exact(lay) && PagePools.Fresh(ViewOf(lay), pools) && Placed(places, pools, rings) && AtHome(pools, map[])
      requires |places| == lay.cores && forall i: nat :: i < |places| ==> places[i] == lay.CoreStart(i)
      modifies this
      ensures Valid() && LaidOut() && this.lay == lay && v == ViewOf(lay) && this.pools == pools && this.places == places
    {
      header, this.rings, coreOf := Header(lay.regionSize, lay.cores), rings, map[];
      this.lay, v, this.places, this.pools := lay, ViewOf(lay), places, pools;
      P := CarvedIsSteady(lay, pools);
    }

    /** The rings hold what the pools hold, and every live page remembers its pool. */
    ghost predicate Valid()
      reads this
    {
      && Steady(v, P) && P(pools) && RingLike(v.at) && Homes(v)
      && Placed(places, pools, rings) && AtHome(pools, coreOf)
    }
  }

  // --- Init ------------------------------------------------------------------------------------------

  /** Init of one core: fill the ring with the pages behind it; no Enqueue is refused. */
  method InitPool(lay: Layout, ghost i: nat, core: nat) returns (ring: Ring<int>)
    requires lay.Accepted() && i < lay.cores && core == lay.CoreStart(i)
    ensures Filled(All(lay, i), lay.Depth(), ring, lay.Count())
  {
    CountFits(lay);
    DepthFits(lay);
    ring := Ring(0, 0, seq(lay.Depth(), _ => 0));
    var remainder := core + lay.Metadata();
    var n := (core + lay.PerCore() - remainder) / lay.Unit();
    for j := 0 to n
      invariant remainder == lay.Page(i, j) && Filled(All(lay, i), lay.Depth(), ring, j)
    {
      EnqueueFills(All(lay, i), lay.Depth(), ring, j);
      ring := Step(ring, Enqueue(Stored(remainder))).0;
      NextPage(lay, i, j);
      remainder := remainder + lay.Unit();
    }
  }

  lemma NextPage(lay: Layout, i: nat, j: nat)
    requires lay.Accepted()
    ensures lay.Page(i, j) + lay.Unit() == lay.Page(i, j + 1)
  {
    assert (j + 1) * lay.Unit() == j * lay.Unit() + lay.Unit();
  }

  lemma NextCore(lay: Layout, i: nat)
    requires 0 < lay.cores
    ensures lay.CoreStart(i) + lay.PerCore() == lay.CoreStart(i + 1)
  {
    assert (i + 1) * lay.PerCore() == i * lay.PerCore() + lay.PerCore();
  }

  /** One more ring, at a new place. */
  lemma PlacedExtend(places: seq<nat>, pools: Pools, rings: map<nat, Ring<int>>, place: nat, st: Stock<int>)
    requires Placed(places, pools, rings) && place !in places
    ensures Placed(places + [place], pools + [st], rings[place := Memory(st)])
  {
  }

  lemma NewPlace(lay: Layout, places: seq<nat>, n: nat)
    requires lay.Accepted() && |places| == n && forall k: nat :: k < n ==> places[k] == lay.CoreStart(k)
    ensures lay.CoreStart(n) !in places
  {
    forall k: nat | k < n ensures places[k] != lay.CoreStart(n) {
      CoresApart(lay, k, n);
    }
  }

  ghost predicate AllInit(at: Assignment, all: seq<seq<int>>, pools: Pools) {
    |pools| <= |all| && forall k :: 0 <= k < |pools| ==> RingPool.Init(at, all[k], pools[k])
  }

  /** One turn of the loop of Init. */
  method CarveOne(lay: Layout, ghost i: nat, place: nat, rings: map<nat, Ring<int>>, ghost pools: Pools, ghost places: seq<nat>)
    returns (rings': map<nat, Ring<int>>, ghost pools': Pools)
    requires lay.Accepted() && i < lay.cores && place == lay.CoreStart(i)
    requires Placed(places, pools, rings) && AllInit(ViewOf(lay).at, ViewOf(lay).all, pools)
    requires |places| == i && forall k: nat :: k < i ==> places[k] == lay.CoreStart(k)
    ensures Placed(places + [place], pools', rings') && AllInit(ViewOf(lay).at, ViewOf(lay).all, pools')
  {
    var ring := InitPool(lay, i, place);
    DepthFits(lay);
    FilledIsInit(All(lay, i), lay.Depth(), ring);
    NewPlace(lay, places, i);
    PlacedExtend(places, pools, rings, place, StockOf(ring));
    rings', pools' := rings[place := ring], pools + [StockOf(ring)];
  }

  /** The loop of Init: the rings, and the address of every core's part in the caller's mapping. */
  method Carve(lay: Layout, base: nat)
    returns (rings: map<nat, Ring<int>>, starts: seq<nat>, ghost pools: Pools, ghost places: seq<nat>)
    requires lay.Accepted()
    ensures PagePools.Fresh(ViewOf(lay), pools) && Placed(places, pools, rings) && AtHome(pools, map[])
    ensures |starts| == |places| == lay.cores
    ensures forall i: nat :: i < lay.cores ==> places[i] == lay.CoreStart(i) && starts[i] == base + places[i]
  {
    rings, starts, pools, places := map[], [], [], [];
    ghost var v := ViewOf(lay);
    var core := base + lay.start + lay.z.header;
    for i := 0 to lay.cores
      invariant core == base + lay.CoreStart(i) && CoresAt(lay, base, places, starts, i)
      invariant Placed(places, pools, rings) && AllInit(v.at, v.all, pools)
    {
      rings, pools := CarveOne(lay, i, core - base, rings, pools, places);
      CoresAtNext(lay, base, places, starts, i);
      starts, places := starts + [core], places + [core - base];
      NextCore(lay, i);
      core := core + lay.PerCore();
    }
  }

  /** The first n cores, in the region and in the caller's mapping. */
  ghost predicate CoresAt(lay: Layout, base: nat, places: seq<nat>, starts: seq<nat>, n: nat) {
    && 0 < lay.cores && |starts| == n == |places|
    && forall k: nat :: k < n ==> places[k] == lay.CoreStart(k) && starts[k] == base + places[k]
  }

  lemma CoresAtNext(lay: Layout, base: nat, places: seq<nat>, starts: seq<nat>, n: nat)
    requires CoresAt(lay, base, places, starts, n)
    ensures CoresAt(lay, base, places + [lay.CoreStart(n)], starts + [base + lay.CoreStart(n)], n + 1)
  {
  }

  /** Carving all cores gives a region ready for use. */
  lemma CarvedIsSteady(lay: Layout, pools: Pools) returns (P: Pools -> bool)
    requires lay.Accepted() && PagePools.Fresh(ViewOf(lay), pools)
    ensures RingLike(ViewOf(lay).at) && Homes(ViewOf(lay)) && Steady(ViewOf(lay), P) && P(pools)
    ensures forall w :: P(w) <==> Arises(ViewOf(lay), w)
  {
    var v := ViewOf(lay);
    P := w => Arises(v, w);
    DepthFits(lay);
    SlotsRingLike(lay.Depth());
    ArisesFresh(v, pools);
    forall w | P(w) ensures Sane(v, w) {
      ArisesSane(v, w);
    }
    forall w, w' | P(w) && Called(v, w, w') ensures P(w') {
      ArisesNext(v, w, w');
    }
    forall i, k, x | 0 <= i < |v.all| && 0 <= k < |v.all| && i != k && x in v.all[i] ensures x !in v.all[k] {
      AllApart(lay, i, k, x);
    }
    forall i, x | 0 <= i < |v.all| && x in v.all[i] ensures Stored(x) == x {
      var j :| 0 <= j < lay.Count() && x == All(lay, i)[j];
    }
  }

  /** A process's view of the region: where it is mapped, and the address of each core's part. */
  class ShmemAllocator {
    const z: PageSizes
    const mem: SharedMemory
    const base: nat
    const starts: seq<nat>

    /** The addresses are those of the region's parts in this process's mapping. */
    ghost predicate Attached()
      reads mem`places
    {
      |starts| == |mem.places| && forall i :: 0 <= i < |starts| ==> starts[i] == base + mem.places[i]
    }

    constructor Init(mem: SharedMemory, base: nat, lay: Layout)
      requires Exact(lay)
      modifies mem
      ensures mem.Valid() && mem.LaidOut() && mem.lay == lay && PagePools.Fresh(mem.v, mem.pools)
      ensures Attached() && this.mem == mem && this.base == base && z == lay.z
    {
      var rings, addresses, pools, places := Carve(lay, base);
      z, this.mem, this.base, starts := lay.z, mem, base, addresses;
      new;
      mem.Write(lay, rings, pools, places);
    }

    /** Everything but the place of the region is read from its header. */
    constructor Attach(z: PageSizes, mem: SharedMemory, base: nat, start: nat)
      requires mem.LaidOut() && mem.lay.z == z && mem.lay.start == start
      ensures Attached() && this.mem == mem && this.base == base && this.z == z
    {
      var size, cores := mem.header.regionSize, mem.header.cores;
      var addresses, core := [], base + start + z.header;
      for i := 0 to cores
        invariant core == base + mem.lay.CoreStart(i) && |addresses| == i
        invariant forall k: nat :: k < i ==> addresses[k] == base + mem.lay.CoreStart(k)
      {
        addresses := addresses + [core];
        NextCore(mem.lay, i);
        core := core + size / cores;
      }
      this.z, this.mem, this.base, starts := z, mem, base, addresses;
    }

    /** Whether Dequeue would find a page. */
    method HasPage(c: nat) returns (ok: bool)
      requires mem.Valid() && Attached() && c < |starts|
      ensures ok <==> mem.pools[c].taken < mem.pools[c].sent
    {
      assert Counted(mem.v.at, mem.v.all[c], mem.pools[c]);
      assert DequeueTakes(mem.v.at, mem.pools[c]);
      var ring := mem.rings[starts[c] - base];
      ok := ring.enqueued != ring.dequeued;
    }

    /** The stealing loop: the first ring with a page, going round from ring `save`. */
    method FindPool(save: nat) returns (found: bool, c: nat, ghost d: nat)
      requires mem.Valid() && Attached() && save < |starts|
      ensures found ==> FirstStocked(mem.pools, save, d) && c == Round(save, d, |starts|)
      ensures !found ==> forall i: nat :: i < |starts| ==> mem.pools[i].taken == mem.pools[i].sent
    {
      ghost var w := mem.pools;
      var cores := |starts|;
      c, d := save, 0;
      var tried := false;
      while !tried || c != save
        invariant d <= cores && c == Round(save, d, cores) && (tried <==> 0 < d)
        invariant forall k: nat :: k < d ==> w[Round(save, k, cores)].taken == w[Round(save, k, cores)].sent
        decreases cores - d
      {
        var full := HasPage(c);
        if full {
          return true, c, d;
        }
        tried, c, d := true, Following(c, cores), d + 1;
      }
      forall i: nat | i < cores ensures w[i].taken == w[i].sent {
        assert i == Round(save, if save <= i then i - save else i + cores - save, cores);
      }
      found := false;
    }

    /** Alloc of one core: dequeue a page and note the core in the page. */
    method TakeFrom(c: nat) returns (data: int)
      requires mem.Valid() && Attached() && c < |starts| && mem.pools[c].taken < mem.pools[c].sent
      requires mem.pools[c].Shaped(mem.v.at)
      requires mem.P(mem.pools[c := Take(mem.v.at, mem.pools[c])])
      modifies mem`rings, mem`coreOf, mem`pools
      ensures mem.Valid()
      ensures mem.pools == old(mem.pools)[c := Take(mem.v.at, old(mem.pools)[c])]
      ensures data == base + old(mem.pools)[c].Item(mem.v.at, old(mem.pools)[c].taken) + z.entry
    {
      ghost var st := mem.pools[c];
      assert Counted(mem.v.at, mem.v.all[c], st);
      assert DequeueTakes(mem.v.at, st);
      var place := starts[c] - base;
      var (ring, reply) := Step(mem.rings[place], Dequeue);
      var page := reply.data;
      PlacedUpdate(mem.places, mem.pools, mem.rings, c, Take(mem.v.at, st));
      TakeAtHome(mem.v, mem.pools, mem.coreOf, c);
      mem.rings := mem.rings[place := ring];
      mem.coreOf := mem.coreOf[page := CoreWord(c)];
      mem.pools := mem.pools[c := Take(mem.v.at, st)];
      data := base + page + z.entry;
    }

    /** The address of a page's data, or None when every ring is empty. */
    method Alloc(core: nat) returns (data: Option<int>, ghost c: nat, ghost d: nat)
      requires mem.Valid() && Attached()
      modifies mem`rings, mem`coreOf, mem`pools
      ensures mem.Valid()
      ensures data.None? <==> forall i: nat :: i < |starts| ==> old(mem.pools)[i].taken == old(mem.pools)[i].sent
      ensures data.None? ==> mem.pools == old(mem.pools)
      ensures data.Some? ==>
                && Allocates(mem.v, old(mem.pools), mem.pools, core % |starts|, d) && c == Round(core % |starts|, d, |starts|)
                && c < |starts| && old(mem.pools)[c].Shaped(mem.v.at)
                && mem.pools == old(mem.pools)[c := Take(mem.v.at, old(mem.pools)[c])]
                && data.value == base + old(mem.pools)[c].Item(mem.v.at, old(mem.pools)[c].taken) + z.entry
    {
      ghost var w := mem.pools;
      assert Sane(mem.v, w);
      var save := core % |starts|;
      var found, p;
      found, p, d := FindPool(save);
      c := p;
      if !found {
        return None, c, d;
      }
      assert Counted(mem.v.at, mem.v.all[c], w[c]);
      assert Allocates(mem.v, w, w[c := Take(mem.v.at, w[c])], save, d);
      assert Called(mem.v, w, w[c := Take(mem.v.at, w[c])]);
      var page := TakeFrom(p);
      data := Some(page);
    }

    /** The page behind this address was handed out by pool `home` and not freed since. */
    ghost predicate IsLive(data: int, home: nat)
      reads mem
    {
      home < |starts| && home < |mem.pools| && (data - z.entry - base) in mem.pools[home].live
    }

    /** What Free can count on. */
    lemma LivePage(page: int, home: nat)
      requires mem.Valid() && Attached() && home < |starts| && page in mem.pools[home].live
      ensures Stored(page) == page && page in mem.coreOf && mem.coreOf[page] == CoreWord(home)
      ensures |mem.pools| == |starts| && HasRoom(mem.pools, home)
    {
      assert Counted(mem.v.at, mem.v.all[home], mem.pools[home]);
      RoomToReturn(mem.v.at, mem.v.all[home], mem.pools[home], page);
    }

    /** Free of one core: enqueue the page, unless the ring is full. */
    method GiveTo(c: nat, page: int) returns (ok: bool)
      requires mem.Valid() && Attached() && c < |starts|
      modifies mem`rings
      ensures ok <==> HasRoom(mem.pools, c)
      ensures mem.places[c] in old(mem.rings) && old(mem.rings)[mem.places[c]].WellFormed()
      ensures mem.rings ==
                if ok then old(mem.rings)[mem.places[c] := Step(old(mem.rings)[mem.places[c]], Enqueue(page)).0]
                else old(mem.rings)
    {
      assert Counted(mem.v.at, mem.v.all[c], mem.pools[c]);
      assert EnqueueGives(mem.v.at, mem.pools[c], page);
      var place := starts[c] - base;
      var (ring, reply) := Step(mem.rings[place], Enqueue(page));
      ok := reply.Accepted?;
      if ok {
        mem.rings := mem.rings[place := ring];
      }
    }

    /** A live page enqueued to its own ring is back in its pool. */
    ghost method BackHome(home: nat, page: int, rings: map<nat, Ring<int>>)
      requires Closed(rings) && Attached() && home < |starts| && page in mem.pools[home].live
      requires mem.places[home] in rings && rings[mem.places[home]].WellFormed()
      requires mem.rings == rings[mem.places[home] := Step(rings[mem.places[home]], Enqueue(page)).0]
      modifies mem`pools
      ensures mem.Valid() && Frees(mem.v, old(mem.pools), mem.pools, home, page)
    {
      var w, v := mem.pools, mem.v;
      assert Counted(v.at, v.all[home], w[home]);
      RoomToReturn(v.at, v.all[home], w[home], page);
      assert EnqueueGives(v.at, w[home], page);
      var st := Give(v.at, w[home], page);
      assert Gives(v.at, w[home], st, page);
      assert Frees(v, w, w[home := st], home, page);
      assert Called(v, w, w[home := st]);
      PlacedUpdate(mem.places, w, rings, home, st);
      GiveAtHome(v, w, mem.coreOf, home, page);
      mem.pools := w[home := st];
    }

    /** What `mem.Valid()` says, with these rings. */
    ghost predicate Closed(rings: map<nat, Ring<int>>)
      reads mem
    {
      && Steady(mem.v, mem.P) && mem.P(mem.pools) && RingLike(mem.v.at) && Homes(mem.v)
      && Placed(mem.places, mem.pools, rings) && AtHome(mem.pools, mem.coreOf)
    }

    /**
     Free of a live page: it goes to the first ring with room, going round from the ring that the
     16 bits in the page name. That is the ring it came from, at the first try, if that is one of
     the first 2^16.
     */
    method Free(data: int, ghost home: nat) returns (tries: nat, c: nat)
      requires mem.Valid() && Attached() && IsLive(data, home)
      modifies mem`rings, mem`pools
      ensures 0 < tries && FirstRoomy(old(mem.pools), CoreWord(home), tries - 1) && c == Round(CoreWord(home), tries - 1, |starts|)
      ensures c == home ==> mem.Valid() && Frees(mem.v, old(mem.pools), mem.pools, home, data - z.entry - base)
      ensures c != home ==> mem.pools == old(mem.pools) && Enqueued(mem.places, old(mem.rings), mem.rings, c, data - z.entry - base)
      ensures home < CORES ==> tries == 1 && c == home
    {
      ghost var rings := mem.rings;
      var page := Stored(data - z.entry - base);
      LivePage(data - z.entry - base, home);
      tries, c := FindRoom(mem.coreOf[page], home);
      if home < CORES {
        HomeIsFirst(mem.pools, home, tries - 1);
      }
      var ok := GiveTo(c, page);
      if c == home {
        BackHome(home, page, rings);
      }
    }

    /** Whether Enqueue would be refused. */
    method IsFull(c: nat) returns (full: bool)
      requires mem.Valid() && Attached() && c < |starts|
      ensures full <==> !HasRoom(mem.pools, c)
    {
      assert Counted(mem.v.at, mem.v.all[c], mem.pools[c]);
      assert EnqueueGives(mem.v.at, mem.pools[c], 0);
      full := Step(mem.rings[starts[c] - base], Enqueue(0)).1.Full?;
    }

    /** The loop of Free: the first ring with room, going round from ring `first`. */
    method FindRoom(first: nat, ghost home: nat) returns (tries: nat, c: nat)
      requires mem.Valid() && Attached() && first < |starts| && home < |starts| && HasRoom(mem.pools, home)
      ensures 0 < tries && FirstRoomy(mem.pools, first, tries - 1) && c == Round(first, tries - 1, |starts|)
    {
      ghost var w, d := mem.pools, Distance(first, home, |starts|);
      var cores := |starts|;
      tries, c := 1, first;
      var full := IsFull(c);
      while full
        invariant 0 < tries <= d + 1 && c == Round(first, tries - 1, cores)
        invariant FullUpTo(w, first, tries - 1) && (full <==> !HasRoom(w, c))
        decreases d + 1 - tries
      {
        NextRing(w, first, tries - 1, home, d);
        c, tries := Following(c, cores), tries + 1;
        full := IsFull(c);
      }
    }
  }

  lemma HomeIsFirst(w: Pools, home: nat, d: nat)
    requires home < |w| && HasRoom(w, home) && FirstRoomy(w, home, d)
    ensures d == 0
  {
    assert HasRoom(w, Round(home, 0, |w|));
  }

  /** Two processes' views of one region name the same rings. */
  lemma SameRings(a: ShmemAllocator, b: ShmemAllocator, i: nat)
    requires a.mem == b.mem && a.Attached() && b.Attached() && i < |a.starts|
    ensures |a.starts| == |b.starts| && a.starts[i] - a.base == b.starts[i] - b.base
  {
  }

  /** Whatever calls were made through whatever views, the region has gone through a history of its pools. */
  lemma StaysConserved(mem: SharedMemory)
    requires mem.Valid() && mem.LaidOut()
    ensures Arises(ViewOf(mem.lay), mem.pools) && |mem.pools| == mem.lay.cores == |mem.v.all|
    ensures mem.lay.Count() <= Window(mem.lay.Depth()) ==> forall i: nat :: i < |mem.pools| ==> PoolStocked(mem.v, mem.pools, i)
  {
    ArisesSane(mem.v, mem.pools);
    if mem.lay.Count() <= Window(mem.lay.Depth()) {
      ConservedIff(mem.lay);
    }
  }

  /** Pool c hands out page p, its oldest. */
  ghost predicate HandsOut(v: View, w: Pools, w': Pools, c: nat, p: int) {
    && c < |w| && w[c].Shaped(v.at) && w[c].taken < w[c].sent
    && p == w[c].Item(v.at, w[c].taken) && w' == w[c := Take(v.at, w[c])]
  }

  /** The address that Alloc returns is behind the word of the page that its pool hands out. */
  method AllocPage(a: ShmemAllocator, core: nat) returns (data: Option<int>, ghost c: nat, ghost p: int)
    requires a.mem.Valid() && a.Attached()
    modifies a.mem`rings, a.mem`coreOf, a.mem`pools
    ensures a.mem.Valid()
    ensures data.None? ==> a.mem.pools == old(a.mem.pools)
    ensures data.Some? ==> HandsOut(a.mem.v, old(a.mem.pools), a.mem.pools, c, p) && data.value == a.base + p + a.z.entry
    ensures data.Some? ==> c < |a.starts| && c < |a.mem.pools| && p in a.mem.pools[c].live
  {
    ghost var w := a.mem.pools;
    assert Sane(a.mem.v, w);
    ghost var d;
    data, c, d := a.Alloc(core);
    p := 0;
    if data.Some? {
      assert Counted(a.mem.v.at, a.mem.v.all[c], w[c]);
      p := w[c].Item(a.mem.v.at, w[c].taken);
    }
  }

  lemma Arose(mem: SharedMemory)
    requires mem.Valid() && mem.LaidOut()
    ensures Arises(mem.v, mem.pools)
  {
  }

  predicate BothApart(lay: Layout, p: int, q: int) {
    0 <= p && 0 <= q && RequestApart(lay, p, q) && RequestApart(lay, q, p)
  }

  /**
   Two requests allocated one after the other, through whichever views, share no byte, and neither
   touches the word of the other's page.
   */
  method AllocTwo(a: ShmemAllocator, b: ShmemAllocator, core: nat, other: nat)
    returns (x: Option<int>, y: Option<int>, ghost p: int, ghost q: int)
    requires a.mem == b.mem && a.mem.Valid() && a.mem.LaidOut() && a.Attached() && b.Attached()
    requires a.z == b.z == a.mem.lay.z && a.mem.lay.Count() <= Window(a.mem.lay.Depth())
    requires a.mem.lay.requestUnit + a.z.entry < WRAP
    modifies a.mem`rings, a.mem`coreOf, a.mem`pools
    ensures a.mem.Valid()
    ensures x.Some? ==> x.value == a.base + p + a.z.entry
    ensures y.Some? ==> y.value == b.base + q + b.z.entry
    ensures x.Some? && y.Some? ==> BothApart(a.mem.lay, p, q)
  {
    ghost var c, e, w := 0, 0, a.mem.pools;
    x, c, p := AllocPage(a, core);
    ghost var w' := a.mem.pools;
    Arose(a.mem);
    y, e, q := AllocPage(b, other);
    Arose(a.mem);
    if x.Some? && y.Some? {
      SecondIsAnother(a.mem.lay, a.mem.v, w, w', a.mem.pools, c, p, e, q);
    }
  }

  /** What two pools, or one, hand out one after the other. */
  lemma SecondIsAnother(lay: Layout, v: View, w: Pools, w': Pools, w'': Pools, c: nat, p: int, e: nat, q: int)
    requires Exact(lay) && v == ViewOf(lay) && lay.Count() <= Window(lay.Depth()) && lay.requestUnit + lay.z.entry < WRAP
    requires Arises(v, w') && Arises(v, w'') && HandsOut(v, w, w', c, p) && HandsOut(v, w', w'', e, q)
    ensures BothApart(lay, p, q)
  {
    ArisesSane(v, w');
    assert Counted(v.at, v.all[e], w'[e]) && q in v.all[e];
    AllDistinct(lay, e);
    DepthFits(lay);
    CountFits(lay);
    SeparateInWindow(lay.Depth(), lay.Count());
    PagePools.Conserved(v, w', e);
    assert p in w'[c].live && q !in w'[e].live;
    assert q in w''[e].live && p in w''[c].live;
    LivePagesApart(lay, w'', c, p, e, q);
    LivePagesApart(lay, w'', e, q, c, p);
  }

  /**
   A page allocated through one process's view and freed through another's, at the address it has
   there, goes back to the ring it came from.
   */
  method AllocHereFreeThere(here: ShmemAllocator, there: ShmemAllocator, core: nat)
    returns (data: Option<int>, ghost c: nat, ghost x: int)
    requires here.mem == there.mem && here.mem.Valid() && here.Attached() && there.Attached() && here.z == there.z
    modifies here.mem`rings, here.mem`coreOf, here.mem`pools
    ensures data.None? ==> here.mem.Valid() && here.mem.pools == old(here.mem.pools)
    ensures data.Some? ==> data.value == here.base + x + here.z.entry
    ensures data.Some? && c < CORES ==>
              && here.mem.Valid()
              && RoundTrip(here.mem.v, old(here.mem.pools), here.mem.pools, c, x)
  {
    ghost var w := here.mem.pools;
    data, c, x := AllocPage(here, core);
    if data.Some? {
      ghost var w' := here.mem.pools;
      var tries, at := there.Free(data.value - here.base + there.base, c);
      if c < CORES {
        OutAndBack(here.mem.v, w, w', here.mem.pools, c, x);
      }
    }
  }

  lemma OutAndBack(v: View, w: Pools, w': Pools, w'': Pools, c: nat, x: int)
    requires HandsOut(v, w, w', c, x) && Frees(v, w', w'', c, x)
    ensures RoundTrip(v, w, w'', c, x)
  {
  }

  /** The page was enqueued to the ring of core c. */
  ghost predicate Enqueued(places: seq<nat>, rings: map<nat, Ring<int>>, rings': map<nat, Ring<int>>, c: nat, page: int) {
    && c < |places| && places[c] in rings && rings[places[c]].WellFormed()
    && rings' == rings[places[c] := Step(rings[places[c]], Enqueue(page)).0]
  }

  /** The oldest page x of pool c went out and came back; no other pool and no live page changed. */
  ghost predicate RoundTrip(v: View, w: Pools, w': Pools, c: nat, x: int) {
    && c < |w| && w[c].Shaped(v.at) && w[c].taken < w[c].sent && x == w[c].Item(v.at, w[c].taken)
    && |w'| == |w| && w' == w[c := w'[c]] && w'[c].live == w[c].live
    && w'[c].taken == w[c].taken + 1 && w'[c].sent == w[c].sent + 1
    && w'[c].slots == w[c].slots[v.at.slot(w[c].sent) := x]
  }
}
