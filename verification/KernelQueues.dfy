/**
 Carving the kernel's shared region: the front goes to the page allocator, the back to the queue
 pairs, which an unchecked bump allocator places one after the other. All sizes are 32-bit.
 */
module KernelQueues {
  import opened Words
  import opened Wrappers
  import opened PageLayout

  datatype Result<T> = Ok(value: T) | NotEnoughRequestMemory

  const KB: nat := 1024

  /** sizeof of the queue pair, the headers in front of ring and map, and one offset. */
  datatype Sizes = Sizes(pair: nat, queueHeader: nat, ringHeader: nat, mapHeader: nat, offset: nat) {
    predicate Valid() {
      0 < pair < WRAP && queueHeader < WRAP && ringHeader < WRAP && mapHeader < WRAP && 0 < offset
    }

    function RingSize(depth: nat): (n: nat) { (ringHeader + offset * depth) % WRAP }

    function QueueSize(depth: nat): (n: nat) { (queueHeader + RingSize(depth)) % WRAP }

    function MapSize(buckets: nat): (n: nat) { (mapHeader + offset * buckets) % WRAP }

    /** The bytes one queue pair takes from the bump allocator. */
    function Bytes(depth: nat): (n: nat) { pair + QueueSize(depth) + MapSize(depth) }

    function PairSize(depth: nat): (n: nat) { Bytes(depth) % WRAP }
  }

  datatype MemoryConfig = MemoryConfig(
    regionSize: nat, requestUnit: nat, minRequestRegion: nat, queueDepth: nat, numQueues: nat,
    queueRegionSize: nat, requestRegionSize: nat, requestQueueSize: nat, requestMapSize: nat)

  function LoadMemoryConfig(
      z: Sizes, regionKb: nat, requestUnit: nat, minRequestKb: nat, depth: nat, queues: nat): (r: Result<MemoryConfig>)
    ensures r.Ok? ==> r.value.requestRegionSize + r.value.queueRegionSize == r.value.regionSize < WRAP
    ensures r.Ok? ==> r.value.minRequestRegion <= r.value.requestRegionSize
  {
    var region, minimum := (regionKb * KB) % WRAP, (minRequestKb * KB) % WRAP;
    var queueRegion := (queues * z.PairSize(depth)) % WRAP;
    var requestRegion := (region - queueRegion) % WRAP;
    if region <= queueRegion then NotEnoughRequestMemory
    else if requestRegion < minimum then NotEnoughRequestMemory
    else Ok(MemoryConfig(region, requestUnit, minimum, depth, queues, queueRegion, requestRegion,
                         z.QueueSize(depth), z.MapSize(depth)))
  }

  /** What is loaded and refused, with every product and sum taken modulo 2^32. */
  lemma LoadIff(z: Sizes, regionKb: nat, requestUnit: nat, minRequestKb: nat, depth: nat, queues: nat)
    ensures var r := LoadMemoryConfig(z, regionKb, requestUnit, minRequestKb, depth, queues);
            var region, need, minimum := (KB * regionKb) % WRAP, (queues * z.Bytes(depth)) % WRAP, (KB * minRequestKb) % WRAP;
            && (r.Ok? <==> need < region && minimum <= region - need)
            && (r.Ok? ==> r.value == MemoryConfig(region, requestUnit, minimum, depth, queues, need, region - need,
                                                  z.QueueSize(depth), z.MapSize(depth)))
  {
    MulMod(queues, z.Bytes(depth));
  }

  /**
   A configuration is loaded and means what was configured, without overflow, exactly when the
   queues and the minimum for requests fit a region of less than 2^32 bytes.
   */
  lemma LoadsExactlyIff(z: Sizes, regionKb: nat, requestUnit: nat, minRequestKb: nat, depth: nat, queues: nat)
    ensures var r := LoadMemoryConfig(z, regionKb, requestUnit, minRequestKb, depth, queues);
            (&& r.Ok? && r.value.regionSize == 1024 * regionKb && r.value.minRequestRegion == 1024 * minRequestKb
             && r.value.queueRegionSize == queues * z.Bytes(depth)
             && r.value.requestRegionSize == 1024 * regionKb - queues * z.Bytes(depth))
            <==> queues * z.Bytes(depth) < 1024 * regionKb < WRAP
                 && queues * z.Bytes(depth) + 1024 * minRequestKb <= 1024 * regionKb
  {
    LoadIff(z, regionKb, requestUnit, minRequestKb, depth, queues);
    var need := queues * z.Bytes(depth);
    if need < 1024 * regionKb < WRAP && need + 1024 * minRequestKb <= 1024 * regionKb {
      SmallIsItself(need);
      SmallIsItself(1024 * minRequestKb);
    }
  }

  /** Absent overflow, a configuration is refused exactly when it does not fit. */
  lemma RefusedIffTooSmall(z: Sizes, regionKb: nat, requestUnit: nat, minRequestKb: nat, depth: nat, queues: nat)
    requires 1024 * regionKb < WRAP && 1024 * minRequestKb < WRAP && queues * z.Bytes(depth) < WRAP
    ensures LoadMemoryConfig(z, regionKb, requestUnit, minRequestKb, depth, queues).NotEnoughRequestMemory?
       <==> 1024 * regionKb <= queues * z.Bytes(depth) || 1024 * regionKb < queues * z.Bytes(depth) + 1024 * minRequestKb
  {
    LoadIff(z, regionKb, requestUnit, minRequestKb, depth, queues);
    SmallIsItself(queues * z.Bytes(depth));
    SmallIsItself(1024 * regionKb);
    SmallIsItself(1024 * minRequestKb);
  }

  /** The configuration came out of LoadMemoryConfig. */
  ghost predicate Loaded(z: Sizes, conf: MemoryConfig) {
    z.Valid() && exists regionKb, minRequestKb ::
      LoadMemoryConfig(z, regionKb, conf.requestUnit, minRequestKb, conf.queueDepth, conf.numQueues) == Ok(conf)
  }

  // --- The bump allocator -------------------------------------------------------------------

  class SegmentAllocator {
    const region: nat
    const maxSize: nat
    var offset: nat

    constructor (region: nat, size: nat)
      ensures this.region == region && maxSize == size && offset == 0
    {
      this.region, maxSize, offset := region, size, 0;
    }

    method Alloc(size: nat) returns (start: nat)
      modifies this
      ensures start == region + old(offset)
      ensures offset == (old(offset) + size) % WRAP
    {
      start := region + offset;
      offset := (offset + size) % WRAP;
    }
  }

  /** The depth a ring derives from its region, or None when Init refuses the region. */
  function DerivedDepth(z: Sizes, regionSize: nat): (d: Option<nat>)
    requires z.Valid()
  {
    var ring := (regionSize - z.queueHeader) % WRAP;
    if ring < z.ringHeader || (ring - z.ringHeader) / z.offset == 0 then None
    else Some((ring - z.ringHeader) / z.offset)
  }

  function DerivedBuckets(z: Sizes, regionSize: nat): (n: Option<nat>)
    requires z.Valid()
  {
    if regionSize < z.mapHeader || (regionSize - z.mapHeader) / z.offset == 0 then None
    else Some((regionSize - z.mapHeader) / z.offset)
  }

  datatype QueueAt = QueueAt(pair: nat, sq: nat, cq: nat)

  /** A queue whose first byte is the at-th one ever allocated. */
  function PlacedAt(z: Sizes, depth: nat, at: nat): (q: QueueAt) {
    QueueAt(at % WRAP, (at + z.pair) % WRAP, (at + z.pair + z.QueueSize(depth)) % WRAP)
  }

  /** Where queue i ends up in the queue region. */
  function Placed(z: Sizes, depth: nat, i: nat): (q: QueueAt) {
    PlacedAt(z, depth, i * z.Bytes(depth))
  }

  function Shifted(q: QueueAt, region: nat): (r: QueueAt) {
    QueueAt(region + q.pair, region + q.sq, region + q.cq)
  }

  /** One turn of the loop: descriptor, ring and map. */
  method AllocQueue(z: Sizes, conf: MemoryConfig, alloc: SegmentAllocator, ghost at: nat) returns (q: QueueAt)
    requires conf.requestQueueSize == z.QueueSize(conf.queueDepth) && conf.requestMapSize == z.MapSize(conf.queueDepth)
    requires alloc.offset == at % WRAP
    modifies alloc
    ensures q == Shifted(PlacedAt(z, conf.queueDepth, at), alloc.region)
    ensures alloc.offset == (at + z.Bytes(conf.queueDepth)) % WRAP
  {
    Advance(at, z.pair, conf.requestQueueSize, conf.requestMapSize);
    var pair := alloc.Alloc(z.pair);
    var sq := alloc.Alloc(conf.requestQueueSize);
    var cq := alloc.Alloc(conf.requestMapSize);
    q := QueueAt(pair, sq, cq);
  }

  method CreateKernelQueues(z: Sizes, conf: MemoryConfig, alloc: SegmentAllocator) returns (queues: seq<QueueAt>)
    requires Loaded(z, conf)
    requires alloc.offset == 0 && alloc.region == conf.requestRegionSize && alloc.maxSize == conf.queueRegionSize
    modifies alloc
    ensures |queues| == conf.numQueues
    ensures forall i: nat :: i < conf.numQueues ==> queues[i] == Shifted(Placed(z, conf.queueDepth, i), alloc.region)
    ensures alloc.offset == conf.queueRegionSize
  {
    RegionIsNeed(z, conf);
    ghost var at: nat := 0;
    queues := [];
    for i := 0 to conf.numQueues
      invariant |queues| == i && at == i * z.Bytes(conf.queueDepth) && alloc.offset == at % WRAP
      invariant forall k: nat :: k < i ==> queues[k] == Shifted(Placed(z, conf.queueDepth, k), alloc.region)
    {
      var q := AllocQueue(z, conf, alloc, at);
      queues := queues + [q];
      NextMultiple(i, z.Bytes(conf.queueDepth));
      at := at + z.Bytes(conf.queueDepth);
    }
  }

  lemma NextMultiple(i: nat, n: nat)
    ensures (i + 1) * n == i * n + n
  {
  }

  lemma Advance(at: nat, a: nat, b: nat, c: nat)
    ensures (at % WRAP + a) % WRAP == (at + a) % WRAP
    ensures ((at + a) % WRAP + b) % WRAP == (at + a + b) % WRAP
    ensures ((at + a + b) % WRAP + c) % WRAP == (at + a + b + c) % WRAP
  {
    CountAdd(at, a);
    CountAdd(at + a, b);
    CountAdd(at + a + b, c);
  }

  lemma {:induction false} MulMod(n: nat, b: nat)
    ensures (n * (b % WRAP)) % WRAP == (n * b) % WRAP
    decreases n
  {
    if n > 0 {
      MulMod(n - 1, b);
      var x, y := (n - 1) * (b % WRAP), (n - 1) * b;
      assert n * (b % WRAP) == x + b % WRAP && n * b == y + b;
      CountAdd(x, b % WRAP);
      CountAdd(b, y);
      CountAdd(y, b % WRAP);
    }
  }

  /** The queue region has the bytes the queues need, modulo 2^32. */
  lemma RegionIsNeed(z: Sizes, conf: MemoryConfig)
    requires Loaded(z, conf)
    ensures conf.queueRegionSize == (conf.numQueues * z.Bytes(conf.queueDepth)) % WRAP
    ensures conf.requestQueueSize == z.QueueSize(conf.queueDepth) && conf.requestMapSize == z.MapSize(conf.queueDepth)
  {
    MulMod(conf.numQueues, z.Bytes(conf.queueDepth));
  }

  // --- Inside the region, and apart -----------------------------------------------------------

  /** Part 0 of a queue is its descriptor, part 1 its ring, part 2 its completion map. */
  function StartIn(q: QueueAt, part: nat): (off: nat) {
    if part == 0 then q.pair else if part == 1 then q.sq else q.cq
  }

  function PartStart(z: Sizes, depth: nat, i: nat, part: nat): (off: nat) {
    StartIn(Placed(z, depth, i), part)
  }

  /** The sizes of the three parts of a queue. */
  datatype Parts = Parts(pair: nat, queue: nat, bucketMap: nat) {
    function Bytes(): (n: nat) { pair + queue + bucketMap }

    function Size(part: nat): (n: nat) {
      if part == 0 then pair else if part == 1 then queue else bucketMap
    }

    function Before(part: nat): (n: nat) {
      if part == 0 then 0 else if part == 1 then pair else pair + queue
    }
  }

  function PartsOf(z: Sizes, depth: nat): (p: Parts) {
    Parts(z.pair, z.QueueSize(depth), z.MapSize(depth))
  }

  function PartSize(z: Sizes, depth: nat, part: nat): (n: nat) {
    PartsOf(z, depth).Size(part)
  }

  ghost predicate QueuesInside(z: Sizes, conf: MemoryConfig) {
    forall i: nat, part: nat :: i < conf.numQueues && part < 3 ==>
      PartStart(z, conf.queueDepth, i, part) + PartSize(z, conf.queueDepth, part) <= conf.queueRegionSize
  }

  function Need(z: Sizes, conf: MemoryConfig): (n: nat) {
    conf.numQueues * z.Bytes(conf.queueDepth)
  }

  /** Bytes of the parts in front of this one. */
  function Ahead(z: Sizes, depth: nat, part: nat): (n: nat)
    ensures part < 3 ==> n + PartSize(z, depth, part) <= z.Bytes(depth)
  {
    PartsOf(z, depth).Before(part)
  }

  lemma StartsAt(z: Sizes, depth: nat, at: nat, part: nat)
    requires at + Ahead(z, depth, part) < WRAP && part < 3
    ensures StartIn(PlacedAt(z, depth, at), part) == at + Ahead(z, depth, part)
  {
  }

  lemma Fits(i: nat, n: nat, bytes: nat)
    requires i < n
    ensures i * bytes + bytes <= n * bytes
  {
    MulStep(i, n, bytes);
  }

  lemma PartWithin(z: Sizes, conf: MemoryConfig, i: nat, part: nat)
    requires z.Valid() && Need(z, conf) < WRAP && i < conf.numQueues && part < 3
    ensures PartStart(z, conf.queueDepth, i, part) == i * z.Bytes(conf.queueDepth) + Ahead(z, conf.queueDepth, part)
    ensures PartStart(z, conf.queueDepth, i, part) + PartSize(z, conf.queueDepth, part) <= Need(z, conf)
  {
    Fits(i, conf.numQueues, z.Bytes(conf.queueDepth));
    StartsAt(z, conf.queueDepth, i * z.Bytes(conf.queueDepth), part);
  }

  /** The part that covers the byte at this distance into a queue. */
  lemma PartCovering(z: Sizes, depth: nat, at: nat, rest: nat) returns (part: nat)
    requires rest < z.Bytes(depth) && at + rest < WRAP
    ensures part < 3 && at + rest < StartIn(PlacedAt(z, depth, at), part) + PartSize(z, depth, part)
  {
    part := if rest < z.pair then 0 else if rest < z.pair + z.QueueSize(depth) then 1 else 2;
    StartsAt(z, depth, at, part);
  }

  lemma QueueCovering(limit: nat, n: nat, bytes: nat) returns (i: nat)
    requires 0 < bytes && limit < n * bytes
    ensures i < n && i * bytes <= limit < i * bytes + bytes
  {
    i := limit / bytes;
    assert limit == i * bytes + limit % bytes;
    MulAtMost(n, if n <= i then i else n, bytes);
  }

  /** Some part of some queue reaches past the limit when the 32-bit product overflowed. */
  lemma PastTheLimit(z: Sizes, conf: MemoryConfig)
    requires Loaded(z, conf) && WRAP <= Need(z, conf)
    ensures !QueuesInside(z, conf)
  {
    RegionIsNeed(z, conf);
    var i, part := PartPast(z, conf.queueDepth, conf.numQueues, conf.queueRegionSize);
    assert conf.queueRegionSize < PartStart(z, conf.queueDepth, i, part) + PartSize(z, conf.queueDepth, part);
  }

  lemma PartPast(z: Sizes, depth: nat, n: nat, limit: nat) returns (i: nat, part: nat)
    requires z.Valid() && limit < WRAP && limit < n * z.Bytes(depth)
    ensures i < n && part < 3 && limit < PartStart(z, depth, i, part) + PartSize(z, depth, part)
  {
    i := QueueCovering(limit, n, z.Bytes(depth));
    part := PartCovering(z, depth, i * z.Bytes(depth), limit - i * z.Bytes(depth));
  }

  lemma MulAtMost(a: nat, b: nat, d: nat)
    requires a <= b
    ensures a * d <= b * d
  {
    MulStep(a, b, d);
  }

  lemma InsideWhenFits(z: Sizes, conf: MemoryConfig)
    requires z.Valid() && Need(z, conf) == conf.queueRegionSize < WRAP
    ensures QueuesInside(z, conf)
  {
    forall i: nat, part: nat | i < conf.numQueues && part < 3
      ensures PartStart(z, conf.queueDepth, i, part) + PartSize(z, conf.queueDepth, part) <= conf.queueRegionSize
    {
      PartWithin(z, conf, i, part);
    }
  }

  lemma SmallIsItself(n: nat)
    requires n < WRAP
    ensures n % WRAP == n
  {
  }

  /** The unchecked allocator stays inside its region exactly when the 32-bit product does not overflow. */
  lemma InsideIff(z: Sizes, conf: MemoryConfig)
    requires Loaded(z, conf)
    ensures QueuesInside(z, conf) <==> Need(z, conf) < WRAP
    ensures Need(z, conf) < WRAP ==> Need(z, conf) == conf.queueRegionSize
  {
    RegionIsNeed(z, conf);
    if Need(z, conf) < WRAP {
      SmallIsItself(Need(z, conf));
      InsideWhenFits(z, conf);
    } else {
      PastTheLimit(z, conf);
    }
  }

  /** Descriptors, rings and maps of all queues are pairwise disjoint. */
  ghost predicate QueuesDisjoint(z: Sizes, conf: MemoryConfig) {
    forall i: nat, part: nat, k: nat, other: nat ::
      i < conf.numQueues && k < conf.numQueues && part < 3 && other < 3 && (i, part) != (k, other) ==>
        PartsApart(z, conf.queueDepth, i, part, k, other)
  }

  ghost predicate PartsApart(z: Sizes, depth: nat, i: nat, part: nat, k: nat, other: nat) {
    Apart(PartStart(z, depth, i, part), PartSize(z, depth, part), PartStart(z, depth, k, other), PartSize(z, depth, other))
  }

  /** The byte, of all ever allocated, at which the last part of the last queue starts. */
  function LastStart(z: Sizes, conf: MemoryConfig): (n: int) {
    Need(z, conf) - z.MapSize(conf.queueDepth)
  }

  lemma PartUnwrapped(z: Sizes, conf: MemoryConfig, i: nat, part: nat)
    requires i < conf.numQueues && part < 3 && LastStart(z, conf) < WRAP
    ensures PartStart(z, conf.queueDepth, i, part) == i * z.Bytes(conf.queueDepth) + Ahead(z, conf.queueDepth, part)
  {
    Fits(i, conf.numQueues, z.Bytes(conf.queueDepth));
    StartsAt(z, conf.queueDepth, i * z.Bytes(conf.queueDepth), part);
  }

  lemma UnwrappedApart(z: Sizes, conf: MemoryConfig, i: nat, part: nat, k: nat, other: nat)
    requires LastStart(z, conf) < WRAP
    requires i < conf.numQueues && k < conf.numQueues && part < 3 && other < 3 && (i, part) != (k, other)
    ensures PartsApart(z, conf.queueDepth, i, part, k, other)
  {
    PartUnwrapped(z, conf, i, part);
    PartUnwrapped(z, conf, k, other);
    if i < k {
      Fits(i, k, z.Bytes(conf.queueDepth));
    } else if k < i {
      Fits(k, i, z.Bytes(conf.queueDepth));
    }
  }

  /** The part that covers the n-th byte ever allocated; `at` is where its queue starts. */
  lemma PartAt(p: Parts, queues: nat, n: nat) returns (i: nat, part: nat, at: nat)
    requires 0 < p.Bytes() && n < queues * p.Bytes()
    ensures i < queues && part < 3 && at == i * p.Bytes()
    ensures at + p.Before(part) <= n < at + p.Before(part) + p.Size(part)
  {
    i := QueueCovering(n, queues, p.Bytes());
    at := i * p.Bytes();
    var rest := n - at;
    part := if rest < p.pair then 0 else if rest < p.pair + p.queue then 1 else 2;
  }

  /** A part that starts at or after 2^32 when all bytes are counted. */
  lemma FirstWrapped(p: Parts, queues: nat) returns (i: nat, part: nat, at: nat)
    requires 0 < p.pair && 0 < p.queue && 0 < p.bucketMap && WRAP <= queues * p.Bytes() - p.bucketMap
    requires p.pair < WRAP && p.queue < WRAP && p.bucketMap < WRAP
    ensures i < queues && part < 3 && at == i * p.Bytes() && WRAP <= at + p.Before(part) < 2 * WRAP
  {
    i, part, at := PartAt(p, queues, WRAP - 1);
    if part < 2 {
      part := part + 1;
    } else {
      NextMultiple(i, p.Bytes());
      if queues == i + 1 {
        assert false;
      }
      i, part, at := i + 1, 0, at + p.Bytes();
    }
  }

  /** Two different parts of which the first, wrapped, starts inside the second. */
  lemma Collision(p: Parts, queues: nat)
    returns (i: nat, part: nat, at: nat, k: nat, other: nat, before: nat)
    requires 0 < p.pair && 0 < p.queue && 0 < p.bucketMap && WRAP <= queues * p.Bytes() - p.bucketMap
    requires p.pair < WRAP && p.queue < WRAP && p.bucketMap < WRAP
    ensures i < queues && k < queues && part < 3 && other < 3 && (i, part) != (k, other)
    ensures at == i * p.Bytes() && before == k * p.Bytes() && WRAP <= at + p.Before(part) < 2 * WRAP
    ensures before + p.Before(other) <= at + p.Before(part) - WRAP < before + p.Before(other) + p.Size(other)
  {
    i, part, at := FirstWrapped(p, queues);
    Fits(i, queues, p.Bytes());
    k, other, before := PartAt(p, queues, at + p.Before(part) - WRAP);
  }

  /** So some part lands on one that was placed before the wrap. */
  lemma WrappedOverlaps(z: Sizes, conf: MemoryConfig)
    requires z.Valid() && WRAP <= LastStart(z, conf)
    requires 0 < z.QueueSize(conf.queueDepth) && 0 < z.MapSize(conf.queueDepth)
    ensures !QueuesDisjoint(z, conf)
  {
    var depth := conf.queueDepth;
    var i, part, at, k, other, before := Collision(PartsOf(z, depth), conf.numQueues);
    LandsOn(z, depth, at, part, before, other);
    NotDisjoint(z, conf, i, part, k, other);
  }

  lemma NotDisjoint(z: Sizes, conf: MemoryConfig, i: nat, part: nat, k: nat, other: nat)
    requires i < conf.numQueues && k < conf.numQueues && part < 3 && other < 3 && (i, part) != (k, other)
    requires !PartsApart(z, conf.queueDepth, i, part, k, other)
    ensures !QueuesDisjoint(z, conf)
  {
  }

  lemma LandsOn(z: Sizes, depth: nat, at: nat, part: nat, before: nat, other: nat)
    requires part < 3 && other < 3 && 0 < PartSize(z, depth, part)
    requires WRAP <= at + Ahead(z, depth, part) < 2 * WRAP
    requires before + Ahead(z, depth, other) <= at + Ahead(z, depth, part) - WRAP
    requires at + Ahead(z, depth, part) - WRAP < before + Ahead(z, depth, other) + PartSize(z, depth, other)
    ensures !Apart(StartIn(PlacedAt(z, depth, at), part), PartSize(z, depth, part),
                   StartIn(PlacedAt(z, depth, before), other), PartSize(z, depth, other))
  {
    WrappedStart(z, depth, at, part);
    StartsAt(z, depth, before, other);
  }

  lemma WrappedStart(z: Sizes, depth: nat, at: nat, part: nat)
    requires WRAP <= at + Ahead(z, depth, part) < 2 * WRAP && part < 3
    ensures StartIn(PlacedAt(z, depth, at), part) == at + Ahead(z, depth, part) - WRAP
  {
    var n := at + Ahead(z, depth, part);
    DivModUnique(n, WRAP, 1, n - WRAP);
  }

  /** All parts of all queues are disjoint exactly when the last of them starts before 2^32. */
  lemma QueuesDisjointIff(z: Sizes, conf: MemoryConfig)
    requires z.Valid() && 0 < z.QueueSize(conf.queueDepth) && 0 < z.MapSize(conf.queueDepth)
    ensures QueuesDisjoint(z, conf) <==> LastStart(z, conf) < WRAP
  {
    if LastStart(z, conf) < WRAP {
      forall i: nat, part: nat, k: nat, other: nat
        | i < conf.numQueues && k < conf.numQueues && part < 3 && other < 3 && (i, part) != (k, other)
        ensures PartsApart(z, conf.queueDepth, i, part, k, other)
      {
        UnwrappedApart(z, conf, i, part, k, other);
      }
    } else {
      WrappedOverlaps(z, conf);
    }
  }

  /** An accepted configuration whose queues overrun their region and each other: 65537 of 65536 bytes. */
  lemma OverflowIsAccepted()
    ensures exists z, conf :: Loaded(z, conf) && !QueuesInside(z, conf) && !QueuesDisjoint(z, conf)
  {
    var z, conf := ManyQueues();
    InsideIff(z, conf);
    QueuesDisjointIff(z, conf);
  }

  lemma ManyQueues() returns (z: Sizes, conf: MemoryConfig)
    ensures Loaded(z, conf) && WRAP <= Need(z, conf) && WRAP <= LastStart(z, conf)
    ensures 0 < z.QueueSize(conf.queueDepth) && 0 < z.MapSize(conf.queueDepth)
  {
    z := Sizes(104, 16, 12, 4, 4);
    var r := LoadMemoryConfig(z, 1024, 4096, 0, 8175, 65537);
    assert z.Bytes(8175) == 65536 && z.MapSize(8175) == 32704;
    assert r.Ok? && r.value.queueRegionSize == 65536 && r.value.requestUnit == 4096;
    conf := r.value;
  }

  /** Ring and map of a queue derive the same capacity from their regions, even after overflow. */
  lemma DepthIsBuckets(z: Sizes, depth: nat)
    requires z.Valid()
    ensures var d, n := DerivedDepth(z, z.QueueSize(depth)), DerivedBuckets(z, z.MapSize(depth));
            && (d.Some? && n.Some? ==> d == n)
            && (d.Some? && n.Some? && z.offset * depth < WRAP ==> d.value == depth)
  {
    var x := z.offset * depth;
    SubtractBack(z.queueHeader, z.RingSize(depth));
    AddThenTake(z.ringHeader, x);
    AddThenTake(z.mapHeader, x);
    ExactQuotient(z.offset, depth);
  }

  /** Absent overflow, a region of GetSize bytes is accepted and has room for exactly that depth. */
  lemma SizeGivesDepth(z: Sizes, depth: nat)
    requires z.Valid() && 0 < depth
    requires z.queueHeader + z.ringHeader + z.offset * depth < WRAP && z.mapHeader + z.offset * depth < WRAP
    ensures DerivedDepth(z, z.QueueSize(depth)) == Some(depth) == DerivedBuckets(z, z.MapSize(depth))
  {
    DivModUnique(z.offset * depth, z.offset, depth, 0);
    assert z.QueueSize(depth) - z.queueHeader == z.ringHeader + z.offset * depth;
  }

  /** And no smaller region has, down to one that does not hold the header. */
  lemma QueueSizeIsSmallest(z: Sizes, depth: nat, n: nat)
    requires z.Valid() && z.queueHeader + z.ringHeader + z.offset * depth < WRAP && z.queueHeader <= n < z.QueueSize(depth)
    ensures DerivedDepth(z, n).None? || DerivedDepth(z, n).value < depth
  {
    var ring := n - z.queueHeader;
    SmallIsItself(ring);
    if z.ringHeader <= ring {
      LessThanMultiple(ring - z.ringHeader, z.offset, depth);
    }
  }

  lemma MapSizeIsSmallest(z: Sizes, depth: nat, n: nat)
    requires z.Valid() && z.mapHeader + z.offset * depth < WRAP && n < z.MapSize(depth)
    ensures DerivedBuckets(z, n).None? || DerivedBuckets(z, n).value < depth
  {
    if z.mapHeader <= n {
      LessThanMultiple(n - z.mapHeader, z.offset, depth);
    }
  }

  lemma LessThanMultiple(x: nat, d: nat, n: nat)
    requires 0 < d && x < d * n
    ensures x / d < n
  {
    MulStep(n - 1, x / d, d);
  }

  lemma ExactQuotient(d: nat, n: nat)
    requires 0 < d
    ensures d * n < WRAP ==> ((d * n) % WRAP) / d == n
  {
    DivModUnique(d * n, d, n, 0);
  }

  lemma SubtractBack(h: nat, y: nat)
    requires h < WRAP && y < WRAP
    ensures ((h + y) % WRAP - h) % WRAP == y
  {
  }

  lemma AddThenTake(h: nat, x: nat)
    requires h < WRAP
    ensures h <= (h + x) % WRAP ==> (h + x) % WRAP - h == x % WRAP
  {
    CountAdd(x, h);
  }

  // --- Beside the page allocator ----------------------------------------------------------------

  /** No page of the request allocator shares a byte with any part of any queue. */
  ghost predicate PagesMissQueues(z: Sizes, conf: MemoryConfig, lay: Layout)
    requires lay.Accepted()
  {
    forall i: nat, j: nat, k: nat, part: nat :: lay.IsPage(i, j) && k < conf.numQueues && part < 3 ==>
      Apart(lay.Page(i, j), lay.Unit(),
            conf.requestRegionSize + PartStart(z, conf.queueDepth, k, part), PartSize(z, conf.queueDepth, part))
  }

  /**
   The page allocator gets the front of the region and the queues the back. They are disjoint
   exactly when the allocator's rounding losses cover its own header; otherwise the last page
   runs into the first queue.
   */
  lemma PagesMissQueuesIff(z: Sizes, conf: MemoryConfig, lay: Layout)
    requires Loaded(z, conf) && 0 < conf.numQueues
    requires lay.Accepted() && 0 < lay.Count() && lay.start == 0 && lay.regionSize == conf.requestRegionSize
    requires lay.z.header <= z.pair
    ensures PagesMissQueues(z, conf, lay) <==> lay.z.header <= lay.Slack() + lay.regionSize % lay.cores
  {
    PageLayout.InsideIff(lay);
    if lay.z.header <= lay.Slack() + lay.regionSize % lay.cores {
      assert AllInside(lay);
      forall i: nat, j: nat, k: nat, part: nat | lay.IsPage(i, j) && k < conf.numQueues && part < 3
        ensures Apart(lay.Page(i, j), lay.Unit(),
                      conf.requestRegionSize + PartStart(z, conf.queueDepth, k, part), PartSize(z, conf.queueDepth, part))
      {
        assert lay.Page(i, j) + lay.Unit() <= lay.regionSize;
      }
    } else {
      LastPageEnds(lay);
      StartsAt(z, conf.queueDepth, 0, 0);
      var i, j := lay.cores - 1, lay.Count() - 1;
      assert lay.IsPage(i, j) && PartStart(z, conf.queueDepth, 0, 0) == 0;
      assert !Apart(lay.Page(i, j), lay.Unit(), conf.requestRegionSize + PartStart(z, conf.queueDepth, 0, 0),
                    PartSize(z, conf.queueDepth, 0));
    }
  }

  /** One queue of 1024 bytes in a region of 1025 KB, and 4 cores whose pages fill theirs exactly. */
  lemma OverlappingRegion()
    ensures exists z, conf, lay: Layout ::
              && Loaded(z, conf) && lay.Accepted() && lay.start == 0 && lay.regionSize == conf.requestRegionSize
              && lay.requestUnit == conf.requestUnit && !PagesMissQueues(z, conf, lay)
  {
    var z := Sizes(96, 24, 12, 4, 4);
    var r := LoadMemoryConfig(z, 1025, 66, 0, 111, 1);
    assert z.Bytes(111) == 1024;
    assert r.Ok? && r.value.requestRegionSize == 1048576 && r.value.requestUnit == 66;
    assert Loaded(z, r.value);
    var lay := FullPages();
    PagesMissQueuesIff(z, r.value, lay);
  }
}
