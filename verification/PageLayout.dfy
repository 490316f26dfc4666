/**
 Where the page allocator puts its pages: a header, then one region per core, each with its own
 header, a ring of offsets, and as many pages as fit behind the ring.
 */
module PageLayout {
  import opened Words

  /** sizeof of the allocator header, a core's header, the ring header, a ring entry, and a page's own word. */
  datatype PageSizes = PageSizes(header: nat, coreHeader: nat, ringHeader: nat, offset: nat, entry: nat)

  /** The arguments of Init. `start` is the offset of the region from the base of the mapping. */
  datatype Layout = Layout(z: PageSizes, start: nat, regionSize: nat, requestUnit: nat, cores: nat)
  {
    function Unit(): (u: nat) { (requestUnit + z.entry) % WRAP }

    function PerCore(): (p: nat)
      requires 0 < cores
    {
      regionSize / cores
    }

    function CoreStart(i: nat): (off: nat)
      requires 0 < cores
    {
      start + z.header + i * PerCore()
    }

    /** Entries of the ring: one per page the region could hold, or all that fit if that is none. */
    function Depth(): (d: nat)
      requires 0 < cores && 0 < Unit() && 0 < z.offset && z.coreHeader + z.ringHeader <= PerCore()
    {
      if PerCore() / Unit() == 0 then (PerCore() - z.coreHeader - z.ringHeader) / z.offset
      else PerCore() / Unit()
    }

    /** Bytes the ring takes up, and the 32-bit size it says it has. */
    function RingBytes(): (b: nat)
      requires 0 < cores && 0 < Unit() && 0 < z.offset && z.coreHeader + z.ringHeader <= PerCore()
    {
      z.ringHeader + z.offset * Depth()
    }

    function RingSize(): (b: nat)
      requires 0 < cores && 0 < Unit() && 0 < z.offset && z.coreHeader + z.ringHeader <= PerCore()
    {
      RingBytes() % WRAP
    }

    /** Init accepts the region of a core: the ring fits behind the core's header and has an entry. */
    predicate Accepted() {
      && regionSize < WRAP
      && 0 < cores && 0 < Unit() && 0 < z.offset && z.coreHeader + z.ringHeader <= PerCore()
      && 0 < Depth() && z.coreHeader + RingSize() <= PerCore()
    }

    /** And the size that the ring says it has is the one it has. */
    predicate Sound() { Accepted() && RingBytes() < WRAP }

    /** Bytes in front of the first page of a core. */
    function Metadata(): (b: nat)
      requires Accepted()
      ensures b <= PerCore()
    {
      z.coreHeader + RingSize()
    }

    /** Pages of each core. */
    function Count(): (n: nat)
      requires Accepted()
    {
      (PerCore() - Metadata()) / Unit()
    }

    /** Bytes behind the last page of a core. */
    function Slack(): (n: nat)
      requires Accepted()
    {
      (PerCore() - Metadata()) % Unit()
    }

    function Page(i: nat, j: nat): (off: nat)
      requires Accepted()
    {
      CoreStart(i) + Metadata() + j * Unit()
    }

    predicate IsPage(i: nat, j: nat)
      requires Accepted()
    {
      i < cores && j < Count()
    }
  }

  lemma DivAtMost(a: nat, b: nat, d: nat)
    requires 0 < d && a <= b
    ensures a / d <= b / d
  {
    MulStep(b / d, a / d, d);
  }

  /** There are never more pages than ring entries, so every Enqueue of Init succeeds. */
  lemma CountFits(lay: Layout)
    requires lay.Accepted()
    ensures lay.Count() <= lay.Depth()
  {
    DivAtMost(lay.PerCore() - lay.Metadata(), lay.PerCore(), lay.Unit());
  }

  /** A page lies inside its core's region, behind the metadata. */
  lemma PageInCore(lay: Layout, i: nat, j: nat)
    requires lay.Accepted() && lay.IsPage(i, j)
    ensures lay.CoreStart(i) + lay.Metadata() <= lay.Page(i, j)
    ensures lay.Page(i, j) + lay.Unit() <= lay.CoreStart(i) + lay.PerCore()
  {
    var room, u := lay.PerCore() - lay.Metadata(), lay.Unit();
    MulStep(j, lay.Count(), u);
    assert room == (room / u) * u + room % u;
  }

  lemma CoresApart(lay: Layout, i: nat, k: nat)
    requires lay.Accepted() && i < k
    ensures lay.CoreStart(i) + lay.PerCore() <= lay.CoreStart(k)
  {
    MulStep(i, k, lay.PerCore());
  }

  predicate Apart(a: nat, m: nat, b: nat, n: nat) {
    a + m <= b || b + n <= a
  }

  /** Different pages share no byte. */
  lemma PagesApart(lay: Layout, i: nat, j: nat, k: nat, l: nat)
    requires lay.Accepted() && lay.IsPage(i, j) && lay.IsPage(k, l) && (i, j) != (k, l)
    ensures Apart(lay.Page(i, j), lay.Unit(), lay.Page(k, l), lay.Unit())
  {
    PageInCore(lay, i, j);
    PageInCore(lay, k, l);
    if i < k {
      CoresApart(lay, i, k);
    } else if k < i {
      CoresApart(lay, k, i);
    } else {
      MulStep(j, l, lay.Unit());
      MulStep(l, j, lay.Unit());
    }
  }

  /** No page touches the allocator header or what a core's metadata is said to be. */
  lemma PagesBehindMetadata(lay: Layout, i: nat, j: nat, k: nat)
    requires lay.Accepted() && lay.IsPage(i, j) && k < lay.cores
    ensures lay.start + lay.z.header <= lay.Page(i, j)
    ensures Apart(lay.Page(i, j), lay.Unit(), lay.CoreStart(k), lay.Metadata())
  {
    PageInCore(lay, i, j);
    if i < k {
      CoresApart(lay, i, k);
    } else if k < i {
      CoresApart(lay, k, i);
    }
  }

  /** A ring has an entry for every page that its region could hold, if it could hold any. */
  lemma DepthIsMost(lay: Layout)
    requires lay.Accepted() && lay.Unit() <= lay.PerCore()
    ensures lay.Depth() * lay.Unit() <= lay.PerCore() < lay.Depth() * lay.Unit() + lay.Unit()
  {
    var p, u := lay.PerCore(), lay.Unit();
    assert p == (p / u) * u + p % u;
  }

  /** If it could hold none, the ring has all the entries that fit behind the core's header. */
  lemma RingFillsRest(lay: Layout)
    requires lay.Accepted() && lay.PerCore() < lay.Unit()
    ensures lay.Count() == 0
    ensures lay.z.coreHeader + lay.RingBytes() <= lay.PerCore() < lay.z.coreHeader + lay.RingBytes() + lay.z.offset
  {
    var p, u := lay.PerCore(), lay.Unit();
    DivModUnique(p, u, 0, p);
    DivModUnique(p - lay.Metadata(), u, 0, p - lay.Metadata());
    MostEntries(p - lay.z.coreHeader - lay.z.ringHeader, lay.z.offset);
  }

  lemma MostEntries(room: nat, size: nat)
    requires 0 < size
    ensures size * (room / size) <= room < size * (room / size) + size
  {
    assert room == (room / size) * size + room % size;
  }

  /** The pages leave no room for one more behind them. */
  lemma CountIsMost(lay: Layout)
    requires lay.Accepted()
    ensures lay.Metadata() + lay.Count() * lay.Unit() <= lay.PerCore() < lay.Metadata() + lay.Count() * lay.Unit() + lay.Unit()
  {
    var room, u := lay.PerCore() - lay.Metadata(), lay.Unit();
    assert room == (room / u) * u + room % u;
  }

  // --- The bytes of a request ----------------------------------------------------------------------

  /** The word of a page, at its front, and the request behind it. */
  predicate RequestApart(lay: Layout, x: nat, y: nat) {
    Apart(x + lay.z.entry, lay.requestUnit, y, lay.z.entry + lay.requestUnit)
  }

  /** No request touches another page's word or request. */
  ghost predicate RequestsApart(lay: Layout)
    requires lay.Accepted()
  {
    forall i: nat, j: nat, k: nat, l: nat :: lay.IsPage(i, j) && lay.IsPage(k, l) && (i, j) != (k, l) ==>
      RequestApart(lay, lay.Page(i, j), lay.Page(k, l))
  }

  /** A page holds its word and a whole request exactly when the sum of their sizes does not wrap. */
  lemma RequestFitsIff(lay: Layout)
    ensures lay.z.entry + lay.requestUnit <= lay.Unit() <==> lay.requestUnit + lay.z.entry < WRAP
  {
  }

  /** So requests are disjoint exactly then, if there are two pages at all. */
  lemma RequestsApartIff(lay: Layout)
    requires lay.Accepted() && (lay.IsPage(0, 1) || lay.IsPage(1, 0))
    ensures RequestsApart(lay) <==> lay.requestUnit + lay.z.entry < WRAP
  {
    RequestFitsIff(lay);
    if lay.requestUnit + lay.z.entry < WRAP {
      forall i: nat, j: nat, k: nat, l: nat | lay.IsPage(i, j) && lay.IsPage(k, l) && (i, j) != (k, l)
        ensures RequestApart(lay, lay.Page(i, j), lay.Page(k, l))
      {
        PagesApart(lay, i, j, k, l);
      }
    } else {
      var k, l := if lay.IsPage(0, 1) then 0 else 1, if lay.IsPage(0, 1) then 1 else 0;
      assert lay.IsPage(0, 0) && lay.IsPage(k, l);
      PageSpan(lay, 0, 0);
      PageSpan(lay, k, l);
      PagesApart(lay, 0, 0, k, l);
      assert !RequestApart(lay, lay.Page(0, 0), lay.Page(k, l));
    }
  }

  /** Requests one byte short of 2^32: the page's word wraps the sum. */
  lemma RequestsOverlap() returns (lay: Layout)
    ensures lay.Accepted() && !RequestsApart(lay)
  {
    lay := Layout(PageSizes(8, 8, 12, 4, 2), 0, 0x4000_0000, 0xFFFF_FFFF, 1);
    assert lay.Unit() == 1 && lay.Depth() == 0x4000_0000 && lay.Metadata() == 20;
    RequestsApartIff(lay);
  }

  /** The end of the last page of the last core. */
  lemma LastPageEnds(lay: Layout)
    requires lay.Accepted() && 0 < lay.Count()
    ensures lay.Page(lay.cores - 1, lay.Count() - 1) + lay.Unit() + lay.Slack() + lay.regionSize % lay.cores
            == lay.start + lay.z.header + lay.regionSize
  {
    var n, p, u := lay.cores, lay.PerCore(), lay.Unit();
    var room := p - lay.Metadata();
    assert room == (room / u) * u + room % u;
    assert (lay.Count() - 1) * u + u == lay.Count() * u;
    assert (n - 1) * p + p == n * p;
    assert lay.regionSize == n * p + lay.regionSize % n;
  }

  lemma NoLaterPage(lay: Layout, i: nat, j: nat)
    requires lay.Accepted() && lay.IsPage(i, j)
    ensures lay.Page(i, j) <= lay.Page(lay.cores - 1, lay.Count() - 1)
  {
    if (i, j) != (lay.cores - 1, lay.Count() - 1) {
      if i < lay.cores - 1 {
        PageInCore(lay, i, j);
        CoresApart(lay, i, lay.cores - 1);
      } else {
        MulStep(j, lay.Count() - 1, lay.Unit());
      }
    }
  }

  ghost predicate AllInside(lay: Layout)
    requires lay.Accepted()
  {
    forall i: nat, j: nat :: lay.IsPage(i, j) ==> lay.Page(i, j) + lay.Unit() <= lay.start + lay.regionSize
  }

  /** Pages end before the region does, give or take the allocator header. */
  lemma PagesEndBefore(lay: Layout, i: nat, j: nat)
    requires lay.Accepted() && lay.IsPage(i, j)
    ensures lay.Page(i, j) + lay.Unit() <= lay.start + lay.regionSize + lay.z.header
  {
    LastPageEnds(lay);
    NoLaterPage(lay, i, j);
  }

  /**
   All pages stay inside the region exactly when the bytes lost to rounding, the slack of the
   last pool and the remainder of the division among cores, cover the allocator header.
   */
  lemma InsideIff(lay: Layout)
    requires lay.Accepted() && 0 < lay.Count()
    ensures AllInside(lay) <==> lay.z.header <= lay.Slack() + lay.regionSize % lay.cores
  {
    LastPageEnds(lay);
    if lay.z.header <= lay.Slack() + lay.regionSize % lay.cores {
      forall i: nat, j: nat | lay.IsPage(i, j)
        ensures lay.Page(i, j) + lay.Unit() <= lay.start + lay.regionSize
      {
        NoLaterPage(lay, i, j);
      }
    } else {
      assert lay.IsPage(lay.cores - 1, lay.Count() - 1);
    }
  }

  /** The bound is tight: with no rounding loss the last page ends a whole header past the region. */
  lemma BoundIsTight(lay: Layout)
    requires lay.Accepted() && 0 < lay.Count() && lay.Slack() == 0 && lay.regionSize % lay.cores == 0
    ensures lay.Page(lay.cores - 1, lay.Count() - 1) + lay.Unit() == lay.start + lay.regionSize + lay.z.header
  {
    LastPageEnds(lay);
  }

  /** Such a region exists for all sizes of the structures and numbers of cores it can be expressed for. */
  lemma TightRegionExists(z: PageSizes, cores: nat) returns (lay: Layout)
    requires 0 < z.offset && 0 < cores
    requires (2 * (z.coreHeader + z.ringHeader + z.offset) + z.entry + 1) * cores < WRAP
    ensures lay.Accepted() && 0 < lay.Count() && lay.Slack() == 0 && lay.regionSize % lay.cores == 0
    ensures lay.z == z && lay.cores == cores
  {
    var meta := z.coreHeader + z.ringHeader + z.offset;
    var unit := meta + z.entry + 1;
    var per := meta + unit;
    MulAtLeast(cores, per);
    lay := Layout(z, 0, per * cores, meta + 1, cores);
    DivModUnique(per * cores, cores, per, 0);
    OneOfTwo(meta, unit);
    assert lay.PerCore() == per && lay.Unit() == unit && lay.Depth() == 1;
  }

  lemma OneOfTwo(meta: nat, unit: nat)
    requires meta < unit
    ensures (meta + unit) / unit == 1 && unit / unit == 1 && unit % unit == 0
  {
    DivModUnique(meta + unit, unit, 1, meta);
    DivModUnique(unit, unit, 1, 0);
  }

  // --- The ring itself ---------------------------------------------------------------------------

  /** No page touches the bytes that any core's ring really uses. */
  ghost predicate RingsClear(lay: Layout)
    requires lay.Accepted()
  {
    forall i: nat, j: nat, k: nat :: lay.IsPage(i, j) && k < lay.cores ==>
      Apart(lay.Page(i, j), lay.Unit(), lay.CoreStart(k), lay.z.coreHeader + lay.RingBytes())
  }

  /** Pages and rings are disjoint exactly when the size of the ring does not overflow 32 bits. */
  lemma RingsClearIff(lay: Layout)
    requires lay.Accepted() && 0 < lay.Count()
    ensures RingsClear(lay) <==> lay.RingBytes() < WRAP
  {
    if lay.RingBytes() < WRAP {
      forall i: nat, j: nat, k: nat | lay.IsPage(i, j) && k < lay.cores
        ensures Apart(lay.Page(i, j), lay.Unit(), lay.CoreStart(k), lay.z.coreHeader + lay.RingBytes())
      {
        PagesBehindMetadata(lay, i, j, k);
      }
    } else {
      assert lay.IsPage(0, 0);
      assert !Apart(lay.Page(0, 0), lay.Unit(), lay.CoreStart(0), lay.z.coreHeader + lay.RingBytes());
    }
  }

  /** No page touches the allocator header or the header and ring of any core. */
  lemma PagesMissMetadata(lay: Layout, i: nat, j: nat, k: nat)
    requires lay.Sound() && lay.IsPage(i, j) && k < lay.cores
    ensures lay.start + lay.z.header <= lay.Page(i, j)
    ensures Apart(lay.Page(i, j), lay.Unit(), lay.CoreStart(k), lay.z.coreHeader + lay.RingBytes())
  {
    PagesBehindMetadata(lay, i, j, k);
  }

  /** Pages of two bytes, the smallest there are: the ring of a large region overflows. */
  lemma RingOverflows() returns (lay: Layout)
    ensures lay.Accepted() && 0 < lay.Count() && !RingsClear(lay)
  {
    lay := Layout(PageSizes(8, 8, 12, 4, 2), 0, 0x9000_0000, 0, 1);
    assert lay.Depth() == 0x4800_0000;
    RingsClearIff(lay);
  }

  // --- Offsets of 32 bits with a sign --------------------------------------------------------------

  const SIGNED: int := 0x8000_0000

  /** An offset as the ring stores it. */
  function Stored(off: int): (x: int)
    ensures -SIGNED <= x < SIGNED
    ensures -SIGNED <= off < SIGNED ==> x == off
  {
    if off % WRAP < SIGNED then off % WRAP else off % WRAP - WRAP
  }

  /** Offsets less than 2^32 apart are stored differently. */
  lemma StoredApart(x: nat, y: nat)
    requires x < y < x + WRAP
    ensures Stored(x) != Stored(y)
  {
  }

  /** No two pages are 2^32 bytes apart. */
  lemma PagesStoredApart(lay: Layout, i: nat, j: nat, k: nat, l: nat)
    requires lay.Accepted() && lay.IsPage(i, j) && lay.IsPage(k, l) && (i, j) != (k, l)
    ensures Stored(lay.Page(i, j)) != Stored(lay.Page(k, l))
  {
    PagesApart(lay, i, j, k, l);
    PageSpan(lay, i, j);
    PageSpan(lay, k, l);
    var x, y := lay.Page(i, j), lay.Page(k, l);
    if x < y {
      StoredApart(x, y);
    } else {
      StoredApart(y, x);
    }
  }

  lemma PageSpan(lay: Layout, i: nat, j: nat)
    requires lay.Accepted() && lay.IsPage(i, j)
    ensures lay.start + lay.z.header <= lay.Page(i, j) < lay.start + lay.z.header + lay.regionSize
  {
    PagesEndBefore(lay, i, j);
    PagesBehindMetadata(lay, i, j, 0);
  }

  lemma DepthFits(lay: Layout)
    requires lay.Accepted()
    ensures lay.Depth() < WRAP
  {
    DivBelow(lay.regionSize, lay.cores);
    DivBelow(lay.PerCore(), lay.Unit());
    DivBelow(lay.PerCore() - lay.z.coreHeader - lay.z.ringHeader, lay.z.offset);
  }

  lemma DivBelow(n: nat, d: nat)
    requires 0 < d
    ensures n / d <= n
  {
    if n / d > 0 {
      MulStep(0, n / d, d);
      assert (n / d) * d <= n;
      MulAtLeast(d, n / d);
      assert d * (n / d) == (n / d) * d;
    }
  }

  /** Every page's offset is stored as it is. */
  ghost predicate OffsetsExact(lay: Layout)
    requires lay.Accepted()
  {
    forall i: nat, j: nat :: lay.IsPage(i, j) ==> Stored(lay.Page(i, j)) == lay.Page(i, j)
  }

  /** That is so exactly when the last page starts below 2^31. */
  lemma OffsetsExactIff(lay: Layout)
    requires lay.Accepted() && 0 < lay.Count()
    ensures OffsetsExact(lay) <==> lay.Page(lay.cores - 1, lay.Count() - 1) < SIGNED
  {
    if lay.Page(lay.cores - 1, lay.Count() - 1) < SIGNED {
      forall i: nat, j: nat | lay.IsPage(i, j) ensures Stored(lay.Page(i, j)) == lay.Page(i, j) {
        NoLaterPage(lay, i, j);
      }
    } else {
      assert lay.IsPage(lay.cores - 1, lay.Count() - 1);
    }
  }

  /** A region of three gibibytes with pages of a mebibyte: the last one is stored as a negative offset. */
  lemma StoredTooLow() returns (lay: Layout)
    ensures lay.Accepted() && 0 < lay.Count() && !OffsetsExact(lay)
    ensures Stored(lay.Page(lay.cores - 1, lay.Count() - 1)) < 0
  {
    lay := Layout(PageSizes(8, 8, 12, 4, 2), 0, 0xC000_0000, 1048574, 1);
    assert lay.Depth() == 3072 && lay.Metadata() == 12308 && lay.Count() == 3071;
    OffsetsExactIff(lay);
  }

  /** Three pages of 98 bytes in a region of 332. */
  lemma ThreePages() returns (lay: Layout)
    ensures lay.Sound() && lay.Depth() == 3 == lay.Count() && lay.Page(lay.cores - 1, lay.Count() - 1) < SIGNED
  {
    lay := Layout(PageSizes(8, 8, 12, 4, 2), 0, 332, 98, 1);
  }

  /** Pages of 66 bytes that leave no byte over in a mebibyte shared by four cores. */
  lemma FullPages() returns (lay: Layout)
    ensures lay.Accepted() && 0 < lay.Count() && lay.Slack() == 0 && lay.regionSize % lay.cores == 0
    ensures lay.start == 0 && lay.regionSize == 1048576 && lay.requestUnit == 66 && lay.z.header == 8
  {
    lay := Layout(PageSizes(8, 8, 12, 4, 2), 0, 1048576, 66, 4);
    assert lay.Depth() == 3855 && lay.Metadata() == 15440;
  }
}
